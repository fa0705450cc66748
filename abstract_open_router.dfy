/** The request builder and response extractor shared by the completion-endpoint
    clients (AbstractOpenRouterService): `createRequestBody`, `processResponse`
    and `getMimeType` with its `application/octet-stream` fallback.

    The two regular expressions of `processResponse` are written out as index
    searches. For ```` /```json\s*(.*?)\s*```/s ```` the leftmost match starts at
    the first "```json" (two occurrences of "```json" cannot overlap, and a later
    one would itself close an earlier one), its closing fence is the first "```"
    at or after the end of the opening one, and because the outer `\s*` is greedy,
    the group is lazy and a backtick is not a space, the captured group is the
    text between the fences without its leading and trailing `\s` run. For
    `/{.*}/s` the match runs from the first `{` to the last `}`, when the latter
    comes after the former. */
module AbstractOpenRouter {
  import opened Wrappers
  import opened PhpStrings
  import opened Json
  import opened ImageFormats

  // ---------------------------------------------------------------------------
  // MIME types

  const OctetStream := "application/octet-stream"

  lemma OctetStreamIsPlain()
    ensures ',' !in OctetStream && ';' !in OctetStream
  {
    assert OctetStream == "application/" + "octet-stream";
  }

  /** `getMimeType`: the MIME type of the lower-cased extension of `filename`,
      `application/octet-stream` for every other extension. */
  function MimeType(filename: string): (m: string)
    ensures FormatOf(LowerExtension(filename)).Some? ==> m == MimeOf(FormatOf(LowerExtension(filename)).value)
    ensures FormatOf(LowerExtension(filename)).None? <==> m == OctetStream
    ensures ',' !in m
  {
    match FormatOf(LowerExtension(filename))
    case Some(f) => MimeOf(f)
    case None => OctetStreamIsPlain(); OctetStream
  }

  // ---------------------------------------------------------------------------
  // The request

  const Endpoint := "https://openrouter.ai/api/v1/chat/completions"
  const Instruction := "Please analyze this image and provide a detailed description and relevant tags. Your response MUST be in JSON format with exactly these fields: {\"description\": \"detailed description here\", \"tags\": [\"tag1\", \"tag2\", \"tag3\"]}. Do not include any other text, only the JSON object."
  const MaxTokens := "1500"
  const Temperature := "0.1"

  /** The image as a data URL: `data:<mime>;base64,<payload>`. */
  function DataUrl(mime: string, payload: string): string {
    "data:" + mime + ";base64," + payload
  }

  /** The MIME type and payload of a base64 data URL: the header runs up to the
      first comma and must end in ";base64". */
  function SplitDataUrl(url: string): Option<(string, string)> {
    if !StartsWith(url, "data:") then None
    else match FirstIndexOf(url, ',')
      case None => None
      case Some(c) =>
        if c < 5 + 7 || url[c - 7..c] != ";base64" then None
        else Some((url[5..c - 7], url[c + 1..]))
  }

  /** A data URL gives back the MIME type and the payload it was built from,
      byte for byte, whenever the MIME type has no comma. */
  lemma DataUrlRoundTrip(mime: string, payload: string)
    requires ',' !in mime
    ensures SplitDataUrl(DataUrl(mime, payload)) == Some((mime, payload))
  {
    var url := DataUrl(mime, payload);
    var c := 5 + |mime| + 7;
    assert url[..5] == "data:";
    assert url[c] == ',';
    assert forall k :: 0 <= k < c ==> url[k] != ',' by {
      forall k | 0 <= k < c ensures url[k] != ',' {
        if 5 <= k < 5 + |mime| {
          assert url[k] == mime[k - 5];
        }
      }
    }
    assert FirstIndexOf(url, ',') == Some(c);
    assert url[c - 7..c] == ";base64";
    assert url[5..c - 7] == mime;
    assert url[c + 1..] == payload;
  }

  function TextPart(text: string): Json {
    JObject([("type", JString("text")), ("text", JString(text))])
  }

  function ImagePart(url: string): Json {
    JObject([("type", JString("image_url")), ("image_url", JObject([("url", JString(url))]))])
  }

  /** The array `createRequestBody` hands to `json_encode`, for a given MIME
      type. */
  function RequestBody(model: string, mime: string, payload: string): Json {
    JObject([
      ("model", JString(model)),
      ("messages", JArray([JObject([
        ("role", JString("user")),
        ("content", JArray([TextPart(Instruction), ImagePart(DataUrl(mime, payload))]))])])),
      ("max_tokens", JNumber(MaxTokens)),
      ("temperature", JNumber(Temperature))])
  }

  /** `createRequestBody` of AbstractOpenRouterService. */
  function CreateRequestBody(model: string, payload: string, imageName: string): Json {
    RequestBody(model, MimeType(imageName), payload)
  }

  /** Where a reader of the request finds the image: messages[0].content[1]
      .image_url.url. */
  function ImageUrlOf(body: Json): Option<string> {
    var messages := Field(body, "messages");
    if messages.None? || !messages.value.JArray? || |messages.value.items| == 0 then None
    else
      var content := Field(messages.value.items[0], "content");
      if content.None? || !content.value.JArray? || |content.value.items| < 2 then None
      else
        var image := Field(content.value.items[1], "image_url");
        if image.None? then None
        else
          var url := Field(image.value, "url");
          if url.Some? && url.value.JString? then Some(url.value.s) else None
  }

  lemma RequestBodyScalars(model: string, mime: string, payload: string)
    ensures var body := RequestBody(model, mime, payload);
      && Field(body, "model") == Some(JString(model))
      && Field(body, "max_tokens") == Some(JNumber("1500"))
      && Field(body, "temperature") == Some(JNumber("0.1"))
  {
    var body := RequestBody(model, mime, payload);
    var ms := body.members;
    assert ms[3].0 == "temperature";
    assert ms[2].0 == "max_tokens" != "temperature";
    assert ms[1].0 == "messages" != "max_tokens";
    assert ms[0].0 == "model" != "messages";
    assert ms[..3][..2] == ms[..2] && ms[..2][..1] == ms[..1];
  }

  lemma RequestBodyImage(model: string, mime: string, payload: string)
    ensures ImageUrlOf(RequestBody(model, mime, payload)) == Some(DataUrl(mime, payload))
  {
    var body := RequestBody(model, mime, payload);
    var ms := body.members;
    assert ms[..3][..2] == ms[..2];
    assert Field(body, "messages") == Some(ms[1].1);
    var message := ms[1].1.items[0];
    assert Field(message, "content") == Some(message.members[1].1);
    var image := ImagePart(DataUrl(mime, payload));
    assert message.members[1].1.items[1] == image;
    assert Field(image, "image_url") == Some(image.members[1].1);
    assert Field(image.members[1].1, "url") == Some(JString(DataUrl(mime, payload)));
  }

  /** The request names the configured model, asks for 1500 tokens at
      temperature 0.1, and carries the image as a data URL from which the MIME
      type of `imageName` and the unchanged payload can be read back. (The
      instruction text is the constant Instruction placed by RequestBody; no
      lemma reads it back.) */
  lemma RequestBodyContents(model: string, payload: string, imageName: string)
    ensures var body := CreateRequestBody(model, payload, imageName);
      && Field(body, "model") == Some(JString(model))
      && Field(body, "max_tokens") == Some(JNumber("1500"))
      && Field(body, "temperature") == Some(JNumber("0.1"))
      && ImageUrlOf(body).Some?
      && SplitDataUrl(ImageUrlOf(body).value) == Some((MimeType(imageName), payload))
  {
    var mime := MimeType(imageName);
    RequestBodyScalars(model, mime, payload);
    RequestBodyImage(model, mime, payload);
    DataUrlRoundTrip(mime, payload);
  }

  // ---------------------------------------------------------------------------
  // Selecting the JSON text inside the model's reply

  const OpenFence := "```json"
  const Fence := "```"

  /** A match of the fenced-block pattern: where the opening and closing fences
      start and which slice of the content the group captures. */
  datatype FenceMatch = FenceMatch(open: nat, start: nat, end: nat, close: nat)

  /** `preg_match('/```json\s*(.*?)\s*```/s', $content)`. */
  function FencedBlock(content: string): (r: Option<FenceMatch>)
    ensures r.Some? <==> exists i, j :: OccursAt(content, OpenFence, i) && OccursAt(content, Fence, j) && i + 7 <= j
    ensures r.Some? ==> var m := r.value;
      // the opening fence is the first one
      && OccursAt(content, OpenFence, m.open)
      && (forall k :: 0 <= k < m.open ==> !OccursAt(content, OpenFence, k))
      // the closing fence is the first one after it
      && m.open + 7 <= m.start <= m.end <= m.close
      && OccursAt(content, Fence, m.close)
      && (forall k :: m.open + 7 <= k < m.close ==> !OccursAt(content, Fence, k))
      // the group drops only the spaces next to the fences
      && (forall k :: m.open + 7 <= k < m.start ==> IsRegexSpace(content[k]))
      && (forall k :: m.end <= k < m.close ==> IsRegexSpace(content[k]))
      && (m.start < m.end ==> !IsRegexSpace(content[m.start]) && !IsRegexSpace(content[m.end - 1]))
  {
    match IndexOf(content, OpenFence, 0)
    case None => None
    case Some(open) =>
      match IndexOf(content, Fence, open + 7)
      case None =>
        None
      case Some(close) =>
        var start := SkipRegexSpace(content, open + 7);
        // the character at `close` is a backtick, so the run of spaces stops there
        assert content[close] == '`' by { assert content[close..close + 3] == Fence; }
        assert start <= close;
        var end := BackRegexSpace(content, start, close);
        assert OccursAt(content, OpenFence, open) && OccursAt(content, Fence, close);
        Some(FenceMatch(open, start, end, close))
  }

  /** A match of the `{...}` pattern: the slice `start..end` of the content. */
  datatype Span = Span(start: nat, end: nat)

  /** `preg_match('/{.*}/s', $content)`: from the first `{` to the last `}`. */
  function BraceSpan(content: string): (r: Option<Span>)
    ensures r.Some? <==> exists i, j :: 0 <= i < j < |content| && content[i] == '{' && content[j] == '}'
    ensures r.Some? ==> var s := r.value;
      && s.start < s.end <= |content|
      && content[s.start] == '{' && content[s.end - 1] == '}'
      && (forall k :: 0 <= k < s.start ==> content[k] != '{')
      && (forall k :: s.end <= k < |content| ==> content[k] != '}')
  {
    match (FirstIndexOf(content, '{'), LastIndexOf(content, '}'))
    case (Some(i), Some(j)) =>
      if i < j then Some(Span(i, j + 1))
      else
        None
    case _ => None
  }

  /** The text `processResponse` hands to `trim` and `json_decode`: the fenced
      block, else the brace span, else the content itself. */
  function SelectJsonText(content: string): string {
    match FencedBlock(content)
    case Some(m) => content[m.start..m.end]
    case None =>
      match BraceSpan(content)
      case Some(s) => content[s.start..s.end]
      case None => content
  }

  lemma FirstOccurrenceFrom(s: string, pat: string, from: nat, p: nat)
    requires |pat| > 0 && from <= p && OccursAt(s, pat, p)
    requires forall k :: from <= k < p ==> !OccursAt(s, pat, k)
    ensures IndexOf(s, pat, from) == Some(p)
  {
  }

  lemma SkipRegexSpaceTo(s: string, i: nat, j: nat)
    requires i <= j < |s| && !IsRegexSpace(s[j])
    requires forall k :: i <= k < j ==> IsRegexSpace(s[k])
    ensures SkipRegexSpace(s, i) == j
  {
  }

  lemma BackRegexSpaceTo(s: string, lo: nat, e: nat, j: nat)
    requires lo < e <= j <= |s| && !IsRegexSpace(s[e - 1])
    requires forall k :: e <= k < j ==> IsRegexSpace(s[k])
    ensures BackRegexSpace(s, lo, j) == e
  {
  }

  /** The fenced-block pattern read off from where the fences and the group
      are. */
  lemma FencedBlockAt(content: string, open: nat, start: nat, end: nat, close: nat)
    requires open + 7 <= start < end <= close
    requires OccursAt(content, OpenFence, open) && OccursAt(content, Fence, close)
    requires forall k :: 0 <= k < open ==> !OccursAt(content, OpenFence, k)
    requires forall k :: open + 7 <= k < close ==> !OccursAt(content, Fence, k)
    requires forall k :: open + 7 <= k < start ==> IsRegexSpace(content[k])
    requires forall k :: end <= k < close ==> IsRegexSpace(content[k])
    requires !IsRegexSpace(content[start]) && !IsRegexSpace(content[end - 1])
    ensures SelectJsonText(content) == content[start..end]
  {
    FirstOccurrenceFrom(content, OpenFence, 0, open);
    FirstOccurrenceFrom(content, Fence, open + 7, close);
    SkipRegexSpaceTo(content, open + 7, start);
    BackRegexSpaceTo(content, start, end, close);
  }

  /** The fenced block wins whenever it is there, whatever braces surround it:
      the reply `pre ```json ws1 obj ws2 ``` post` yields `obj`. */
  lemma FencedBlockWins(pre: string, ws1: string, obj: string, ws2: string, post: string)
    requires '`' !in pre && '`' !in obj
    requires forall k :: 0 <= k < |ws1| ==> IsRegexSpace(ws1[k])
    requires forall k :: 0 <= k < |ws2| ==> IsRegexSpace(ws2[k])
    requires |obj| > 0 && !IsRegexSpace(obj[0]) && !IsRegexSpace(obj[|obj| - 1])
    ensures SelectJsonText(pre + OpenFence + ws1 + obj + ws2 + Fence + post) == obj
  {
    var head := pre + OpenFence + ws1;
    var tail := ws2 + Fence + post;
    var content := head + obj + tail;
    assert content == pre + OpenFence + ws1 + obj + ws2 + Fence + post;
    var open := |pre|;
    var start := |head|;
    var end := start + |obj|;
    var close := end + |ws2|;
    assert content[open..open + 7] == OpenFence;
    assert content[close..close + 3] == Fence;
    assert content[start..end] == obj;
    forall k | 0 <= k < open ensures !OccursAt(content, OpenFence, k) {
      assert content[k] == pre[k];
      assert pre[k] in pre;
    }
    forall k | open + 7 <= k < start ensures IsRegexSpace(content[k]) {
      assert content[k] == ws1[k - open - 7];
    }
    forall k | end <= k < close ensures IsRegexSpace(content[k]) {
      assert content[k] == tail[k - end] == ws2[k - end];
    }
    forall k | open + 7 <= k < close ensures !OccursAt(content, Fence, k) {
      if start <= k < end {
        assert content[k] == obj[k - start];
        assert obj[k - start] in obj;
      }
      assert content[k] != '`';
      assert k + 3 <= |content| ==> content[k..k + 3][0] == content[k];
    }
    assert content[start] == obj[0];
    assert content[end - 1] == obj[|obj| - 1];
    FencedBlockAt(content, open, start, end, close);
  }

  /** Content without a backtick has no fenced block. */
  lemma NoBacktickNoFence(content: string)
    requires forall k :: 0 <= k < |content| ==> content[k] != '`'
    ensures FencedBlock(content).None?
  {
    forall i | 0 <= i ensures !OccursAt(content, OpenFence, i) {
      if i + 7 <= |content| {
        assert content[i..i + 7][0] == content[i];
      }
    }
  }

  /** Without a fence, an object embedded in prose is cut out from its first
      `{` to its last `}`; with nothing around it, the object is used as is. */
  lemma EmbeddedObjectIsFound(pre: string, obj: string, post: string)
    requires '`' !in pre + obj + post
    requires '{' !in pre && '}' !in post
    requires |obj| >= 2 && obj[0] == '{' && obj[|obj| - 1] == '}'
    ensures SelectJsonText(pre + obj + post) == obj
  {
    var content := pre + obj + post;
    forall k | 0 <= k < |content| ensures content[k] != '`' {
      assert content[k] in content;
    }
    NoBacktickNoFence(content);
    var i, j := |pre|, |pre| + |obj| - 1;
    assert content[i] == '{' && content[j] == '}';
    forall k | 0 <= k < i ensures content[k] != '{' {
      assert content[k] == pre[k];
      assert pre[k] in pre;
    }
    forall k | j < k < |content| ensures content[k] != '}' {
      assert content[k] == post[k - |pre| - |obj|];
      assert post[k - |pre| - |obj|] in post;
    }
    assert content[i..j + 1] == obj;
  }

  // ---------------------------------------------------------------------------
  // processResponse

  /** Why `processResponse` throws; Message gives the exception text. All but
      ContentIsArray are `\Exception`s; ContentIsArray is the `TypeError` that
      `preg_match` raises when the message content is an array, which no
      `catch (\Exception ...)` of the service code intercepts. */
  datatype ResponseError =
    | InvalidJson
    | NoChoices
    | NoMessageContent
    | ContentIsArray
    | UnparsableContent
    | MissingFields

  function Message(e: ResponseError): string {
    match e
    case InvalidJson => "Invalid JSON response from API"
    case NoChoices => "Response doesn't contain 'choices' array"
    case NoMessageContent => "Response doesn't contain expected message content structure"
    case ContentIsArray => "preg_match(): Argument #2 ($subject) must be of type string, array given"
    case UnparsableContent => "Could not parse JSON from response content"
    case MissingFields => "Response doesn't contain required 'description' and 'tags' fields"
  }

  /** `isset($r['choices']) && is_array($r['choices']) && !empty($r['choices'])`. */
  predicate HasChoices(result: Json) {
    Isset(result, "choices") && IsArray(Field(result, "choices").value)
    && !IsEmptyArray(Field(result, "choices").value)
  }

  /** `$r['choices'][0]['message']['content']` when both `isset` checks pass. */
  function FirstContent(result: Json): Option<Json>
    requires HasChoices(result)
  {
    match Index0(Field(result, "choices").value)
    case None => None
    case Some(first) =>
      if !Isset(first, "message") then None
      else
        var message := Field(first, "message").value;
        if !Isset(message, "content") then None else Field(message, "content")
  }

  /** An `\Exception`, as opposed to the `TypeError` of an array content. */
  predicate IsException(e: ResponseError) {
    e != ContentIsArray
  }

  /** The string PHP makes of a scalar content when it is passed where a string
      is expected: a string as is, a number as written, true as "1" and false
      as "". An array has none. */
  function ContentText(v: Json): (r: Option<string>)
    ensures r.None? <==> v.JArray? || v.JObject? || v.JNull?
    ensures v.JString? ==> r == Some(v.s)
  {
    match v
    case JString(s) => Some(s)
    case JNumber(literal) => Some(literal)
    case JBool(b) => Some(if b then "1" else "")
    case _ => None
  }

  /** A decoded metadata object is accepted when it is an array in which both
      `description` and `tags` are set. */
  predicate IsMetadata(m: Json) {
    IsArray(m) && Isset(m, "description") && Isset(m, "tags")
  }

  /** The second half of `processResponse`: select, trim, decode and check the
      model's text. */
  function ExtractFromContent(content: string, decode: Decoder): (r: Result<Json, ResponseError>)
  {
    match decode(Trim(SelectJsonText(content)))
    case None => Err(UnparsableContent)
    case Some(m) =>
      if !IsArray(m) then Err(UnparsableContent)
      else if !Isset(m, "description") || !Isset(m, "tags") then Err(MissingFields)
      else Ok(m)
  }

  /** The content is accepted exactly when the selected, trimmed text decodes
      to metadata, which is then returned unchanged; a rejection is one of the
      two content errors: UnparsableContent when the text does not decode to an
      array, MissingFields when it does but `description` or `tags` is not set. */
  lemma ExtractFromContentCases(content: string, decode: Decoder)
    ensures var r := ExtractFromContent(content, decode);
      var m := decode(Trim(SelectJsonText(content)));
      && (r.Ok? <==> m.Some? && IsMetadata(m.value))
      && (r.Ok? ==> Some(r.value) == m)
      && (r.Err? ==> r.error == UnparsableContent || r.error == MissingFields)
      && (r == Err(UnparsableContent) <==> m.None? || !IsArray(m.value))
      && (r == Err(MissingFields) <==>
            m.Some? && IsArray(m.value) && !(Isset(m.value, "description") && Isset(m.value, "tags")))
  {
  }

  /** `processResponse`: the response body must decode to an array with a
      non-empty `choices` array whose first element has a set message content;
      that content must be text, and the JSON inside it must be an array with
      `description` and `tags` set, which is returned whole. */
  function ProcessResponse(body: string, decode: Decoder): (r: Result<Json, ResponseError>)
  {
    match decode(body)
    case None => Err(InvalidJson)
    case Some(result) =>
      if !IsArray(result) then Err(InvalidJson)
      else if !HasChoices(result) then Err(NoChoices)
      else match FirstContent(result)
        case None => Err(NoMessageContent)
        case Some(v) =>
          match ContentText(v)
          case Some(content) => ExtractFromContent(content, decode)
          case None => Err(ContentIsArray)
  }

  /** The reply passes every structural check of `processResponse` and its
      first message content is not an array. */
  predicate HasTextContent(body: string, decode: Decoder) {
    && decode(body).Some? && IsArray(decode(body).value) && HasChoices(decode(body).value)
    && FirstContent(decode(body).value).Some?
    && ContentText(FirstContent(decode(body).value).value).Some?
  }

  /** The text of that content. */
  function TextContent(body: string, decode: Decoder): string
    requires HasTextContent(body, decode)
  {
    ContentText(FirstContent(decode(body).value).value).value
  }

  /** Each outcome of `processResponse` against the reply that causes it: a
      body that is not a JSON object or array, one without choices, one
      without a first message content, an array content (on which the regular
      expressions throw), a text content whose selected JSON is not an array,
      one whose JSON lacks a required field, and otherwise success. */
  lemma ProcessResponseCases(body: string, decode: Decoder)
    ensures (decode(body).None? || !IsArray(decode(body).value)) <==> ProcessResponse(body, decode) == Err(InvalidJson)
    ensures ProcessResponse(body, decode) == Err(NoChoices) <==> decode(body).Some? && IsArray(decode(body).value) && !HasChoices(decode(body).value)
    ensures ProcessResponse(body, decode) == Err(NoMessageContent) <==>
      decode(body).Some? && IsArray(decode(body).value) && HasChoices(decode(body).value)
      && FirstContent(decode(body).value).None?
    ensures ProcessResponse(body, decode).Ok? ==> IsMetadata(ProcessResponse(body, decode).value)
    ensures ProcessResponse(body, decode).Ok? <==>
      decode(body).Some? && IsArray(decode(body).value) && HasChoices(decode(body).value)
      && FirstContent(decode(body).value).Some?
      && ContentText(FirstContent(decode(body).value).value).Some?
      && ExtractFromContent(ContentText(FirstContent(decode(body).value).value).value, decode).Ok?
    ensures ProcessResponse(body, decode) == Err(ContentIsArray) <==>
      decode(body).Some? && IsArray(decode(body).value) && HasChoices(decode(body).value)
      && FirstContent(decode(body).value).Some? && IsArray(FirstContent(decode(body).value).value)
    ensures ProcessResponse(body, decode) == Err(UnparsableContent) <==>
      HasTextContent(body, decode)
      && (var m := decode(Trim(SelectJsonText(TextContent(body, decode)))); m.None? || !IsArray(m.value))
    ensures ProcessResponse(body, decode) == Err(MissingFields) <==>
      HasTextContent(body, decode)
      && (var m := decode(Trim(SelectJsonText(TextContent(body, decode))));
          m.Some? && IsArray(m.value) && !(Isset(m.value, "description") && Isset(m.value, "tags")))
  {
    match decode(body)
    case None =>
    case Some(result) =>
      if IsArray(result) && HasChoices(result) && FirstContent(result).Some? {
        var v := FirstContent(result).value;
        if ContentText(v).Some? {
          ExtractFromContentCases(ContentText(v).value, decode);
        }
      }
  }

  /** The shape of a completion reply whose first choice carries `content`. */
  function ReplyWith(content: string): Json {
    JObject([("choices", JArray([JObject([("message", JObject([("content", JString(content))]))])]))])
  }

  /** A well-formed reply is judged by its content alone. */
  lemma ReplyIsJudgedByContent(body: string, content: string, decode: Decoder)
    requires decode(body) == Some(ReplyWith(content))
    ensures ProcessResponse(body, decode) == ExtractFromContent(content, decode)
  {
    var result := ReplyWith(content);
    assert Field(result, "choices") == Some(JArray([JObject([("message", JObject([("content", JString(content))]))])]));
    assert HasChoices(result);
    assert FirstContent(result) == Some(JString(content));
  }

  /** Two contents whose selected text agrees are judged alike. */
  lemma SameSelectionSameResult(a: string, b: string, decode: Decoder)
    requires SelectJsonText(a) == SelectJsonText(b)
    ensures ExtractFromContent(a, decode) == ExtractFromContent(b, decode)
  {
  }

  /** The same object, sent bare, wrapped in a ```json fence, or embedded in
      prose, is extracted to the same result. */
  lemma SameObjectThreeWays(obj: string, ws1: string, ws2: string, pre: string, post: string, decode: Decoder)
    requires '`' !in pre + obj + post
    requires '{' !in pre && '}' !in post
    requires |obj| >= 2 && obj[0] == '{' && obj[|obj| - 1] == '}'
    requires forall k :: 0 <= k < |ws1| ==> IsRegexSpace(ws1[k])
    requires forall k :: 0 <= k < |ws2| ==> IsRegexSpace(ws2[k])
    ensures ExtractFromContent(OpenFence + ws1 + obj + ws2 + Fence, decode) == ExtractFromContent(obj, decode)
    ensures ExtractFromContent(pre + obj + post, decode) == ExtractFromContent(obj, decode)
  {
    assert '`' !in obj by {
      forall k | 0 <= k < |obj| ensures obj[k] != '`' {
        assert obj[k] == (pre + obj + post)[|pre| + k];
        assert (pre + obj + post)[|pre| + k] in pre + obj + post;
      }
    }
    var fenced := OpenFence + ws1 + obj + ws2 + Fence;
    assert fenced == "" + OpenFence + ws1 + obj + ws2 + Fence + "";
    FencedBlockWins("", ws1, obj, ws2, "");
    EmbeddedObjectIsFound("", obj, "");
    assert "" + obj + "" == obj;
    EmbeddedObjectIsFound(pre, obj, post);
    SameSelectionSameResult(fenced, obj, decode);
    SameSelectionSameResult(pre + obj + post, obj, decode);
  }
}
