/** The synchronous completion-endpoint client (OpenRouterService): its own
    `getMimeType`, which falls back to `image/jpeg` with a warning, and
    `classifyImage`, which posts the request and turns every `\Exception` into a
    null result with an error in the log.

    The HTTP client is the parameter `post`: it maps the request to a Reply,
    which is either the response body or the exception the client threw. The
    body of `classifyImage` repeats `processResponse` of the shared base class
    check for check, so the model reuses AbstractOpenRouter.ProcessResponse.
    Only the warning and error entries of the log are modelled. */
module OpenRouter {
  import opened Wrappers
  import opened PhpStrings
  import opened Json
  import opened ImageFormats
  import opened Logging
  import AbstractOpenRouter

  // ---------------------------------------------------------------------------
  // MIME types

  /** `getMimeType` of OpenRouterService: the MIME type of a known extension,
      otherwise `image/jpeg` and a warning naming the extension. */
  function MimeType(filename: string): (r: (string, seq<LogEntry>))
    ensures FormatOf(LowerExtension(filename)).Some? ==>
      r == (MimeOf(FormatOf(LowerExtension(filename)).value), [])
    ensures FormatOf(LowerExtension(filename)).None? ==>
      r == ("image/jpeg",
            [LogEntry(Warning, "Unknown image extension: " + LowerExtension(filename) + ", defaulting to image/jpeg")])
  {
    var ext := LowerExtension(filename);
    match FormatOf(ext)
    case Some(f) => (MimeOf(f), [])
    case None => ("image/jpeg", [LogEntry(Warning, "Unknown image extension: " + ext + ", defaulting to image/jpeg")])
  }

  /** The two `getMimeType`s agree exactly on the known extensions; on every
      other one this client claims JPEG where the base class sends
      `application/octet-stream`. */
  lemma MimeTypesAgreeOnKnownFormats(filename: string)
    ensures MimeType(filename).0 == AbstractOpenRouter.MimeType(filename)
        <==> FormatOf(LowerExtension(filename)).Some?
    ensures FormatOf(LowerExtension(filename)).None? ==>
      MimeType(filename).0 == "image/jpeg" && AbstractOpenRouter.MimeType(filename) == AbstractOpenRouter.OctetStream
  {
    var ext := LowerExtension(filename);
    if FormatOf(ext).None? {
      JpegIsNotOctetStream();
      assert MimeType(filename).0 == "image/jpeg";
      assert AbstractOpenRouter.MimeType(filename) == AbstractOpenRouter.OctetStream;
    } else {
      assert MimeType(filename).0 == MimeOf(FormatOf(ext).value);
    }
  }

  lemma JpegIsNotOctetStream()
    ensures "image/jpeg" != AbstractOpenRouter.OctetStream
  {
    assert "image/jpeg"[6] != AbstractOpenRouter.OctetStream[6];
  }

  // ---------------------------------------------------------------------------
  // The request

  /** What the client is asked to send: the endpoint, the headers and the JSON
      body. */
  datatype Request = Request(url: string, headers: seq<(string, string)>, body: Json)

  /** What the client gives back: the body of a response, a `RequestException`
      (with the body of the error response when there was one), or any other
      `\Exception` it threw. */
  datatype Reply =
    | Delivered(body: string)
    | RequestFailed(message: string, errorBody: Option<string>)
    | OtherFailure(message: string)

  type Client = Request -> Reply

  function Headers(apiKey: string): seq<(string, string)> {
    [("Authorization", "Bearer " + apiKey),
     ("Content-Type", "application/json"),
     ("HTTP-Referer", "https://localhost"),
     ("X-Title", "Photo Description Generator")]
  }

  /** The request `classifyImage` posts: the same body as the base class's
      `createRequestBody`, with this client's MIME type in the data URL. */
  function RequestFor(apiKey: string, model: string, payload: string, imageName: string): Request {
    Request(AbstractOpenRouter.Endpoint, Headers(apiKey),
            AbstractOpenRouter.RequestBody(model, MimeType(imageName).0, payload))
  }

  /** The request carries the key as a bearer token and, for a known format,
      is byte for byte the body the base class builds. */
  lemma RequestMatchesBaseClass(apiKey: string, model: string, payload: string, imageName: string)
    ensures RequestFor(apiKey, model, payload, imageName).url == "https://openrouter.ai/api/v1/chat/completions"
    ensures RequestFor(apiKey, model, payload, imageName).headers[0] == ("Authorization", "Bearer " + apiKey)
    ensures FormatOf(LowerExtension(imageName)).Some? ==>
      RequestFor(apiKey, model, payload, imageName).body
        == AbstractOpenRouter.CreateRequestBody(model, payload, imageName)
  {
    MimeTypesAgreeOnKnownFormats(imageName);
  }

  // ---------------------------------------------------------------------------
  // classifyImage

  /** How `classifyImage` ends: it returns the metadata, it returns null, or an
      error it does not catch leaves it. */
  datatype Answer = Metadata(m: Json) | Null | Escapes(error: string)

  datatype Classification = Classification(answer: Answer, log: seq<LogEntry>)

  /** The error entry `processResponse` logs before it throws, if any. */
  function ResponseErrorLog(body: string, decode: Decoder, encode: Json -> string): seq<LogEntry> {
    match decode(body)
    case Some(result) =>
      if !IsArray(result) || !AbstractOpenRouter.HasChoices(result) then []
      else (match AbstractOpenRouter.FirstContent(result)
        case Some(v) =>
          (match AbstractOpenRouter.ContentText(v)
           case Some(content) =>
             var text := Trim(AbstractOpenRouter.SelectJsonText(content));
             (match decode(text)
              case Some(m) =>
                if !IsArray(m) then [LogEntry(Error, "Failed to parse JSON content: " + AbstractOpenRouter.SelectJsonText(content))]
                else if !AbstractOpenRouter.IsMetadata(m) then [LogEntry(Error, "Missing required fields in metadata: " + encode(m))]
                else []
              case None => [LogEntry(Error, "Failed to parse JSON content: " + AbstractOpenRouter.SelectJsonText(content))])
           case None => [])
        case None => [])
    case None => []
  }

  /** What `classifyImage` makes of a delivered body: the metadata, or null
      with the failure in the log, or the `TypeError` of an array content. */
  function JudgeBody(body: string, decode: Decoder, encode: Json -> string): (c: Classification)
  {
    match AbstractOpenRouter.ProcessResponse(body, decode)
    case Ok(m) => Classification(Metadata(m), [])
    case Err(e) =>
      if AbstractOpenRouter.IsException(e) then
        Classification(Null, ResponseErrorLog(body, decode, encode)
                             + [LogEntry(Error, "API processing error: " + AbstractOpenRouter.Message(e))])
      else
        Classification(Escapes(AbstractOpenRouter.Message(e)), [])
  }

  /** `classifyImage`: the MIME warning (if any) is logged while the request is
      built; a delivered body is judged by the response checks; a
      `RequestException` logs "API request error: ..." and, when a response came
      back, "Error response: ..."; every other `\Exception` logs "API
      processing error: ..."; all of these return null. */
  function ClassifyImage(apiKey: string, model: string, payload: string, imageName: string,
                         post: Client, decode: Decoder, encode: Json -> string): (c: Classification)
  {
    var warnings := MimeType(imageName).1;
    match post(RequestFor(apiKey, model, payload, imageName))
    case RequestFailed(message, errorBody) =>
      var details := if errorBody.Some? then [LogEntry(Error, "Error response: " + errorBody.value)] else [];
      Classification(Null, warnings + [LogEntry(Error, "API request error: " + message)] + details)
    case OtherFailure(message) =>
      Classification(Null, warnings + [LogEntry(Error, "API processing error: " + message)])
    case Delivered(body) =>
      var judged := JudgeBody(body, decode, encode);
      Classification(judged.answer, warnings + judged.log)
  }

  /** The log of `classifyImage`: the MIME warning first, then what went
      wrong, by the kind of reply. */
  lemma ClassifyImageLog(apiKey: string, model: string, payload: string, imageName: string,
                         post: Client, decode: Decoder, encode: Json -> string)
    ensures var c := ClassifyImage(apiKey, model, payload, imageName, post, decode, encode);
      var reply := post(RequestFor(apiKey, model, payload, imageName));
      && (reply.Delivered? ==>
            c.answer == JudgeBody(reply.body, decode, encode).answer
            && c.log == MimeType(imageName).1 + JudgeBody(reply.body, decode, encode).log)
      && (reply.RequestFailed? ==>
            c.answer == Null
            && c.log == MimeType(imageName).1 + [LogEntry(Error, "API request error: " + reply.message)]
                        + (if reply.errorBody.Some? then [LogEntry(Error, "Error response: " + reply.errorBody.value)] else []))
      && (reply.OtherFailure? ==>
            c.answer == Null && c.log == MimeType(imageName).1 + [LogEntry(Error, "API processing error: " + reply.message)])
  {
  }

  /** A delivered body is judged by `processResponse` alone: metadata exactly
      when it succeeds, an escaping error exactly for an array content, and
      otherwise null with "API processing error: ..." as the last entry. */
  lemma JudgeBodyOutcome(body: string, decode: Decoder, encode: Json -> string)
    ensures var c := JudgeBody(body, decode, encode);
      var r := AbstractOpenRouter.ProcessResponse(body, decode);
      && (c.answer.Metadata? <==> r.Ok?)
      && (c.answer.Metadata? ==> c.answer.m == r.value)
      && (c.answer.Escapes? <==> r == Err(AbstractOpenRouter.ContentIsArray))
      && (c.answer.Null? ==>
            |c.log| > 0
            && c.log[|c.log| - 1] == LogEntry(Error, "API processing error: " + AbstractOpenRouter.Message(r.error)))
  {
  }

  /** `classifyImage` returns metadata exactly when the endpoint delivered a
      body that passes every check of `processResponse`, and then it is that
      decoded object; it lets an error escape exactly for an array content. */
  lemma ClassifyImageOutcome(apiKey: string, model: string, payload: string, imageName: string,
                             post: Client, decode: Decoder, encode: Json -> string)
    ensures var c := ClassifyImage(apiKey, model, payload, imageName, post, decode, encode);
      var reply := post(RequestFor(apiKey, model, payload, imageName));
      && (c.answer.Metadata? <==> reply.Delivered? && AbstractOpenRouter.ProcessResponse(reply.body, decode).Ok?)
      && (c.answer.Metadata? ==> c.answer.m == AbstractOpenRouter.ProcessResponse(reply.body, decode).value)
      && (c.answer.Escapes? <==>
            reply.Delivered? && AbstractOpenRouter.ProcessResponse(reply.body, decode) == Err(AbstractOpenRouter.ContentIsArray))
  {
    var reply := post(RequestFor(apiKey, model, payload, imageName));
    if reply.Delivered? {
      JudgeBodyOutcome(reply.body, decode, encode);
    }
  }

  /** The only error that leaves `classifyImage` is the `TypeError` of an
      array content. */
  lemma ClassifyImageEscapes(apiKey: string, model: string, payload: string, imageName: string,
                             post: Client, decode: Decoder, encode: Json -> string)
    ensures var c := ClassifyImage(apiKey, model, payload, imageName, post, decode, encode);
      c.answer.Escapes? ==> c.answer.error == AbstractOpenRouter.Message(AbstractOpenRouter.ContentIsArray)
  {
    var reply := post(RequestFor(apiKey, model, payload, imageName));
    if reply.Delivered? {
      JudgeBodyOutcome(reply.body, decode, encode);
    }
  }

  /** Every metadata `classifyImage` returns is a non-empty array with
      `description` and `tags` set, so `if ($result)` of its callers holds. */
  lemma MetadataIsTruthy(apiKey: string, model: string, payload: string, imageName: string,
                         post: Client, decode: Decoder, encode: Json -> string)
    requires ClassifyImage(apiKey, model, payload, imageName, post, decode, encode).answer.Metadata?
    ensures var m := ClassifyImage(apiKey, model, payload, imageName, post, decode, encode).answer.m;
      AbstractOpenRouter.IsMetadata(m) && IsTruthyArray(m)
  {
    ClassifyImageOutcome(apiKey, model, payload, imageName, post, decode, encode);
    var body := post(RequestFor(apiKey, model, payload, imageName)).body;
    AbstractOpenRouter.ProcessResponseCases(body, decode);
    IssetMakesTruthy(ClassifyImage(apiKey, model, payload, imageName, post, decode, encode).answer.m, "description");
  }

  /** A failed response check returns null with the reason as the last log
      entry, unless the content was an array. */
  lemma FailuresBecomeNull(apiKey: string, model: string, payload: string, imageName: string,
                           post: Client, decode: Decoder, encode: Json -> string)
    requires post(RequestFor(apiKey, model, payload, imageName)).Delivered?
    requires var body := post(RequestFor(apiKey, model, payload, imageName)).body;
      AbstractOpenRouter.ProcessResponse(body, decode).Err?
      && AbstractOpenRouter.IsException(AbstractOpenRouter.ProcessResponse(body, decode).error)
    ensures var c := ClassifyImage(apiKey, model, payload, imageName, post, decode, encode);
      var body := post(RequestFor(apiKey, model, payload, imageName)).body;
      c.answer == Null && |c.log| > 0
      && c.log[|c.log| - 1] == LogEntry(Error, "API processing error: "
           + AbstractOpenRouter.Message(AbstractOpenRouter.ProcessResponse(body, decode).error))
  {
    var body := post(RequestFor(apiKey, model, payload, imageName)).body;
    var j := JudgeBody(body, decode, encode);
    JudgeBodyOutcome(body, decode, encode);
    var c := ClassifyImage(apiKey, model, payload, imageName, post, decode, encode);
    assert c.log == MimeType(imageName).1 + j.log;
    assert c.log[|c.log| - 1] == j.log[|j.log| - 1];
  }
}
