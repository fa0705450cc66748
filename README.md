# photo-desc in Dafny

A model of photo-desc, a PHP tool that describes photos with a vision model
behind the OpenRouter chat-completions endpoint. The tool lists the images
of an input folder and skips those whose metadata file is up to date. It
shrinks any image over 5 MiB with GD and sends the rest as base64 data URLs.
It pulls a `{"description", "tags"}` JSON object out of the model's reply and
writes one JSON file per image into the output folder. The command-line
script does the same for a single local file or URL and prints the JSON.

The model is split into modules that follow the PHP classes:

| module | file | models |
|---|---|---|
| `PhpStrings` | php_strings.dfy | `strtolower`, `trim`, PCRE `\s`, `basename`, `pathinfo`, `empty` on strings, integer interpolation |
| `Base64` | base64.dfy | `base64_encode` (section 4 of RFC 4648) and a decoder as its partner |
| `Json` | json.dfy | a decoded JSON value seen as a PHP array: `isset`, `is_array`, `empty`, truthiness |
| `ImageFormats` | formats.dfy | the extension table both services switch on |
| `AbstractOpenRouter` | abstract_open_router.dfy | `createRequestBody`, `processResponse` (with both regular expressions), `getMimeType` with its octet-stream fallback |
| `OpenRouter` | open_router.dfy | `classifyImage` of OpenRouterService (every error turns into null and a log entry) and its `getMimeType` with the JPEG fallback and warning |
| `Logging` | logging.dfy | the shared logger, as a class whose entries grow |
| `FileSystem` | file_system.dfy | FileSystemService as a class over a `Disk` object (files with modification times, directories, a clock): `initializeFolders`, the `getImagesList` loop, `isImageProcessed`, `saveMetadata`, and the decisions of `readImageToBase64` |
| `Processor` | photo_processor.dfy | PhotoProcessor as a class: the `run` loop, proved against a fold over the image list, and `processSingle` with `processImageFile` and `processImageUrl` |
| `Config` | app_config.dfy | AppConfig: its defaults, `validate`, and how the container reads it from the environment |
| `Cli` | cli.dfy | examples/process_photos.php: the argument loop, help, quiet mode, the output and the exit status |

Everything the code only calls is a parameter:
- the HTTP client;
- `json_decode`, and `json_encode` as the log and the metadata file use it;
- the GD functions;
- curl and `filter_var`/`parse_url`;
- the loaded environment.

PhotoProcessor receives OpenRouterService's `classifyImage` as a function, as
its constructor receives the service. `Processor.Wired` says that this
function is `OpenRouter.ClassifyImage` for a given key, model, client and
codec.

`run` records every service call it makes, so the order and the number of
calls can be stated. PHP errors that are `\Error`s rather than
`\Exception`s are modelled as such:
- the `TypeError` of an array-valued message content in `preg_match`;
- the `ValueError` of a zero-sized canvas;
- the `TypeError` of a failed reload in the second compression pass.

None of these is caught by the tool. They stop `run` and end the script with
status 255.

## Model

| member | source | states |
|---|---|---|
| PhpStrings.ToLower | src/Service/FileSystemService.php:75 | `strtolower` keeps the length, maps each ASCII upper-case letter to its lower-case letter (code + 32), and changes no other character |
| PhpStrings.Trim | src/Service/AbstractOpenRouterService.php:111 | `trim` returns a contiguous slice that starts and ends with a non-trim character; everything cut off is space, tab, LF, CR, NUL or VT |
| PhpStrings.IndexOf | src/Service/AbstractOpenRouterService.php:102 | the search finds the first occurrence at or after the start, and None means there is none |
| PhpStrings.Basename | src/PhotoProcessor.php:122 | `basename` has no slash, and a path without a slash is its own basename |
| PhpStrings.BasenameIsLastSegment | src/PhotoProcessor.php:122 | `basename` is what follows the last slash once trailing slashes are dropped: a suffix of that path preceded by a slash, or the whole of it when it has no slash |
| PhpStrings.LowerExtension | src/Service/FileSystemService.php:96 | the key is `strtolower` of the `PATHINFO_EXTENSION`, so it has no dot, no slash and no upper-case letter |
| PhpStrings.FilenameDropsExtension | src/Service/FileSystemService.php:227 | for `stem.ext`, `PATHINFO_FILENAME` is `stem` and `PATHINFO_EXTENSION` is `ext` |
| PhpStrings.FilenameExtensionSplit | src/Service/FileSystemService.php:227 | filename, dot and extension put back together give the basename; without a dot the extension is empty and the filename is the basename |
| Base64.Encode | src/Service/FileSystemService.php:106 | `base64_encode` of n bytes has 4·⌈n/3⌉ characters |
| Base64.RoundTrip | src/Service/FileSystemService.php:105-106 | decoding what `base64_encode` produced gives back exactly the input bytes |
| Base64.TripleRoundTrip | src/Service/FileSystemService.php:106 | a full group of three bytes decodes back from its four characters |
| Base64.ValueOfLetter | src/Service/FileSystemService.php:106 | the alphabet is decoded back to the six-bit values it encodes |
| Json.Lookup | src/Service/AbstractOpenRouterService.php:119 | a key is found exactly when a member has it, and the value found is that of the last member with the key, as when PHP decodes duplicate keys |
| Json.IssetMakesTruthy | src/PhotoProcessor.php:66 | an array with a member that `isset` sees passes `if ($result)` |
| ImageFormats.FormatOf | src/Service/FileSystemService.php:118-134 | jpg and jpeg are JPEG, png, gif and webp their own format, anything else is none |
| ImageFormats.MimeOfInjective | src/Service/AbstractOpenRouterService.php:137-146 | distinct formats have distinct MIME types |
| AbstractOpenRouter.MimeType | src/Service/AbstractOpenRouterService.php:133-150 | a known extension gives its format's MIME type; `application/octet-stream` exactly for any other |
| AbstractOpenRouter.DataUrlRoundTrip | src/Service/AbstractOpenRouterService.php:55 | the data URL splits back into the MIME type and the base64 payload it was built from |
| AbstractOpenRouter.RequestBodyContents | src/Service/AbstractOpenRouterService.php:40-64 | the request body carries the model, `max_tokens` 1500, `temperature` 0.1, and a data URL holding the image's MIME type and the payload unchanged |
| AbstractOpenRouter.RequestBodyImage | src/Service/AbstractOpenRouterService.php:52-57 | messages[0].content[1].image_url.url is the data URL |
| AbstractOpenRouter.CreateRequestBody | src/Service/AbstractOpenRouterService.php:40-64 | builds the request body; what it carries is stated by RequestBodyContents |
| AbstractOpenRouter.FencedBlock | src/Service/AbstractOpenRouterService.php:102-104 | the fence pattern matches exactly when a "```json" is followed by a closing "```"; the match takes the first opening fence and the first closing fence after it, and the group drops only the `\s` next to the fences |
| AbstractOpenRouter.BraceSpan | src/Service/AbstractOpenRouterService.php:105-107 | the greedy `{.*}` matches exactly when a `{` precedes a `}`, from the first `{` to the last `}` |
| AbstractOpenRouter.SelectJsonText | src/Service/AbstractOpenRouterService.php:100-108 | the fenced group if the fence pattern matches, else the brace span if that matches, else the content; stated by FencedBlockWins, EmbeddedObjectIsFound and NoBacktickNoFence |
| AbstractOpenRouter.FencedBlockWins | src/Service/AbstractOpenRouterService.php:102-108 | an object inside a json fence is the text selected, whatever follows the fence and whatever precedes it short of a backtick |
| AbstractOpenRouter.NoBacktickNoFence | src/Service/AbstractOpenRouterService.php:102 | content without a backtick never matches the fence pattern |
| AbstractOpenRouter.EmbeddedObjectIsFound | src/Service/AbstractOpenRouterService.php:105-107 | an object with prose around it (no braces in the prose) is the text selected |
| AbstractOpenRouter.ContentText | src/Service/AbstractOpenRouterService.php:97-102 | the content has a string form exactly when it is not an array and not null, and a string is its own form |
| AbstractOpenRouter.ExtractFromContent | src/Service/AbstractOpenRouterService.php:110-124 | the content checks of `processResponse`; their outcomes are stated by ExtractFromContentCases |
| AbstractOpenRouter.ExtractFromContentCases | src/Service/AbstractOpenRouterService.php:110-124 | the selected, trimmed text gives metadata exactly when it decodes to an array with `description` and `tags` set, and then it is that array; "Could not parse JSON" exactly when it does not decode to an array; "required fields" exactly when it is an array missing one of the two |
| AbstractOpenRouter.ProcessResponse | src/Service/AbstractOpenRouterService.php:73-125 | `processResponse` as a result or one of its exceptions; each outcome is characterised by ProcessResponseCases |
| AbstractOpenRouter.ProcessResponseCases | src/Service/AbstractOpenRouterService.php:73-125 | each of the five exceptions of `processResponse` is raised exactly under its condition, the two content exceptions told apart by how the selected text decodes; an array content raises the `TypeError`; a result is always metadata |
| AbstractOpenRouter.ReplyIsJudgedByContent | src/Service/AbstractOpenRouterService.php:88-101 | a well-formed reply is judged by its message content alone |
| AbstractOpenRouter.SameObjectThreeWays | src/Service/AbstractOpenRouterService.php:100-111 | an object sent bare, inside a json fence, or with prose around it gives the same result |
| OpenRouter.MimeType | src/Service/OpenRouterService.php:153-172 | a known extension gives its MIME type with no log entry; any other gives `image/jpeg` and one warning naming the extension |
| OpenRouter.MimeTypesAgreeOnKnownFormats | src/Service/OpenRouterService.php:157-171 | the two `getMimeType`s agree exactly on the known formats; otherwise one says JPEG and the other octet-stream |
| OpenRouter.RequestMatchesBaseClass | src/Service/OpenRouterService.php:45-75 | the request goes to the chat-completions URL with the key as bearer token, and for a known format its body is the base class's `createRequestBody` |
| OpenRouter.ResponseErrorLog | src/Service/OpenRouterService.php:116-124 | the error entry logged just before a content exception; stated by ClassifyImageLog |
| OpenRouter.JudgeBody | src/Service/OpenRouterService.php:77-127 | a delivered body judged by the response checks; stated by JudgeBodyOutcome |
| OpenRouter.ClassifyImage | src/Service/OpenRouterService.php:42-145 | `classifyImage` with every caught failure turned into null; stated by ClassifyImageOutcome, ClassifyImageLog and ClassifyImageEscapes |
| OpenRouter.ClassifyImageLog | src/Service/OpenRouterService.php:129-144 | the log of each kind of reply: the MIME warning first, then the request error and the error response body, or the processing error |
| OpenRouter.JudgeBodyOutcome | src/Service/OpenRouterService.php:77-127 | a delivered body gives metadata exactly when `processResponse` succeeds, escapes exactly for an array content, and otherwise is null with "API processing error: ..." last in the log |
| OpenRouter.ClassifyImageOutcome | src/Service/OpenRouterService.php:42-145 | `classifyImage` returns metadata exactly when the reply was delivered and passes every check, and it is the decoded object |
| OpenRouter.ClassifyImageEscapes | src/Service/OpenRouterService.php:105 | the only error that leaves `classifyImage` is the `TypeError` of an array content |
| OpenRouter.MetadataIsTruthy | src/Service/OpenRouterService.php:116-127 | every metadata returned has `description` and `tags` set and is a non-empty array |
| OpenRouter.FailuresBecomeNull | src/Service/OpenRouterService.php:140-144 | a failed response check returns null with the exception message last in the log |
| FileSystem.Disk.PutContents | src/Service/FileSystemService.php:259-262 | a write succeeds exactly for a writable path, stores the data stamped with the current time, and changes nothing else |
| FileSystem.FileSystemService.InitializeFolders | src/Service/FileSystemService.php:43-57 | each folder that did not exist is created; no file changes |
| FileSystem.FileSystemService.MetadataPath | src/Service/FileSystemService.php:226-228 | the `<out>/<filename>.json` path; that both `isImageProcessed` and `saveMetadata` use it is stated by SharedMetadataFile and SaveMakesProcessed |
| FileSystem.FileSystemService.Images | src/Service/FileSystemService.php:70-78 | the listing filtered by IsImage; stated by ImagesMembership and ImagesAreSubsequence |
| FileSystem.FileSystemService.GetImagesList | src/Service/FileSystemService.php:64-84 | the loop returns exactly the images of the listing, in listing order |
| FileSystem.FileSystemService.ImagesMembership | src/Service/FileSystemService.php:70-78 | a file is listed exactly when the listing has it, it is not `.` or `..`, and its lower-cased extension is supported |
| FileSystem.FileSystemService.ImagesAreSubsequence | src/Service/FileSystemService.php:70-78 | the images keep the order of the listing |
| FileSystem.FileSystemService.UpperCaseExtensionNeverMatches | src/Service/FileSystemService.php:75-76 | a configured extension with an upper-case letter matches no file |
| FileSystem.FileSystemService.Processed | src/Service/FileSystemService.php:224-245 | `isImageProcessed`; stated by SaveMakesProcessed and ProcessedSurvivesWrite |
| FileSystem.FileSystemService.SaveMakesProcessed | src/Service/FileSystemService.php:224-245 | writing an image's metadata file no earlier than the image makes the image processed |
| FileSystem.FileSystemService.ProcessedSurvivesWrite | src/Service/FileSystemService.php:224-245 | writing any file other than the image, at the current time, keeps a processed image processed |
| FileSystem.FileSystemService.SaveMetadata | src/Service/FileSystemService.php:254-271 | the metadata file is written exactly when writable; a failed write logs "Failed to save metadata for ..." |
| FileSystem.Shrink | src/Service/FileSystemService.php:140-215 | the resize and recompression of an oversized image; its outcomes are stated by ShrinkCases |
| FileSystem.ShrinkCases | src/Service/FileSystemService.php:140-215 | a zero width or height after scaling throws the canvas `ValueError`; PNG, GIF and a first save within budget return the first save; an over-budget JPEG or WebP is reloaded and saved again at quality 50, and a failed reload throws the `TypeError` |
| FileSystem.FileSystemService.ReadImage | src/Service/FileSystemService.php:93-138 | `readImageToBase64`; stated by ReadImageErrors, LargeImageIsShrunk and SmallImageIsSentUnchanged |
| FileSystem.FileSystemService.ReadImageErrors | src/Service/FileSystemService.php:93-138 | a file within 5 MiB (or missing) is encoded as read; each exception of an oversized file is raised exactly under its condition |
| FileSystem.FileSystemService.LargeImageIsShrunk | src/Service/FileSystemService.php:109-215 | an oversized image that loads is sent as its shrunk bytes, and only if shrinking succeeds |
| FileSystem.FileSystemService.SmallImageIsSentUnchanged | src/Service/FileSystemService.php:98-107 | an image within 5 MiB decodes back to exactly its bytes |
| Processor.Visit | src/PhotoProcessor.php:52-74 | one pass of the `foreach` body on a value of the world; stated by VisitSkips, VisitReadFails, VisitClassifies and VisitEffect |
| Processor.Concluded | src/PhotoProcessor.php:66-74 | the end of a visit; stated by ConcludedEffect |
| Processor.Steps | src/PhotoProcessor.php:51-75 | the fold of visits over the list that VisitAll is proved against; stated by StopIsFinal and CompletedRunAccountsForEveryImage |
| Processor.VisitSkips | src/PhotoProcessor.php:53-56 | a processed image is only asked about |
| Processor.VisitReadFails | src/PhotoProcessor.php:58-61 | an error from the read stops the loop with that error, before any classification |
| Processor.VisitClassifies | src/PhotoProcessor.php:58-75 | a read image is classified under its own name; an escaping error stops the loop; otherwise the visit saves or logs, then sleeps |
| Processor.ConcludedEffect | src/PhotoProcessor.php:66-74 | the end of a visit advances the clock one second, only appends to the log and the calls, and writes at most the image's metadata file |
| Processor.VisitEffect | src/PhotoProcessor.php:51-75 | one visit writes at most the image's metadata file, stamped now, advances the clock at most one second, and only appends to the log and the calls |
| Processor.StopIsFinal | src/PhotoProcessor.php:51-75 | once an error leaves the loop, later images change nothing |
| Processor.PhotoProcessor.constructor | src/PhotoProcessor.php:25-33 | the processor keeps the services and the logger it is given |
| Processor.PhotoProcessor.VisitImage | src/PhotoProcessor.php:52-74 | the loop body leaves the disk, the log and the calls as Visit says |
| Processor.PhotoProcessor.Conclude | src/PhotoProcessor.php:66-74 | truthy metadata is saved, anything else logs "Failed to process ..."; then one second passes |
| Processor.PhotoProcessor.Run | src/PhotoProcessor.php:40-78 | `run` creates the missing folders, lists once, and ends where the fold of visits over the listed images ends |
| Processor.PhotoProcessor.VisitAll | src/PhotoProcessor.php:51-75 | the `foreach` ends in the state the fold of visits gives, stopping at the first error that leaves it |
| Processor.RerunChangesNothing | src/PhotoProcessor.php:51-56 | a run over processed images only asks: no read, no classification, no write, no log entry, no sleep |
| Processor.WiredMetadataIsSaved | src/PhotoProcessor.php:64-70 | metadata from the wired service always reaches `saveMetadata` and is never logged as a failure |
| Processor.VisitPreserves | src/PhotoProcessor.php:51-75 | a visit keeps every file stamp behind the clock, touches no file but the image's metadata file, and keeps other processed images processed |
| Processor.VisitAccountsForImage | src/PhotoProcessor.php:58-74 | after a visit that does not stop the loop, the image is processed or the log says why not |
| Processor.CompletedRunAccountsForEveryImage | src/PhotoProcessor.php:40-78 | a run that completes leaves every listed image processed or reported as failed in the log |
| Processor.OneProcessedOneNot | src/PhotoProcessor.php:51-75 | with one processed image and one that fails, the calls are exactly ask, ask, read, classify, sleep, and the failure is logged last |
| Processor.SharedMetadataFile | src/PhotoProcessor.php:51-68 | `a.jpg` and `a.png` share one metadata file, so once the first is saved the second is skipped |
| Processor.UrlFilename | src/PhotoProcessor.php:155-156 | the name of a URL's image has no slash; it is the basename of the URL's path, or `image.jpg` when the URL has no path or a PHP-falsy one |
| Processor.RootPathHasNoName | src/PhotoProcessor.php:155-156 | a URL whose path is `/` gives an empty image name |
| Processor.ProcessImageFile | src/PhotoProcessor.php:110-123 | a path that exists neither as file nor as directory is exactly the "File not found" exception |
| Processor.ProcessImageUrl | src/PhotoProcessor.php:132-163 | a fetch that fails or answers with a status of 400 or more is exactly the "Unable to access URL" exception |
| Processor.ProcessSingle | src/PhotoProcessor.php:86-101 | `processSingle`; stated by MissingFileIsNeverClassified, LocalFileIsSentRaw, UnreachableUrlIsNull, FetchedImageIsSentRaw and OnlyTypeErrorEscapesSingle |
| Processor.MissingFileIsNeverClassified | src/PhotoProcessor.php:110-115 | a missing local file gives null with "Error processing image: File not found: ...", whatever the service would answer |
| Processor.LocalFileIsSentRaw | src/PhotoProcessor.php:110-123 | a local file is sent whole, even over 5 MiB, under its basename |
| Processor.UnreachableUrlIsNull | src/PhotoProcessor.php:145-152 | a failed fetch or an HTTP status of 400 or more gives null with the curl error or the status, whatever the service would answer |
| Processor.FetchedImageIsSentRaw | src/PhotoProcessor.php:154-162 | a fetched image is sent whole under the name its URL path gives |
| Processor.OnlyTypeErrorEscapesSingle | src/PhotoProcessor.php:86-101 | every `\Exception` is caught; only the array-content `TypeError` leaves `processSingle` |
| Processor.SingleMetadataIsTruthy | src/PhotoProcessor.php:86-101 | with the real service, metadata from `processSingle` is a non-empty array, so the script's `if ($result)` passes |
| Config.NewAppConfig | src/Config/AppConfig.php:27-41 | the folders and key are kept; an omitted log level, extension list or model takes its default |
| Config.Validate | src/Config/AppConfig.php:108-113 | validation fails exactly for the key "" or "0", with the one message |
| Config.DefaultExtensionsAreKnownFormats | src/Config/AppConfig.php:32 | every default extension is a format the resizer knows and is lower-case |
| Config.EnvOr | src/Container.php:36-40 | a variable that is set gives its value; one that is unset gives the fallback |
| Config.ConfigFromEnv | src/Container.php:35-53 | the configuration the container builds from the environment; stated by EnvironmentDefaults |
| Config.EnvironmentDefaults | src/Container.php:35-53 | unset variables give the documented defaults; the configuration is valid exactly when the key is set to something other than "" or "0" |
| Cli.LastPath | examples/process_photos.php:37-45 | the image path is a path argument of the list, and there is none exactly when no argument is a path |
| Cli.LastPathIsLast | examples/process_photos.php:37-45 | no path argument comes after the one kept |
| Cli.Parsed | examples/process_photos.php:37-45 | the options the argument loop leaves; ParseArgs is proved against it, and LastPath states its image path |
| Cli.ParseArgs | examples/process_photos.php:37-45 | the loop sets `--log` and help when they occur anywhere, and keeps the last path argument |
| Cli.Script | examples/process_photos.php:26-90 | the whole script as output and exit status; stated by ExitCodeZero and the lemmas below |
| Cli.ExitCodeZero | examples/process_photos.php:26-90 | the status is 0 exactly when the environment loaded and either help was asked for, or the key is valid and the image gave a non-empty metadata array or the batch ran to its end |
| Cli.DotenvFailsBeforeHelp | examples/process_photos.php:28-58 | a missing `.env` file fails even `--help`, with exit 1 |
| Cli.HelpIgnoresConfiguration | examples/process_photos.php:48-58 | help prints the usage and exits 0 whatever the configuration |
| Cli.MissingKeyStops | examples/process_photos.php:64-89 | without a key the script prints the validation message and exits 1 |
| Cli.QuietSingleImagePrintsOnlyJson | examples/process_photos.php:61-81 | in quiet mode non-empty metadata prints exactly its JSON and a newline and exits 0; an empty array fails the `if ($result)` test and exits 1 |
| Cli.MissingLocalImageExitsOne | examples/process_photos.php:71-81 | a local image that does not exist prints the generic failure and exits 1 |
| Cli.BatchStopExitCodes | examples/process_photos.php:82-90 | a batch stopped by an `\Exception` prints it and exits 1; one stopped by an `\Error` exits 255 |

## Left out

- Info and debug log lines: they carry no decision. The model logs only warnings and errors.
- HTTP transport: Guzzle, the headers other than the bearer token, and timeouts. The client is a function from request to reply. It is deterministic, so a retried request gets the same answer.
- `json_decode` and `json_encode`: these are parameters. JSON numbers are kept as their text, so PHP's number coercion is approximated by that text.
- GD pixel work: loading, resampling and saving are parameters.
- FileSystem.Scaled: `(int)($d * 0.7)` is computed as `d * 7 / 10` in exact arithmetic. The double product is one lower for some multiples of 10 (90 gives 62 in PHP, 63 here), so the canvas size can differ by one pixel; both are zero exactly for `d <= 1`, so the canvas errors are the same.
- FileSystem.FileSystemService.ReadImage: the temporary file of the resize and its removal are not modelled; only the bytes read back are.
- FileSystem.FileSystemService.Processed: a directory at the metadata path counts as missing. PHP's `file_exists` accepts a directory and `filemtime` then reads its time; directories carry no times in the model.
- `scandir`: the listing is a parameter, and a failing `scandir` is not modelled.
- `mkdir` failures and permissions other than a read-only set of paths are not modelled.
- FileSystem.FileSystemService.GetImagesList: `in_array` is modelled as strict comparison. With string extensions on both sides, PHP's loose comparison differs only for numeric strings such as "1e1" and "10".
- Processor.PhotoProcessor.Run: `sleep(1)` advances the model clock by one second; wall-clock time and rate limiting are not modelled.
- Processor.ProcessSingle: `filter_var`, curl and `parse_url` are parameters, and the curl options are not modelled.
- src/Container.php:110-121 builds OpenRouterService with six arguments, but its constructor takes a client, a logger, a key and a model, so PHP would raise a `TypeError` there. The model assumes the service wired as its constructor expects (`Processor.Wired`) and does not model the container otherwise.
- Cli.Script: the text PHP prints for an uncaught `\Error` is not modelled, only its exit status 255. The log lines that share stdout with the JSON outside quiet mode are not modelled.
- Config: the getters of AppConfig return the fields unchanged and are the fields of the datatype. The log level only configures Monolog and is not used.
- AsyncPhotoProcessor, AsyncOpenRouterService and their script are not part of this model.
