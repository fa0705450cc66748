/** The command-line script (examples/process_photos.php): load the
    environment, read the arguments, print the help, build the configuration,
    then either describe one image and print its metadata as JSON, or run the
    batch over the input folder.

    The environment file, the processor and `json_encode` are parameters: the
    script sees the loaded environment (or the loader's error message), the
    answer of `processSingle` for a path, the way `run` ended, and the
    pretty-printed JSON of a metadata object. Log lines on stdout are not part
    of the output modelled here; QuietMode says when there are none. */
module Cli {
  import opened Wrappers
  import opened PhpStrings
  import opened Json
  import opened Config
  import OpenRouter
  import Processor
  import FileSystem

  datatype Options = Options(showLogs: bool, showHelp: bool, imagePath: Option<string>)

  /** An argument taken as the image path: not "-h" and not starting with
      "--" ("--log" and "--help" start with "--", so they are never paths). */
  predicate IsPathArg(a: string) {
    a != "-h" && !StartsWith(a, "--")
  }

  /** The last path argument, which is the one the loop keeps. */
  function LastPath(args: seq<string>): (r: Option<string>)
    ensures r.Some? ==> r.value in args && IsPathArg(r.value)
    ensures r.None? <==> forall k :: 0 <= k < |args| ==> !IsPathArg(args[k])
  {
    if |args| == 0 then None
    else if IsPathArg(args[|args| - 1]) then Some(args[|args| - 1])
    else LastPath(args[..|args| - 1])
  }

  /** No path argument follows the one LastPath picks. */
  lemma {:induction false} LastPathIsLast(args: seq<string>)
    requires LastPath(args).Some?
    ensures exists i :: 0 <= i < |args| && args[i] == LastPath(args).value
                        && forall j :: i < j < |args| ==> !IsPathArg(args[j])
    decreases |args|
  {
    var n := |args| - 1;
    if IsPathArg(args[n]) {
      assert args[n] == LastPath(args).value;
    } else {
      var init := args[..n];
      LastPathIsLast(init);
      var i :| 0 <= i < |init| && init[i] == LastPath(init).value
               && forall j :: i < j < |init| ==> !IsPathArg(init[j]);
      assert args[i] == LastPath(args).value;
      forall j | i < j < |args| ensures !IsPathArg(args[j]) {
        if j < n {
          assert args[j] == init[j];
        }
      }
    }
  }

  /** What the argument loop leaves: `--log` anywhere shows the logs, `--help`
      or `-h` anywhere asks for help, and the last path argument is the
      image. */
  function Parsed(args: seq<string>): Options {
    Options("--log" in args, "--help" in args || "-h" in args, LastPath(args))
  }

  /** The `foreach` over the arguments. */
  method ParseArgs(args: seq<string>) returns (opts: Options)
    ensures opts == Parsed(args)
  {
    opts := Options(false, false, None);
    var i := 0;
    while i < |args|
      invariant 0 <= i <= |args|
      invariant opts == Parsed(args[..i])
    {
      var arg := args[i];
      assert args[..i + 1] == args[..i] + [arg];
      assert args[..i + 1][..i] == args[..i];
      if arg == "--log" {
        opts := opts.(showLogs := true);
      } else if arg == "--help" || arg == "-h" {
        opts := opts.(showHelp := true);
      } else if !StartsWith(arg, "--") {
        opts := opts.(imagePath := Some(arg));
      }
      i := i + 1;
    }
    assert args[..i] == args;
  }

  /** Single-image mode without `--log`: the logger gets a null handler, so
      stdout carries only the result. */
  predicate QuietMode(opts: Options) {
    opts.imagePath.Some? && !opts.showLogs
  }

  const Usage: string :=
    "Photo Description Generator\n"
    + "Usage: php process_photos.php [options] [image_path]\n\n"
    + "Options:\n"
    + "  --log         Enable logging output (by default, logging is disabled for single image processing)\n"
    + "  --help, -h    Show this help message\n\n"
    + "Arguments:\n"
    + "  image_path    Optional. Path to a specific image file or URL to process.\n"
    + "                If not provided, all images in the input folder will be processed.\n"

  /** How the script ends: it prints and exits with a code, or an `\Error`
      nobody catches ends PHP (exit status 255). */
  datatype Outcome = Finished(stdout: string, code: nat) | Fatal(error: string)

  function ExitCode(o: Outcome): nat {
    match o
    case Finished(_, code) => code
    case Fatal(_) => 255
  }

  /** What the script depends on and the model does not: the environment after
      loading the `.env` file (or the loader's message), `processSingle` by
      path, the end of `run`, and `json_encode` with pretty printing. */
  datatype Runtime = Runtime(
    dotenv: Result<map<string, string>, string>,
    single: string -> OpenRouter.Answer,
    batch: Option<Processor.Stop>,
    pretty: Json -> string)

  function Failure(message: string): Outcome {
    Finished("Error: " + message + "\n", 1)
  }

  /** The script: every `\Exception` becomes "Error: ..." and exit 1. */
  function Script(args: seq<string>, rt: Runtime): Outcome {
    match rt.dotenv
    case Err(message) => Failure(message)
    case Ok(env) =>
      var opts := Parsed(args);
      if opts.showHelp then Finished(Usage, 0)
      else
        var config := ConfigFromEnv(env);
        match Validate(config)
        case Err(message) => Failure(message)
        case Ok(_) =>
          match opts.imagePath
          case Some(path) =>
            (match rt.single(path)
             case Metadata(m) =>
               if IsTruthyArray(m) then Finished(rt.pretty(m) + "\n", 0)
               else Finished("Error: Failed to process image.\n", 1)
             case Null => Finished("Error: Failed to process image.\n", 1)
             case Escapes(error) => Fatal(error))
          case None =>
            (match rt.batch
             case None => Finished("", 0)
             case Some(stop) => if stop.isException then Failure(stop.message) else Fatal(stop.message))
  }

  /** The exit status is 0 exactly when the environment loaded and either help
      was asked for, or the configuration is valid and the single image gave
      a non-empty metadata array or the batch ran to its end. */
  lemma ExitCodeZero(args: seq<string>, rt: Runtime)
    ensures ExitCode(Script(args, rt)) == 0 <==>
      rt.dotenv.Ok?
      && (Parsed(args).showHelp
          || (Validate(ConfigFromEnv(rt.dotenv.value)).Ok?
              && (if Parsed(args).imagePath.Some?
                  then rt.single(Parsed(args).imagePath.value).Metadata?
                       && IsTruthyArray(rt.single(Parsed(args).imagePath.value).m)
                  else rt.batch.None?)))
  {
  }

  /** The environment is loaded before the arguments are read: a missing
      `.env` file fails even `--help`. */
  lemma DotenvFailsBeforeHelp(args: seq<string>, rt: Runtime)
    requires rt.dotenv.Err? && "--help" in args
    ensures Script(args, rt) == Finished("Error: " + rt.dotenv.error + "\n", 1)
  {
  }

  /** Help wins over everything after it, the key check included. */
  lemma HelpIgnoresConfiguration(args: seq<string>, rt: Runtime)
    requires rt.dotenv.Ok? && ("-h" in args || "--help" in args)
    ensures Script(args, rt) == Finished(Usage, 0)
  {
  }

  /** Without an API key nothing is processed: the script reports the key and
      exits 1, whatever the arguments other than help. */
  lemma MissingKeyStops(args: seq<string>, rt: Runtime)
    requires rt.dotenv.Ok? && "OPENROUTER_API_KEY" !in rt.dotenv.value
    requires "-h" !in args && "--help" !in args
    ensures Script(args, rt) == Failure(MissingKey)
  {
    EnvironmentDefaults(rt.dotenv.value);
    assert Validate(ConfigFromEnv(rt.dotenv.value)) == Err(MissingKey);
  }

  /** In quiet mode a described image prints exactly its JSON and one newline
      and exits 0: the clean output the quiet mode exists for. An empty
      metadata array is falsy in PHP and prints the generic failure. */
  lemma QuietSingleImagePrintsOnlyJson(args: seq<string>, rt: Runtime)
    requires rt.dotenv.Ok? && Validate(ConfigFromEnv(rt.dotenv.value)).Ok?
    requires !Parsed(args).showHelp && QuietMode(Parsed(args))
    requires rt.single(Parsed(args).imagePath.value).Metadata?
    ensures var m := rt.single(Parsed(args).imagePath.value).m;
      Script(args, rt) ==
        if IsTruthyArray(m) then Finished(rt.pretty(m) + "\n", 0)
        else Finished("Error: Failed to process image.\n", 1)
  {
  }

  /** A local image that does not exist: the script prints the generic
      failure and exits 1, and the endpoint is never asked. */
  lemma MissingLocalImageExitsOne(args: seq<string>, rt: Runtime, files: map<string, FileSystem.FileEntry>,
                                  dirs: set<string>, fetcher: Processor.Fetcher, classify: Processor.Classifier)
    requires rt.dotenv.Ok? && Validate(ConfigFromEnv(rt.dotenv.value)).Ok?
    requires !Parsed(args).showHelp && Parsed(args).imagePath.Some?
    requires var path := Parsed(args).imagePath.value;
      && !fetcher.isUrl(path) && path !in files && path !in dirs
      && rt.single(path) == Processor.ProcessSingle(files, dirs, path, fetcher, classify).answer
    ensures Script(args, rt) == Finished("Error: Failed to process image.\n", 1)
  {
    var path := Parsed(args).imagePath.value;
    Processor.MissingFileIsNeverClassified(files, dirs, path, fetcher, classify, classify);
  }

  /** A batch stopped by an `\Exception` (an unsupported large file, say)
      prints its message and exits 1; one stopped by an `\Error` ends PHP with
      255. */
  lemma BatchStopExitCodes(args: seq<string>, rt: Runtime)
    requires rt.dotenv.Ok? && Validate(ConfigFromEnv(rt.dotenv.value)).Ok?
    requires !Parsed(args).showHelp && Parsed(args).imagePath.None?
    requires rt.batch.Some?
    ensures rt.batch.value.isException ==> Script(args, rt) == Failure(rt.batch.value.message)
    ensures !rt.batch.value.isException <==> ExitCode(Script(args, rt)) == 255
  {
  }
}
