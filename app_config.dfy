/** The application configuration (AppConfig): the two folders, the API key,
    the log level, the supported extensions and the model name, with the
    defaults of its constructor and the one check `validate` makes. The
    getters return the fields unchanged, so they are the fields of the
    datatype. */
module Config {
  import opened Wrappers
  import opened PhpStrings
  import opened ImageFormats

  datatype AppConfig = AppConfig(
    inputFolder: string,
    outputFolder: string,
    apiKey: string,
    logLevel: string,
    supportedExtensions: seq<string>,
    aiModel: string)

  const DefaultLogLevel: string := "info"
  const DefaultExtensions: seq<string> := ["jpg", "jpeg", "png", "gif", "webp"]
  const DefaultModel: string := "anthropic/claude-3-opus:beta"
  const MissingKey: string := "OPENROUTER_API_KEY is not set in configuration"

  /** The constructor; an omitted optional argument (None) takes its
      default. */
  function NewAppConfig(inputFolder: string, outputFolder: string, apiKey: string,
                        logLevel: Option<string>, supportedExtensions: Option<seq<string>>,
                        aiModel: Option<string>): (c: AppConfig)
    ensures c.inputFolder == inputFolder && c.outputFolder == outputFolder && c.apiKey == apiKey
    ensures logLevel.Some? ==> c.logLevel == logLevel.value
    ensures logLevel.None? ==> c.logLevel == "info"
    ensures supportedExtensions.Some? ==> c.supportedExtensions == supportedExtensions.value
    ensures supportedExtensions.None? ==> c.supportedExtensions == ["jpg", "jpeg", "png", "gif", "webp"]
    ensures aiModel.Some? ==> c.aiModel == aiModel.value
    ensures aiModel.None? ==> c.aiModel == "anthropic/claude-3-opus:beta"
  {
    AppConfig(inputFolder, outputFolder, apiKey,
              if logLevel.Some? then logLevel.value else DefaultLogLevel,
              if supportedExtensions.Some? then supportedExtensions.value else DefaultExtensions,
              if aiModel.Some? then aiModel.value else DefaultModel)
  }

  /** `validate`: PHP's `empty` on the key, so "" and "0" are refused alike,
      with the one message the script prints. */
  function Validate(c: AppConfig): (r: Result<(), string>)
    ensures r.Err? <==> c.apiKey == "" || c.apiKey == "0"
    ensures r.Err? ==> r.error == "OPENROUTER_API_KEY is not set in configuration"
  {
    if IsPhpEmpty(c.apiKey) then Err(MissingKey) else Ok(())
  }

  /** Every default extension names a format the image code can shrink, and
      none has an upper-case letter, so each can match the lower-cased
      extension of a file. */
  lemma DefaultExtensionsAreKnownFormats()
    ensures forall k :: 0 <= k < |DefaultExtensions| ==> FormatOf(DefaultExtensions[k]).Some?
    ensures forall k, i :: 0 <= k < |DefaultExtensions| && 0 <= i < |DefaultExtensions[k]| ==>
      !IsUpper(DefaultExtensions[k][i])
  {
    forall k | 0 <= k < |DefaultExtensions| ensures FormatOf(DefaultExtensions[k]).Some? {
      var e := DefaultExtensions[k];
      assert e == "jpg" || e == "jpeg" || e == "png" || e == "gif" || e == "webp";
    }
  }

  // ---------------------------------------------------------------------------
  // Reading the environment

  /** `$_ENV[name] ?? fallback`. */
  function EnvOr(env: map<string, string>, name: string, fallback: string): (v: string)
    ensures name !in env ==> v == fallback
    ensures name in env ==> v == env[name]
  {
    if name in env then env[name] else fallback
  }

  /** How the container builds the configuration from the environment: each
      variable falls back to its default when unset, and the extension list
      is always the default one. */
  function ConfigFromEnv(env: map<string, string>): AppConfig {
    NewAppConfig(EnvOr(env, "INPUT_FOLDER", "input_photos"),
                 EnvOr(env, "OUTPUT_FOLDER", "output"),
                 EnvOr(env, "OPENROUTER_API_KEY", ""),
                 Some(EnvOr(env, "LOG_LEVEL", DefaultLogLevel)),
                 Some(DefaultExtensions),
                 Some(EnvOr(env, "AI_MODEL", DefaultModel)))
  }

  /** An empty environment gives the documented defaults and fails
      validation; the configuration is valid exactly when the key is set to
      something other than "" or "0". */
  lemma EnvironmentDefaults(env: map<string, string>)
    ensures var c := ConfigFromEnv(env);
      && ("INPUT_FOLDER" !in env ==> c.inputFolder == "input_photos")
      && ("OUTPUT_FOLDER" !in env ==> c.outputFolder == "output")
      && ("LOG_LEVEL" !in env ==> c.logLevel == "info")
      && ("AI_MODEL" !in env ==> c.aiModel == "anthropic/claude-3-opus:beta")
      && c.supportedExtensions == ["jpg", "jpeg", "png", "gif", "webp"]
    ensures Validate(ConfigFromEnv(env)).Ok? <==>
      "OPENROUTER_API_KEY" in env && env["OPENROUTER_API_KEY"] != "" && env["OPENROUTER_API_KEY"] != "0"
  {
  }
}
