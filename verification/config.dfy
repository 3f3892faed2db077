/** Configuration defaults, the field-by-field merge with a YAML file, the
    OUTPUT_DIR override, the duration fallbacks and the report file name. */
module Settings {
  import opened Wrappers

  /** The settings of one run. Durations are kept as the unparsed text the
      file supplied, as in the program. */
  datatype Config = Config(
    outputDir: string,
    concurrency: int,
    requestTimeout: string,
    retryDelay: string,
    maxRetries: int,
    prefixes: seq<string>,
    apiKeys: seq<string>)

  /** Durations are counted in nanoseconds, the unit of Go's time.Duration. */
  const Millisecond: int := 1_000_000
  const Second: int := 1_000 * Millisecond

  /** A configuration the worker pool and the retry loop can run with. */
  predicate Runnable(c: Config)
  {
    c.concurrency > 0 && c.maxRetries > 0
  }

  /** The settings used when no configuration file overrides them. */
  function DefaultConfig(): (c: Config)
    ensures Runnable(c)
    ensures c.outputDir != "" && c.requestTimeout != "" && c.retryDelay != ""
    ensures c.prefixes == [] && c.apiKeys == []
  {
    Config(".", 20, "20s", "50ms", 3, [], [])
  }

  /** The configuration a YAML document decodes to when it sets nothing:
      every field at Go's zero value. */
  function ZeroConfig(): Config
  {
    Config("", 0, "", "", 0, [], [])
  }

  /** Overlays a decoded YAML document on `base`: text and list fields are taken
      only when non-empty, integer fields only when positive. */
  function Overlay(base: Config, yaml: Config): (c: Config)
    ensures Runnable(base) ==> Runnable(c)
    ensures yaml == ZeroConfig() ==> c == base
  {
    base.(
      outputDir := if yaml.outputDir != "" then yaml.outputDir else base.outputDir,
      concurrency := if yaml.concurrency > 0 then yaml.concurrency else base.concurrency,
      requestTimeout := if yaml.requestTimeout != "" then yaml.requestTimeout else base.requestTimeout,
      retryDelay := if yaml.retryDelay != "" then yaml.retryDelay else base.retryDelay,
      maxRetries := if yaml.maxRetries > 0 then yaml.maxRetries else base.maxRetries,
      prefixes := if |yaml.prefixes| > 0 then yaml.prefixes else base.prefixes,
      apiKeys := if |yaml.apiKeys| > 0 then yaml.apiKeys else base.apiKeys)
  }

  /** Builds the run's configuration. `yaml` is the decoded configuration file,
      or None when the file could not be read or decoded; `outputDirEnv` is the
      value of the OUTPUT_DIR environment variable ("" when unset). */
  function LoadConfig(yaml: Option<Config>, outputDirEnv: string): (c: Config)
    ensures Runnable(c)
    ensures outputDirEnv != "" ==> c.outputDir == outputDirEnv
    ensures yaml.None? ==> c == DefaultConfig().(outputDir := c.outputDir)
    ensures yaml.None? && outputDirEnv == "" ==> c == DefaultConfig()
    ensures outputDirEnv == "" ==> c.outputDir != ""
  {
    var merged := if yaml.Some? then Overlay(DefaultConfig(), yaml.value) else DefaultConfig();
    if outputDirEnv != "" then merged.(outputDir := outputDirEnv) else merged
  }

  /** Each field of a decoded file replaces the default exactly when it is set:
      non-empty for text and lists, positive for integers. The output
      directory follows the same rule unless OUTPUT_DIR is set. */
  lemma YamlOverridesOnlySetFields(yaml: Config, outputDirEnv: string)
    ensures var c := LoadConfig(Some(yaml), outputDirEnv);
            var d := DefaultConfig();
            && (outputDirEnv == "" ==> c.outputDir == if yaml.outputDir != "" then yaml.outputDir else d.outputDir)
            && (yaml.concurrency > 0 ==> c.concurrency == yaml.concurrency)
            && (yaml.concurrency <= 0 ==> c.concurrency == d.concurrency)
            && (yaml.requestTimeout != "" ==> c.requestTimeout == yaml.requestTimeout)
            && (yaml.requestTimeout == "" ==> c.requestTimeout == d.requestTimeout)
            && (yaml.retryDelay != "" ==> c.retryDelay == yaml.retryDelay)
            && (yaml.retryDelay == "" ==> c.retryDelay == d.retryDelay)
            && (yaml.maxRetries > 0 ==> c.maxRetries == yaml.maxRetries)
            && (yaml.maxRetries <= 0 ==> c.maxRetries == d.maxRetries)
            && (|yaml.prefixes| > 0 ==> c.prefixes == yaml.prefixes)
            && (|yaml.prefixes| == 0 ==> c.prefixes == d.prefixes)
            && (|yaml.apiKeys| > 0 ==> c.apiKeys == yaml.apiKeys)
            && (|yaml.apiKeys| == 0 ==> c.apiKeys == d.apiKeys)
  {
  }

  /** A file that sets nothing leaves the defaults in place. */
  lemma EmptyFileKeepsDefaults(outputDirEnv: string)
    ensures LoadConfig(Some(ZeroConfig()), outputDirEnv) == LoadConfig(None, outputDirEnv)
  {
  }

  /** Loading is idempotent: writing a loaded configuration back out as the
      file and loading it again (under the same environment) changes nothing. */
  lemma LoadConfigIdempotent(yaml: Option<Config>, outputDirEnv: string)
    ensures var c := LoadConfig(yaml, outputDirEnv);
            LoadConfig(Some(c), outputDirEnv) == c
  {
  }

  /** The per-request HTTP timeout: the parsed `requestTimeout`, or 20 seconds
      when it does not parse. `parseDuration` stands for Go's time.ParseDuration. */
  function GetRequestTimeout(c: Config, parseDuration: string -> Option<int>): (d: int)
    ensures parseDuration(c.requestTimeout).Some? ==> d == parseDuration(c.requestTimeout).value
    ensures parseDuration(c.requestTimeout).None? ==> d == 20 * Second
  {
    match parseDuration(c.requestTimeout)
    case Some(duration) => duration
    case None => 20 * Second
  }

  /** The pause a worker takes after each network: the parsed `retryDelay`, or
      50 milliseconds when it does not parse. */
  function GetRetryDelay(c: Config, parseDuration: string -> Option<int>): (d: int)
    ensures parseDuration(c.retryDelay).Some? ==> d == parseDuration(c.retryDelay).value
    ensures parseDuration(c.retryDelay).None? ==> d == 50 * Millisecond
  {
    match parseDuration(c.retryDelay)
    case Some(duration) => duration
    case None => 50 * Millisecond
  }

  /** With a duration parser that reads the default texts correctly, a setting
      that fails to parse behaves exactly like the default setting. */
  lemma FallbacksMatchDefaults(c: Config, parseDuration: string -> Option<int>)
    requires parseDuration("20s") == Some(20 * Second)
    requires parseDuration("50ms") == Some(50 * Millisecond)
    ensures parseDuration(c.requestTimeout).None? ==>
              GetRequestTimeout(c, parseDuration) == GetRequestTimeout(DefaultConfig(), parseDuration)
    ensures parseDuration(c.retryDelay).None? ==>
              GetRetryDelay(c, parseDuration) == GetRetryDelay(DefaultConfig(), parseDuration)
  {
  }

  /** The report's file name for a day written as YYYYMMDD. */
  function ReportFileName(date: string): (name: string)
    ensures |name| == |date| + 12
    ensures name[..7] == "report_" && name[|name| - 5..] == ".html"
    ensures name[7..|name| - 5] == date
  {
    "report_" + date + ".html"
  }

  /** The report's path: the file name placed under the output directory.
      `join` stands for Go's filepath.Join. */
  function GetOutputFileName(c: Config, date: string, join: (string, string) -> string): string
  {
    join(c.outputDir, ReportFileName(date))
  }
}
