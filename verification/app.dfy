/** The program's main sequence: load the configuration, refuse to start
    without keys or prefixes, de-duplicate the prefixes, query every network,
    rank the rows and name the report file. Rendering the HTML and writing the
    file are outside the model. */
module App {
  import opened Wrappers
  import opened Reports
  import opened Settings
  import opened AbuseApi
  import opened Prefixes
  import opened Pool
  import opened Ranking

  /** Conditions that stop the program before any network is queried. */
  datatype FatalError = NoApiKeys | NoNetworks

  /** What the program hands to the renderer: the networks queried, the ranked
      rows, and the path of the report file. */
  datatype Report = Report(networks: seq<string>, rows: seq<ReportRow>, outputPath: string)

  /** The API client the program builds from its configuration. */
  function NewApiClient(c: Config): Client
  {
    Client(c.apiKeys, c.maxRetries)
  }

  /** The result of checking each network; `envs(n)` describes what the
      queries for network `n` observe. */
  function CheckEach(client: Client, envs: string -> Environment, lib: TimeLib): string -> CheckResult
  {
    n => CheckBlock(client, envs(n), lib).result
  }

  /** Runs the program. `yaml` is the decoded configuration file (None when it
      is missing or does not decode), `outputDirEnv` the OUTPUT_DIR variable,
      `date` today's date as YYYYMMDD. */
  method GenerateReport(
    yaml: Option<Config>, outputDirEnv: string, envs: string -> Environment,
    lib: TimeLib, date: string, join: (string, string) -> string)
    returns (r: Result<Report, FatalError>)
    ensures var c := LoadConfig(yaml, outputDirEnv);
            && (|c.apiKeys| == 0 ==> r == Failure(NoApiKeys))
            && (|c.apiKeys| > 0 && |c.prefixes| == 0 ==> r == Failure(NoNetworks))
            && (|c.apiKeys| > 0 && |c.prefixes| > 0 ==> r.Success?)
    ensures var c := LoadConfig(yaml, outputDirEnv);
            r.Success? ==>
              && IsDedupOf(r.value.networks, c.prefixes)
              && NonIncreasing(r.value.rows)
              && multiset(r.value.rows)
                 == multiset(ProcessNetworks(r.value.networks, CheckEach(NewApiClient(c), envs, lib)))
              && r.value.outputPath == join(c.outputDir, ReportFileName(date))
  {
    var config := LoadConfig(yaml, outputDirEnv);
    if |config.apiKeys| == 0 {
      return Failure(NoApiKeys);
    }
    if |config.prefixes| == 0 {
      return Failure(NoNetworks);
    }
    var networks := Dedup(config.prefixes);
    var client := NewApiClient(config);
    var rows := ProcessNetworks(networks, CheckEach(client, envs, lib));
    var ranked := RankByScore(rows);
    var outputPath := GetOutputFileName(config, date, join);
    return Success(Report(networks, ranked, outputPath));
  }
}
