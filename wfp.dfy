/** `WFPMarketMonitoring` of wfp.py: the current pipeline, with its credential fallback and its freshness gate. */
module Wfp {
  import opened Wrappers
  import opened Exceptions
  import opened Text
  import opened Table
  import opened Settings
  import opened SharedKey
  import opened DateNormalise

  /** The environment variables tried first, for the url, the account, the container and the key. */
  const ENV_NAMES: seq<string> := ["BLOB_URL", "STORAGE_ACCOUNT", "CONTAINER", "KEY"]

  /** The configuration keys used when any of them is missing. */
  const CONFIG_NAMES: seq<string> := ["url", "account", "container", "key"]

  /** Lines 34-43: all four from the environment, or else all four from the configuration. */
  function ResolveCredentials(env: map<string, string>, config: Config): Result<Credentials, Exception>
  {
    var fromEnv := ReadCredentials(env, ENV_NAMES);
    if fromEnv.Ok? then fromEnv else ReadCredentials(config.entries, CONFIG_NAMES)
  }

  /** The environment is complete. */
  predicate EnvComplete(env: map<string, string>)
  {
    forall i :: 0 <= i < 4 ==> ENV_NAMES[i] in env
  }

  /**
   * The two sources are never mixed: the credentials are the environment's four values when all
   * four are set and otherwise the configuration's four; only a gap in both raises, and then on the
   * first configuration key missing.
   */
  lemma CredentialsNeverMixed(env: map<string, string>, config: Config)
    ensures var r := ResolveCredentials(env, config);
      && (EnvComplete(env) ==>
            r == Ok(Credentials(env["BLOB_URL"], env["STORAGE_ACCOUNT"], env["CONTAINER"], env["KEY"])))
      && (!EnvComplete(env) && (forall i :: 0 <= i < 4 ==> CONFIG_NAMES[i] in config.entries) ==>
            r == Ok(Credentials(config.entries["url"], config.entries["account"], config.entries["container"], config.entries["key"])))
      && (r.Err? <==> !EnvComplete(env) && exists i :: 0 <= i < 4 && CONFIG_NAMES[i] !in config.entries)
      && (r.Err? ==> r.error == KeyError(FirstMissing(config.entries, CONFIG_NAMES).value))
  {
  }

  /** With a complete environment the configuration's credentials play no part. */
  lemma EnvironmentWins(env: map<string, string>, config1: Config, config2: Config)
    requires EnvComplete(env)
    ensures ResolveCredentials(env, config1) == ResolveCredentials(env, config2)
  {
  }

  /** With an incomplete environment the environment's values play no part. */
  lemma ConfigurationFallback(env1: map<string, string>, env2: map<string, string>, config: Config)
    requires !EnvComplete(env1) && !EnvComplete(env2)
    ensures ResolveCredentials(env1, config) == ResolveCredentials(env2, config)
  {
  }

  /** Lines 56-60: the name's last three characters decide. */
  function ChooseReader(blob: string): Reader
  {
    if EndsWith(blob, "csv") then Csv else Excel
  }

  /** The test is a case-sensitive suffix test, not a file-extension test. */
  lemma ReaderBySuffix(name: string)
    ensures ChooseReader(name + "csv") == Csv
    ensures ChooseReader("prices.xlsx") == Excel
    ensures ChooseReader("prices.CSV") == Excel
    ensures ChooseReader("pricescsv") == Csv
  {
    assert (name + "csv")[|name + "csv"| - 3..] == "csv";
    assert "prices.CSV"[7..] != "csv" by {
      assert "prices.CSV"[7] == 'C';
    }
    assert "prices.xlsx"[8..] != "csv" by {
      assert "prices.xlsx"[8] == 'l';
    }
    assert "pricescsv"[6..] == "csv";
  }

  /** Line 64: `created > state.get(name, state["DEFAULT"])`; the default is looked up even when the name has its own entry. */
  function Gate(name: string, created: int, state: map<string, int>): Result<bool, Exception>
  {
    if "DEFAULT" !in state then Err(KeyError("DEFAULT"))
    else Ok(created > if name in state then state[name] else state["DEFAULT"])
  }

  /** The gate opens exactly for a file strictly newer than the stored date; an equal date keeps it shut. */
  lemma GateIsStrict(name: string, created: int, state: map<string, int>)
    requires "DEFAULT" in state
    ensures var stored := if name in state then state[name] else state["DEFAULT"];
      && (Gate(name, created, state) == Ok(true) <==> created > stored)
      && (Gate(name, created, state) == Ok(false) <==> created <= stored)
      && Gate(name, stored, state) == Ok(false)
  {
  }

  /** A state without `DEFAULT` raises, even for a dataset with its own date. */
  lemma GateNeedsDefault(name: string, created: int, state: map<string, int>)
    requires "DEFAULT" !in state
    ensures Gate(name, created, state) == Err(KeyError("DEFAULT"))
  {
  }

  /** The dataset's own date, when it has one, overrides `DEFAULT`. */
  lemma GateUsesOwnDate(name: string, created: int, state: map<string, int>)
    requires "DEFAULT" in state && name in state
    ensures Gate(name, created, state) == Gate(name, created, map["DEFAULT" := state["DEFAULT"], name := state[name]])
  {
  }

  /** What lines 31-60 settle before pandas reads the file: the dataset, the blob, the reader and the download. */
  datatype Fetch = Fetch(name: string, blob: string, reader: Reader, download: Download)

  /** Lines 31-60 in order: the dataset name, the blob name, the credentials, then `download_file` with no keyword arguments. */
  function PlanFetch(config: Config, env: map<string, string>, requestTime: string,
                     pathExists: string -> bool, prims: Primitives): Result<Fetch, Exception>
  {
    match DatasetName(config)
    case Err(e) => Err(e)
    case Ok(name) =>
      match Get(config, "blob")
      case Err(e) => Err(e)
      case Ok(blob) =>
        match ResolveCredentials(env, config)
        case Err(e) => Err(e)
        case Ok(c) =>
          match DownloadFile(c.url, c.account, c.container, c.key, blob, DEFAULT_OPTIONS, requestTime, pathExists, prims)
          case Err(e) => Err(e)
          case Ok(d) => Ok(Fetch(name, blob, ChooseReader(blob), d))
  }

  /**
   * A planned fetch streams the configured blob from the resolved account and container, signed
   * with the resolved key; the reader follows the blob's name.
   */
  lemma FetchUsesResolvedCredentials(config: Config, env: map<string, string>, requestTime: string,
                                     pathExists: string -> bool, prims: Primitives)
    requires PlanFetch(config, env, requestTime, pathExists, prims).Ok?
    ensures var f := PlanFetch(config, env, requestTime, pathExists, prims).value;
      && DatasetName(config) == Ok(f.name) && Get(config, "blob") == Ok(f.blob)
      && ResolveCredentials(env, config).Ok?
      && var c := ResolveCredentials(env, config).value;
      && prims.b64decode(c.key).Some?
      && f.download.Streamed? && f.download.path == None
      && f.download.request.url == BlobUrl(c.account, c.container, f.blob)
      && f.download.request.headers.authorization ==
         "SharedKey " + c.account + ":" + Signature(c.key, StringToSign(requestTime, c.account, c.container, f.blob), prims).value
      && (f.reader == Csv <==> EndsWith(f.blob, "csv"))
  {
    var c := ResolveCredentials(env, config).value;
    InvalidKeyFails(c.url, c.account, c.container, c.key, PlanFetch(config, env, requestTime, pathExists, prims).value.blob,
                    DEFAULT_OPTIONS, requestTime, pathExists, prims);
  }

  /** What `get_data` returns: the download it made and the names to process (`None` when the gate stays shut). */
  datatype Answer = Answer(download: Download, names: Option<seq<string>>)

  /** Lines 65-68 once the gate is open; the dead `else` of line 67 is kept. */
  function GatedNames(name: string, isFresh: bool, haveData: bool): Option<seq<string>>
  {
    if isFresh && haveData then Some([name]) else None
  }

  class MarketMonitoring {
    const configuration: Config
    /** `dataset_data`: the rows of each dataset read so far. */
    var datasetData: map<string, array<Row>>
    /** `created_date`, in seconds since the epoch. */
    var createdDate: Option<int>

    constructor(configuration: Config)
      ensures this.configuration == configuration && datasetData == map[] && createdDate == None
    {
      this.configuration := configuration;
      datasetData := map[];
      createdDate := None;
    }

    /**
     * `get_data(state)`: `load` gives the rows pandas reads with the chosen reader and `ctime` the
     * file's creation time. The rows and the creation time are stored before the gate is consulted.
     */
    method GetData(env: map<string, string>, state: map<string, int>, requestTime: string,
                   pathExists: string -> bool, prims: Primitives, load: Reader -> seq<Row>, ctime: int)
      returns (r: Result<Answer, Exception>)
      modifies this
      ensures var plan := PlanFetch(configuration, env, requestTime, pathExists, prims);
        if plan.Err? then
          r == Err(plan.error) && datasetData == old(datasetData) && createdDate == old(createdDate)
        else
          var name := plan.value.name;
          && name in datasetData && fresh(datasetData[name])
          && datasetData == old(datasetData)[name := datasetData[name]]
          && datasetData[name][..] == load(plan.value.reader)
          && createdDate == Some(ctime)
          && r == match Gate(name, ctime, state)
                  case Err(e) => Err(e)
                  case Ok(isFresh) => Ok(Answer(plan.value.download, GatedNames(name, isFresh, true)))
    {
      var plan := PlanFetch(configuration, env, requestTime, pathExists, prims);
      if plan.Err? {
        return Err(plan.error);
      }
      var name := plan.value.name;
      var rows := load(plan.value.reader);
      var table := new Row[|rows|](i requires 0 <= i < |rows| => rows[i]);
      datasetData := datasetData[name := table];
      createdDate := Some(ctime);
      match Gate(name, ctime, state)
      case Err(e) =>
        r := Err(e);
      case Ok(isFresh) =>
        r := Ok(Answer(plan.value.download, GatedNames(name, isFresh, |datasetData| > 0)));
    }

    /**
     * `generate_dataset(dataset_name)`: the configuration lookups in their order, then the start-date
     * guard and the date rewrite of the stored rows in place.
     */
    method GenerateDataset(datasetName: string) returns (g: Generation)
      modifies if datasetName in datasetData then {datasetData[datasetName]} else {}
      ensures var lookups := DatasetLookups(configuration, datasetName, datasetName in datasetData);
        if lookups.Err? then
          g == GenerationFailed(lookups.error) &&
          (datasetName in datasetData ==> datasetData[datasetName][..] == old(datasetData[datasetName][..]))
        else
          GeneratedFrom(datasetName, lookups.value, old(datasetData[datasetName][..]), datasetData[datasetName][..], g)
    {
      var lookups := DatasetLookups(configuration, datasetName, datasetName in datasetData);
      if lookups.Err? {
        return GenerationFailed(lookups.error);
      }
      g := GenerateFromRows(datasetName, lookups.value, datasetData[datasetName]);
    }
  }
}
