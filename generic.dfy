/** `WFPMarketMonitoring` of genericpipeline.py: the older copy, configuration-only, CSV-only and without a gate. */
module Generic {
  import opened Wrappers
  import opened Exceptions
  import opened Table
  import opened Settings
  import opened SharedKey
  import opened DateNormalise

  /** Lines 31-36: the credential and blob keys, in the order they are read. */
  const FETCH_KEYS: seq<string> := ["account", "container", "key", "blob", "url"]

  /** What lines 31-44 settle before pandas reads the file: the dataset name and the download. */
  datatype Fetch = Fetch(name: string, download: Download)

  /** Lines 31-44: five configuration lookups, the dataset name, then `download_file` with no keyword arguments. */
  function PlanFetch(config: Config, requestTime: string, pathExists: string -> bool, prims: Primitives): Result<Fetch, Exception>
  {
    match FirstMissing(config.entries, FETCH_KEYS)
    case Some(k) => Err(KeyError(k))
    case None =>
      var e := config.entries;
      match DatasetName(config)
      case Err(err) => Err(err)
      case Ok(name) =>
        match DownloadFile(e["url"], e["account"], e["container"], e["key"], e["blob"], DEFAULT_OPTIONS, requestTime, pathExists, prims)
        case Err(err) => Err(err)
        case Ok(d) => Ok(Fetch(name, d))
  }

  /**
   * Everything comes from the configuration: the environment is never consulted, a missing key
   * raises on the first one in read order, and the request is the configured blob's.
   */
  lemma FetchFromConfigurationOnly(config: Config, requestTime: string, pathExists: string -> bool, prims: Primitives)
    ensures var r := PlanFetch(config, requestTime, pathExists, prims);
      && (FirstMissing(config.entries, FETCH_KEYS).Some? ==> r == Err(KeyError(FirstMissing(config.entries, FETCH_KEYS).value)))
      && (r.Ok? ==>
            var e := config.entries;
            && (forall i :: 0 <= i < |FETCH_KEYS| ==> FETCH_KEYS[i] in e)
            && DatasetName(config) == Ok(r.value.name)
            && r.value.download.Streamed?
            && r.value.download.request.url == BlobUrl(e["account"], e["container"], e["blob"]))
  {
    var r := PlanFetch(config, requestTime, pathExists, prims);
    if r.Ok? {
      var e := config.entries;
      InvalidKeyFails(e["url"], e["account"], e["container"], e["key"], e["blob"], DEFAULT_OPTIONS, requestTime, pathExists, prims);
    }
  }

  class MarketMonitoring {
    const configuration: Config
    /** `dataset_data`: the rows of each dataset read so far. */
    var datasetData: map<string, array<Row>>
    /** `created_date`: never set in this file. */
    var createdDate: Option<int>

    constructor(configuration: Config)
      ensures this.configuration == configuration && datasetData == map[] && createdDate == None
    {
      this.configuration := configuration;
      datasetData := map[];
      createdDate := None;
    }

    /**
     * `get_data(state)`: the state is not consulted and `created_date` is not set. `load` gives the rows
     * pandas reads from the CSV file. Once the rows are stored the dataset is always returned.
     */
    method GetData(state: map<string, int>, requestTime: string, pathExists: string -> bool, prims: Primitives,
                   load: Reader -> seq<Row>)
      returns (r: Result<Option<seq<string>>, Exception>)
      modifies this`datasetData
      ensures var plan := PlanFetch(configuration, requestTime, pathExists, prims);
        if plan.Err? then
          r == Err(plan.error) && datasetData == old(datasetData)
        else
          var name := plan.value.name;
          && name in datasetData && fresh(datasetData[name])
          && datasetData == old(datasetData)[name := datasetData[name]]
          && datasetData[name][..] == load(Csv)
          && r == Ok(Some([name]))
      ensures createdDate == old(createdDate)
    {
      var plan := PlanFetch(configuration, requestTime, pathExists, prims);
      if plan.Err? {
        return Err(plan.error);
      }
      var name := plan.value.name;
      var rows := load(Csv);
      var table := new Row[|rows|](i requires 0 <= i < |rows| => rows[i]);
      datasetData := datasetData[name := table];
      if |datasetData| > 0 {
        r := Ok(Some([name]));
      } else {
        r := Ok(None);
      }
    }

    /** `generate_dataset(dataset_name)`: the same lookups, guard and rewrite as wfp.py. */
    method GenerateDataset(datasetName: string) returns (g: Generation)
      modifies if datasetName in datasetData then {datasetData[datasetName]} else {}
      ensures var lookups := DatasetLookups(configuration, datasetName, datasetName in datasetData);
        if lookups.Err? then
          g == GenerationFailed(lookups.error) &&
          (datasetName in datasetData ==> datasetData[datasetName][..] == old(datasetData[datasetName][..]))
        else
          GeneratedFrom(datasetName, lookups.value, old(datasetData[datasetName][..]), datasetData[datasetName][..], g)
    {
      var lookups := DatasetLookups(configuration, datasetName, datasetName in datasetData);
      if lookups.Err? {
        return GenerationFailed(lookups.error);
      }
      g := GenerateFromRows(datasetName, lookups.value, datasetData[datasetName]);
    }
  }
}
