/** The configuration and the environment as the pipelines read them, and what they are read into. */
module Settings {
  import opened Wrappers
  import opened Exceptions

  /**
   * The project configuration: its top-level entries (values kept as text) and the `dataset_names`
   * table, `None` when the configuration has no such key.
   */
  datatype Config = Config(entries: map<string, string>, datasetNames: Option<map<string, string>>)

  /** The key of the one dataset inside `dataset_names`. */
  const DATASET_KEY: string := "WFP-MARKET-MONITORING"

  /** `configuration[key]`. */
  function Get(config: Config, key: string): Result<string, Exception>
  {
    if key in config.entries then Ok(config.entries[key]) else Err(KeyError(key))
  }

  /** `configuration["dataset_names"]["WFP-MARKET-MONITORING"]`: the outer key is looked up first. */
  function DatasetName(config: Config): (r: Result<string, Exception>)
    ensures r.Ok? <==> config.datasetNames.Some? && DATASET_KEY in config.datasetNames.value
    ensures r.Err? ==> r.error == if config.datasetNames.None? then KeyError("dataset_names") else KeyError(DATASET_KEY)
  {
    match config.datasetNames
    case None => Err(KeyError("dataset_names"))
    case Some(names) => if DATASET_KEY in names then Ok(names[DATASET_KEY]) else Err(KeyError(DATASET_KEY))
  }

  /** A run of lookups `m[k]` for the keys in order: the key of the first one that raises, if any. */
  function FirstMissing(m: map<string, string>, keys: seq<string>): (r: Option<string>)
    ensures r.None? <==> forall i :: 0 <= i < |keys| ==> keys[i] in m
    ensures r.Some? ==> exists i :: 0 <= i < |keys| && keys[i] == r.value && r.value !in m &&
                                   forall j :: 0 <= j < i ==> keys[j] in m
    decreases |keys|
  {
    if |keys| == 0 then None
    else if keys[0] !in m then Some(keys[0])
    else
      var rest := FirstMissing(m, keys[1..]);
      assert forall i :: 1 <= i < |keys| ==> keys[i] == keys[1..][i - 1];
      rest
  }

  /** Lookups for `a` then for `b` raise where the lookups for `a` raise, or else where those for `b` do. */
  lemma {:induction false} FirstMissingAppend(m: map<string, string>, a: seq<string>, b: seq<string>)
    ensures FirstMissing(m, a + b) == if FirstMissing(m, a).Some? then FirstMissing(m, a) else FirstMissing(m, b)
    decreases |a|
  {
    if |a| == 0 {
      assert a + b == b;
    } else {
      assert (a + b)[0] == a[0] && (a + b)[1..] == a[1..] + b;
      if a[0] in m {
        FirstMissingAppend(m, a[1..], b);
      }
    }
  }

  /** Where to fetch the blob from. */
  datatype Credentials = Credentials(url: string, account: string, container: string, key: string)

  /** Four lookups in `m` under `names` (the url's, the account's, the container's and the key's name), in that order. */
  function ReadCredentials(m: map<string, string>, names: seq<string>): (r: Result<Credentials, Exception>)
    requires |names| == 4
    ensures r.Ok? <==> forall i :: 0 <= i < 4 ==> names[i] in m
    ensures r.Ok? ==> r.value == Credentials(m[names[0]], m[names[1]], m[names[2]], m[names[3]])
    ensures r.Err? ==> r.error == KeyError(FirstMissing(m, names).value)
  {
    match FirstMissing(m, names)
    case Some(k) => Err(KeyError(k))
    case None => Ok(Credentials(m[names[0]], m[names[1]], m[names[2]], m[names[3]]))
  }

  /** The pandas reader a downloaded file goes through. */
  datatype Reader = Csv | Excel

  /** The configuration keys `generate_dataset` reads before the rows of the dataset. */
  const KEYS_BEFORE_ROWS: seq<string> := ["title", "update_frequency"]

  /** The configuration keys it reads after the rows and before `start_date`. */
  const KEYS_AFTER_ROWS: seq<string> := ["maintainer_id", "organization_id", "notes", "description", "allowed_tags"]

  /** Every configuration key `generate_dataset` reads up to the start-date guard, in the order it reads them. */
  const LOOKUP_KEYS: seq<string> := KEYS_BEFORE_ROWS + KEYS_AFTER_ROWS + ["start_date"]

  /**
   * The lookups `generate_dataset` makes before the start-date guard, in order: the dataset name,
   * the metadata keys, the dataset's rows (`hasRows`), more metadata keys, then `start_date`, which it
   * answers.
   */
  function DatasetLookups(config: Config, datasetName: string, hasRows: bool): (r: Result<string, Exception>)
    ensures r.Ok? <==>
      && DatasetName(config).Ok?
      && (forall k :: k in KEYS_BEFORE_ROWS ==> k in config.entries)
      && hasRows
      && (forall k :: k in KEYS_AFTER_ROWS ==> k in config.entries)
      && "start_date" in config.entries
    ensures r.Ok? ==> r.value == config.entries["start_date"]
    ensures !hasRows && DatasetName(config).Ok? && (forall k :: k in KEYS_BEFORE_ROWS ==> k in config.entries) ==>
      r == Err(KeyError(datasetName))
    ensures DatasetName(config).Err? ==> r == Err(DatasetName(config).error)
    ensures DatasetName(config).Ok? && hasRows ==>
      && (r.Err? <==> FirstMissing(config.entries, LOOKUP_KEYS).Some?)
      && (r.Err? ==> r.error == KeyError(FirstMissing(config.entries, LOOKUP_KEYS).value))
    ensures DatasetName(config).Ok? && !hasRows ==>
      r == Err(KeyError(if FirstMissing(config.entries, KEYS_BEFORE_ROWS).Some?
                        then FirstMissing(config.entries, KEYS_BEFORE_ROWS).value else datasetName))
  {
    FirstMissingAppend(config.entries, KEYS_BEFORE_ROWS, KEYS_AFTER_ROWS);
    FirstMissingAppend(config.entries, KEYS_BEFORE_ROWS + KEYS_AFTER_ROWS, ["start_date"]);
    if DatasetName(config).Err? then Err(DatasetName(config).error)
    else if FirstMissing(config.entries, KEYS_BEFORE_ROWS).Some? then Err(KeyError(FirstMissing(config.entries, KEYS_BEFORE_ROWS).value))
    else if !hasRows then Err(KeyError(datasetName))
    else if FirstMissing(config.entries, KEYS_AFTER_ROWS).Some? then Err(KeyError(FirstMissing(config.entries, KEYS_AFTER_ROWS).value))
    else Get(config, "start_date")
  }
}
