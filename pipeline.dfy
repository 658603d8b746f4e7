/**
 * `main` of run.py: read the stored dates, ask `get_data` what to process, generate and upload each
 * dataset, and write the dates back.
 */
module Pipeline {
  import opened Wrappers
  import opened Exceptions
  import opened Table
  import opened Settings
  import opened SharedKey
  import opened DateNormalise
  import Wfp

  /** Line 148 as written: `len(dataset_names)` raises when the gate answered `None`. */
  function NamesAsWritten(names: Option<seq<string>>): Result<seq<string>, Exception>
  {
    match names
    case None => Err(NoneHasNoLen)
    case Some(ns) => Ok(ns)
  }

  /** What line 148 evidently means: a shut gate leaves nothing to process. */
  function NamesToProcess(names: Option<seq<string>>): (r: seq<string>)
    ensures NamesAsWritten(names).Ok? ==> r == NamesAsWritten(names).value
    ensures names.None? ==> r == []
  {
    match names
    case None => []
    case Some(ns) => ns
  }

  /** A file no newer than its stored date shuts the gate, and line 148 as written then raises. */
  lemma StaleGateRaisesAsWritten(name: string, ctime: int, state: map<string, int>)
    requires "DEFAULT" in state
    requires ctime <= if name in state then state[name] else state["DEFAULT"]
    ensures Wfp.Gate(name, ctime, state) == Ok(false)
    ensures NamesAsWritten(Wfp.GatedNames(name, false, true)) == Err(NoneHasNoLen)
    ensures NamesToProcess(Wfp.GatedNames(name, false, true)) == []
  {
  }

  /** The smallest such run: a state holding only `DEFAULT`, and a file created at that very instant. */
  lemma StaleGateExample()
    ensures Wfp.Gate(Settings.DATASET_KEY, 0, map["DEFAULT" := 0]) == Ok(false)
    ensures NamesAsWritten(Wfp.GatedNames(Settings.DATASET_KEY, false, true)) == Err(NoneHasNoLen)
  {
    StaleGateRaisesAsWritten(Settings.DATASET_KEY, 0, map["DEFAULT" := 0]);
  }

  /** What the loop body does with one dataset: upload the generated resource, skip it, or raise. */
  datatype Step = Upload(resource: Resource) | Skip | Abort(error: Exception)

  /** Lines 152-154 as written: `if dataset:` is true of the `(None, None)` pair, whose `update_from_yaml` raises. */
  function DatasetStepAsWritten(g: Generation): Step
  {
    match g
    case Generated(resource) => Upload(resource)
    case MissingStartDate => Abort(TupleHasNoUpdate)
    case GenerationFailed(e) => Abort(e)
  }

  /** What lines 152-154 evidently mean: a dataset without a start date is skipped. */
  function DatasetStep(g: Generation): (s: Step)
    ensures s == Skip <==> g == MissingStartDate
    ensures g != MissingStartDate ==> s == DatasetStepAsWritten(g)
  {
    match g
    case Generated(resource) => Upload(resource)
    case MissingStartDate => Skip
    case GenerationFailed(e) => Abort(e)
  }

  /** An empty start date gets past `if dataset:` as written and ends the run; the intended step skips it. */
  lemma MissingStartDateAsWritten(datasetName: string, before: seq<Row>, after: seq<Row>, g: Generation)
    requires GeneratedFrom(datasetName, "", before, after, g)
    ensures DatasetStepAsWritten(g) == Abort(TupleHasNoUpdate)
    ensures DatasetStep(g) == Skip && after == before
  {
  }

  /** How a run ends: the dates written back, the errors collected and the datasets uploaded; or an escaped exception. */
  datatype RunOutcome =
    | Completed(written: map<string, int>, errors: seq<string>, uploaded: seq<string>)
    | Aborted(error: Exception)

  /** The message collected when `create_in_hdx` fails. */
  function UploadError(name: string): string
  {
    "Could not upload " + name
  }

  /**
   * The step the loop takes for `datasetName`, computed from the configuration and the dataset's rows
   * as they were stored: a lookup that raises, an empty first table or a cell that will not convert
   * ends the run, an empty start date skips the dataset, and otherwise it is uploaded.
   */
  function PlannedStep(config: Config, datasetName: string, hasRows: bool, rows: seq<Row>): Step
  {
    match DatasetLookups(config, datasetName, hasRows)
    case Err(e) => Abort(e)
    case Ok(startDate) =>
      if startDate == "" then Skip
      else if |rows| == 0 then Abort(NoFirstRow)
      else
        var rewrite := RewriteRows(rows, DateHeaders(rows[0]));
        match rewrite.1
        case Some(e) => Abort(e)
        case None => Upload(Resource(ResourceName(datasetName), rows[0].columns, rewrite.0))
  }

  /**
   * The rows `generate_dataset` leaves stored for `datasetName`: rewritten in place up to the first
   * cell that will not convert, or untouched when a lookup raises, the start date is empty or there
   * are no rows.
   */
  function PlannedRows(config: Config, datasetName: string, hasRows: bool, rows: seq<Row>): seq<Row>
  {
    match DatasetLookups(config, datasetName, hasRows)
    case Err(_) => rows
    case Ok(startDate) =>
      if startDate == "" || |rows| == 0 then rows
      else RewriteRows(rows, DateHeaders(rows[0])).0
  }

  /** What `generate_dataset` promises about one call decides the step the loop then takes and the rows it leaves. */
  lemma StepMatchesPlan(config: Config, datasetName: string, hasRows: bool, before: seq<Row>, after: seq<Row>, g: Generation)
    requires var lookups := DatasetLookups(config, datasetName, hasRows);
      if lookups.Err? then g == GenerationFailed(lookups.error) && after == before
      else GeneratedFrom(datasetName, lookups.value, before, after, g)
    ensures DatasetStep(g) == PlannedStep(config, datasetName, hasRows, before)
    ensures after == PlannedRows(config, datasetName, hasRows, before)
  {
  }

  /**
   * A dataset is uploaded exactly when every lookup succeeds, the start date is not empty, there is a
   * row, and every date cell of every row converts; it is skipped exactly when the start date is empty.
   */
  lemma PlannedStepMeaning(config: Config, datasetName: string, hasRows: bool, rows: seq<Row>)
    requires |rows| > 0 ==> WellFormed(rows[0])
    ensures PlannedStep(config, datasetName, hasRows, rows).Upload? <==>
      && DatasetLookups(config, datasetName, hasRows).Ok?
      && DatasetLookups(config, datasetName, hasRows).value != ""
      && |rows| > 0
      && forall i :: 0 <= i < |rows| ==> Convertible(rows[i], DateHeaders(rows[0]))
    ensures PlannedStep(config, datasetName, hasRows, rows) == Skip <==>
      DatasetLookups(config, datasetName, hasRows) == Ok("")
  {
    if |rows| > 0 {
      RowsMeaning(rows, DateHeaders(rows[0]));
    }
  }

  /**
   * A planned upload carries the rows the rewrite leaves stored, under the first row's column order:
   * every row keeps its keys and its other cells, and each date cell is normalised.
   */
  lemma PlannedUploadResource(config: Config, datasetName: string, hasRows: bool, rows: seq<Row>)
    requires |rows| > 0 ==> WellFormed(rows[0])
    requires PlannedStep(config, datasetName, hasRows, rows).Upload?
    ensures |rows| > 0
    ensures var after := PlannedRows(config, datasetName, hasRows, rows);
      && PlannedStep(config, datasetName, hasRows, rows).resource == Resource(ResourceName(datasetName), rows[0].columns, after)
      && |after| == |rows|
      && var hs := DateHeaders(rows[0]);
         forall i :: 0 <= i < |rows| ==>
           SameShape(rows[i], after[i], hs) && Convertible(rows[i], hs) && NormalisedRow(rows[i], after[i], hs)
  {
    var startDate := DatasetLookups(config, datasetName, hasRows).value;
    var after := PlannedRows(config, datasetName, hasRows, rows);
    GeneratedResource(datasetName, startDate, rows, after, PlannedStep(config, datasetName, hasRows, rows).resource);
  }

  /**
   * What the loop collects from the steps taken for the first `|steps|` names, in order: the error
   * message of each dataset whose upload fails, and each dataset uploaded.
   */
  function Collect(names: seq<string>, steps: seq<Step>, upload: string -> bool): (seq<string>, seq<string>)
    requires |steps| <= |names|
    decreases |steps|
  {
    if |steps| == 0 then ([], [])
    else
      var (errors, uploaded) := Collect(names, steps[..|steps| - 1], upload);
      var name := names[|steps| - 1];
      if !steps[|steps| - 1].Upload? then (errors, uploaded)
      else if upload(name) then (errors, uploaded + [name])
      else (errors + [UploadError(name)], uploaded)
  }

  /**
   * The datasets collected as uploaded are exactly those whose step is an upload that succeeds, and
   * the errors collected are exactly the messages for those whose upload fails.
   */
  lemma {:induction false} CollectMembers(names: seq<string>, steps: seq<Step>, upload: string -> bool)
    requires |steps| <= |names|
    ensures var (errors, uploaded) := Collect(names, steps, upload);
      && (forall n :: n in uploaded <==> exists k :: 0 <= k < |steps| && steps[k].Upload? && names[k] == n && upload(n))
      && (forall e :: e in errors <==>
            exists k :: 0 <= k < |steps| && steps[k].Upload? && !upload(names[k]) && e == UploadError(names[k]))
    decreases |steps|
  {
    if |steps| > 0 {
      var last := |steps| - 1;
      var prefix := steps[..last];
      CollectMembers(names, prefix, upload);
      var (errors0, uploaded0) := Collect(names, prefix, upload);
      var (errors, uploaded) := Collect(names, steps, upload);
      assert forall k :: 0 <= k < last ==> prefix[k] == steps[k];
      assert uploaded == if steps[last].Upload? && upload(names[last]) then uploaded0 + [names[last]] else uploaded0;
      assert errors == if steps[last].Upload? && !upload(names[last]) then errors0 + [UploadError(names[last])] else errors0;
      forall n
        ensures n in uploaded <==> exists k :: 0 <= k < |steps| && steps[k].Upload? && names[k] == n && upload(n)
      {
        if exists k :: 0 <= k < |steps| && steps[k].Upload? && names[k] == n && upload(n) {
          var k :| 0 <= k < |steps| && steps[k].Upload? && names[k] == n && upload(n);
          if k < last {
            assert prefix[k].Upload? && n in uploaded0;
          }
        }
        if n in uploaded0 {
          var k :| 0 <= k < last && prefix[k].Upload? && names[k] == n && upload(n);
          assert steps[k].Upload?;
        }
      }
      forall e
        ensures e in errors <==>
          exists k :: 0 <= k < |steps| && steps[k].Upload? && !upload(names[k]) && e == UploadError(names[k])
      {
        if exists k :: 0 <= k < |steps| && steps[k].Upload? && !upload(names[k]) && e == UploadError(names[k]) {
          var k :| 0 <= k < |steps| && steps[k].Upload? && !upload(names[k]) && e == UploadError(names[k]);
          if k < last {
            assert prefix[k].Upload? && e in errors0;
          }
        }
        if e in errors0 {
          var k :| 0 <= k < last && prefix[k].Upload? && !upload(names[k]) && e == UploadError(names[k]);
          assert steps[k].Upload?;
        }
      }
    }
  }

  /** The rows stored under `name`, if any. */
  function RowsOf(tables: map<string, seq<Row>>, name: string): seq<Row>
  {
    if name in tables then tables[name] else []
  }

  /** The step planned for `name` when `tables` holds the rows stored for each dataset. */
  function StepFor(config: Config, tables: map<string, seq<Row>>, name: string): Step
  {
    PlannedStep(config, name, name in tables, RowsOf(tables, name))
  }

  /** The rows planned to be left stored for `name` when `tables` holds the rows stored for each dataset. */
  function RowsLeftFor(config: Config, tables: map<string, seq<Row>>, name: string): seq<Row>
  {
    PlannedRows(config, name, name in tables, RowsOf(tables, name))
  }

  /** `planned` holds the step and `left` the rows left behind planned for each of `names`, in order. */
  predicate Follows(config: Config, tables: map<string, seq<Row>>, names: seq<string>, planned: seq<Step>, left: seq<seq<Row>>)
  {
    && |planned| == |names| && |left| == |names|
    && forall k {:trigger StepFor(config, tables, names[k])} :: 0 <= k < |names| ==>
         planned[k] == StepFor(config, tables, names[k]) && left[k] == RowsLeftFor(config, tables, names[k])
  }

  /** `tables` holds the rows of exactly the datasets `data` has. */
  predicate Stores(data: map<string, array<Row>>, tables: map<string, seq<Row>>)
    reads data.Values
  {
    data.Keys == tables.Keys && forall n :: n in data ==> data[n][..] == tables[n]
  }

  /** No two datasets share a table of rows. */
  predicate Separate(data: map<string, array<Row>>)
  {
    forall a, b :: a in data && b in data && a != b ==> data[a] != data[b]
  }

  /**
   * Lines 151-153 for the `i`-th dataset: `generate_dataset`, then the corrected test of its result,
   * which is the step planned from the rows it finds stored. The dataset's own rows become the rows
   * planned to be left behind, and no other dataset's rows change.
   */
  method GenerateStep(monitor: Wfp.MarketMonitoring, names: seq<string>, i: nat,
                      ghost tables: map<string, seq<Row>>, ghost planned: seq<Step>, ghost left: seq<seq<Row>>)
    returns (step: Step)
    requires i < |names| && Follows(monitor.configuration, tables, names, planned, left)
    requires Separate(monitor.datasetData) && monitor.datasetData.Keys == tables.Keys
    requires names[i] in monitor.datasetData ==> monitor.datasetData[names[i]][..] == tables[names[i]]
    modifies monitor.datasetData.Values
    ensures step == planned[i]
    ensures names[i] in monitor.datasetData ==> monitor.datasetData[names[i]][..] == left[i]
    ensures forall n :: n in monitor.datasetData && n != names[i] ==>
      monitor.datasetData[n][..] == old(monitor.datasetData[n][..])
  {
    var name := names[i];
    assert planned[i] == StepFor(monitor.configuration, tables, name) && left[i] == RowsLeftFor(monitor.configuration, tables, name);
    if name in monitor.datasetData {
      assert monitor.datasetData[name] in monitor.datasetData.Values;
    }
    var g := monitor.GenerateDataset(name);
    ghost var after := if name in monitor.datasetData then monitor.datasetData[name][..] else [];
    StepMatchesPlan(monitor.configuration, name, name in monitor.datasetData, RowsOf(tables, name), after, g);
    step := DatasetStep(g);
  }

  /**
   * The loop of lines 150-168 with the corrected test of line 153. `tables` are the rows stored at the
   * start and `planned` the step planned for each name from them. The steps taken, `steps`, follow the
   * plan until the first step that raises, which ends the loop; the run's errors and uploads are those
   * the steps collect. Each dataset a step was taken for holds the rows `left` plans for it, and every
   * other dataset keeps its rows.
   */
  method ProcessDatasets(monitor: Wfp.MarketMonitoring, names: seq<string>, upload: string -> bool,
                         ghost tables: map<string, seq<Row>>, ghost planned: seq<Step>, ghost left: seq<seq<Row>>)
    returns (r: Result<(seq<string>, seq<string>), Exception>, ghost steps: seq<Step>)
    requires Distinct(names) && Separate(monitor.datasetData)
    requires Stores(monitor.datasetData, tables) && Follows(monitor.configuration, tables, names, planned, left)
    modifies monitor.datasetData.Values
    ensures names == [] ==> r == Ok(([], []))
    ensures |steps| <= |names| && steps == planned[..|steps|]
    ensures forall k :: 0 <= k < |steps| - 1 ==> !steps[k].Abort?
    ensures r.Err? ==> |steps| > 0 && steps[|steps| - 1] == Abort(r.error)
    ensures r.Ok? ==> |steps| == |names| && (|steps| > 0 ==> !steps[|steps| - 1].Abort?) &&
                      r.value == Collect(names, steps, upload)
    ensures forall k :: 0 <= k < |steps| && names[k] in monitor.datasetData ==> monitor.datasetData[names[k]][..] == left[k]
    ensures forall n :: n in monitor.datasetData && n !in names[..|steps|] ==> monitor.datasetData[n][..] == tables[n]
  {
    var errors, uploaded := [], [];
    steps := [];
    var i := 0;
    while i < |names|
      invariant 0 <= i <= |names| && steps == planned[..i]
      invariant forall k :: 0 <= k < i ==> !steps[k].Abort?
      invariant (errors, uploaded) == Collect(names, steps, upload)
      invariant monitor.datasetData.Keys == tables.Keys
      invariant forall k :: 0 <= k < i && names[k] in monitor.datasetData ==> monitor.datasetData[names[k]][..] == left[k]
      invariant forall n :: n in monitor.datasetData && n !in names[..i] ==> monitor.datasetData[n][..] == tables[n]
    {
      var name := names[i];
      assert name !in names[..i];
      var step := GenerateStep(monitor, names, i, tables, planned, left);
      assert forall n :: n !in names[..i] && n != name ==> n !in names[..i + 1];
      assert (steps + [step])[..i] == steps && planned[..i + 1] == steps + [step];
      if step.Abort? {
        steps := steps + [step];
        return Err(step.error), steps;
      }
      if step.Upload? {
        if upload(name) {
          uploaded := uploaded + [name];
        } else {
          errors := errors + [UploadError(name)];
        }
      }
      steps := steps + [step];
      i := i + 1;
    }
    r := Ok((errors, uploaded));
  }

  /**
   * How a run ends when the loop took `step` for its one dataset `datasetName`: an escaped exception,
   * nothing uploaded, an upload, or a collected error.
   */
  function Outcome(step: Step, datasetName: string, state: map<string, int>, upload: string -> bool): (out: RunOutcome)
    ensures out.Completed? ==>
      && out.written == state
      && |out.uploaded| + |out.errors| <= 1
      && (forall n :: n in out.uploaded ==> n == datasetName && upload(datasetName))
      && (forall e :: e in out.errors ==> e == UploadError(datasetName) && !upload(datasetName))
  {
    match step
    case Abort(e) => Aborted(e)
    case Skip => Completed(state, [], [])
    case Upload(_) =>
      if upload(datasetName) then Completed(state, [], [datasetName])
      else Completed(state, [UploadError(datasetName)], [])
  }

  /** A loop over the one dataset `datasetName` that takes `step` without raising collects what `Outcome` says. */
  lemma CollectOne(datasetName: string, step: Step, state: map<string, int>, upload: string -> bool)
    requires !step.Abort?
    ensures var (errors, uploaded) := Collect([datasetName], [step], upload);
      Completed(state, errors, uploaded) == Outcome(step, datasetName, state, upload)
  {
    assert [step][..0] == [];
  }

  /** How a run ends once the gate has opened for `datasetName` and its rows are `rows`. */
  function OpenGateOutcome(config: Config, datasetName: string, rows: seq<Row>, state: map<string, int>,
                           upload: string -> bool): RunOutcome
  {
    Outcome(PlannedStep(config, datasetName, true, rows), datasetName, state, upload)
  }

  /**
   * `main` with the corrected lines 148 and 153. `stateRead` is the state file's content, `upload`
   * says whether `create_in_hdx` succeeds for a dataset; the rest is passed on to `get_data`.
   */
  method RunPipeline(config: Config, env: map<string, string>, stateRead: map<string, int>, requestTime: string,
                     pathExists: string -> bool, prims: Primitives, load: Reader -> seq<Row>, ctime: int,
                     upload: string -> bool)
    returns (out: RunOutcome)
    ensures var plan := Wfp.PlanFetch(config, env, requestTime, pathExists, prims);
      && (plan.Err? ==> out == Aborted(plan.error))
      && (plan.Ok? && Wfp.Gate(plan.value.name, ctime, stateRead).Err? ==> out == Aborted(KeyError("DEFAULT")))
      && (plan.Ok? && Wfp.Gate(plan.value.name, ctime, stateRead) == Ok(false) ==> out == Completed(stateRead, [], []))
      && (plan.Ok? && Wfp.Gate(plan.value.name, ctime, stateRead) == Ok(true) ==>
            out == OpenGateOutcome(config, plan.value.name, load(plan.value.reader), stateRead, upload))
    ensures out.Completed? ==>
      && out.written == stateRead
      && Wfp.PlanFetch(config, env, requestTime, pathExists, prims).Ok?
      && var name := Wfp.PlanFetch(config, env, requestTime, pathExists, prims).value.name;
      && |out.uploaded| + |out.errors| <= 1
      && (forall n :: n in out.uploaded ==> n == name && upload(name))
      && (forall e :: e in out.errors ==> e == UploadError(name) && !upload(name))
  {
    var stateDict := stateRead;
    var monitor := new Wfp.MarketMonitoring(config);
    var got := monitor.GetData(env, stateDict, requestTime, pathExists, prims, load, ctime);
    if got.Err? {
      return Aborted(got.error);
    }
    ghost var plan := Wfp.PlanFetch(config, env, requestTime, pathExists, prims);
    ghost var name := plan.value.name;
    ghost var gate := Wfp.Gate(name, ctime, stateRead);
    assert gate.Ok? && got.value.names == Wfp.GatedNames(name, gate.value, true);
    var names := NamesToProcess(got.value.names);
    assert names == [] || names == [name];
    assert gate.value ==> names == [name];
    assert monitor.datasetData == map[name := monitor.datasetData[name]];
    assert monitor.datasetData.Values == {monitor.datasetData[name]};
    out := UploadDatasets(monitor, names, upload, stateDict, name, load(plan.value.reader));
  }

  /**
   * Lines 150-168 of a run whose gate was asked about the one dataset `name`, stored with the rows
   * `rows`: nothing to process leaves nothing uploaded and the rows as they were, and otherwise the
   * dataset's planned step decides how the run ends and the rows the rewrite leaves behind.
   */
  method UploadDatasets(monitor: Wfp.MarketMonitoring, names: seq<string>, upload: string -> bool,
                        state: map<string, int>, ghost name: string, ghost rows: seq<Row>)
    returns (out: RunOutcome)
    requires names == [] || names == [name]
    requires monitor.datasetData.Keys == {name} && monitor.datasetData[name][..] == rows
    modifies monitor.datasetData.Values
    ensures names == [] ==> out == Completed(state, [], [])
    ensures names == [name] ==> out == OpenGateOutcome(monitor.configuration, name, rows, state, upload)
    ensures names == [] ==> monitor.datasetData[name][..] == rows
    ensures names == [name] ==> monitor.datasetData[name][..] == PlannedRows(monitor.configuration, name, true, rows)
    ensures out.Completed? ==>
      && out.written == state
      && |out.uploaded| + |out.errors| <= 1
      && (forall n :: n in out.uploaded ==> n == name && upload(name))
      && (forall e :: e in out.errors ==> e == UploadError(name) && !upload(name))
  {
    ghost var tables := map[name := rows];
    ghost var step := StepFor(monitor.configuration, tables, name);
    ghost var rowsLeft := RowsLeftFor(monitor.configuration, tables, name);
    ghost var planned := if names == [] then [] else [step];
    ghost var left := if names == [] then [] else [rowsLeft];
    assert rowsLeft == PlannedRows(monitor.configuration, name, true, rows);
    assert Stores(monitor.datasetData, tables);
    assert Follows(monitor.configuration, tables, names, planned, left);
    var processed, steps := ProcessDatasets(monitor, names, upload, tables, planned, left);
    if processed.Err? {
      out := Aborted(processed.error);
      assert out == Outcome(step, name, state, upload);
      return;
    }
    var (errors, uploaded) := processed.value;
    out := Completed(state, errors, uploaded);
    if names == [name] {
      assert steps == [step] && monitor.datasetData[name][..] == rowsLeft;
      CollectOne(name, step, state, upload);
    }
  }
}
