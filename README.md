# WFP Market Monitoring pipeline — a Dafny model

The WFP Global Market Monitor pipeline fetches one blob from Azure Blob Storage. It reads the blob into rows and
decides from the file's creation time whether the dataset is new. It rewrites the integer epoch timestamps in the
date columns into `YYYY-MM-DD` dates, and builds the HDX dataset and resource from the rows. This project models
that logic and proves properties of it:

- **`download_file` in run.py** (`sharedkey.dfy`). This is the Azure Storage "Authorize with Shared Key" request
  for a Blob GET, built from these parts:
  - the string-to-sign: the verb, eleven empty standard-header slots, the `x-ms-*` headers and the canonical
    resource;
  - the three request headers;
  - the blob URL;
  - the `keep` short-circuit.

  HMAC-SHA256, Base64 and UTF-8 are given as function values (`Primitives`). Base64 decoding answers `None` where
  Python raises.
- **`get_data` in wfp.py** (`wfp.dfy`) reads the dataset name and the blob name. It takes the credentials from
  the environment or else from the configuration, and calls `download_file`. It picks the CSV or Excel reader by
  the blob name's suffix, stores the rows and the creation time, and applies the freshness gate. The class
  `Wfp.MarketMonitoring` keeps `dataset_data` as a map to arrays of rows and `created_date` as a field.
- **`get_data` in genericpipeline.py** (`generic.dfy`) is the older copy. It reads its credentials only from the
  configuration, reads CSV only, and has no gate.
- **`generate_dataset`**, the same code in both files (`settings.dfy`, `datenormalise.dfy`):
  - the configuration lookups in their order;
  - the start-date guard;
  - the date-column selection from the first row;
  - the nested loop that rewrites date cells in place, modelled as a method over an `array` of rows and proved
    against the pure `RewriteRows`;
  - the resource built from the rows.

  Dates come from a day-number-to-civil-date function (`calendar.dfy`). It is proved to be the inverse of a
  reference day count, in both directions.
- **`main` in run.py** (`pipeline.dfy`) copies the state, asks `get_data` which datasets to process, generates
  and uploads each, collects upload errors and writes the state back. The model is `main` with lines 148 and 153
  corrected (see "Findings"). As written, `main` raises TypeError at line 148 when the gate is shut, and
  AttributeError at lines 153-154 when the start date is empty. The loop is proved against a plan: the step each
  dataset takes, and the rows it leaves stored, are computed from the configuration and from the rows stored for it
  before the loop. An uploaded step carries its resource.

Rows are Python dicts: a key order plus a map (`table.dfy`), so the observable column order of the resource is
kept. Instants are whole seconds (`int`). The stored state is a `map<string, int>`. Python exceptions are values of
`Exceptions.Exception`, and every operation that can raise answers a `Result`.

Parameters stand for what these files do not compute:
- the request time string (`datetime.utcnow().strftime`);
- `os.path.exists` on the blob URL (`pathExists`);
- the file's creation time (`os.path.getctime`, as `ctime`);
- what pandas reads from the downloaded file (`load`, by reader);
- whether `create_in_hdx` succeeds (`upload`).

The rule at wfp.py:105 divides by 1000 any value whose decimal form has more than nine characters, and the model
does the same. So the 10-digit seconds value 1700000000 is treated as milliseconds, which gives `1970-01-20` and not
`2023-11-14`. Only 1700000000000 gives `2023-11-14` (`DateNormalise.TenDigitSecondsExample`,
`DateNormalise.MillisecondsExample`).

## Model

| member | source | states |
|---|---|---|
| SharedKey.SignedSlotsText | run.py:68-96 | The signed slots are the verb followed by eleven empty standard-header values. Each slot ended by a newline gives `"GET"` and twelve newlines, a 15-character text. |
| SharedKey.CanonicalizedHeadersText | run.py:81 | The canonical headers are `x-ms-date:` + time, a newline, `x-ms-version:` + the API version, a newline. |
| SharedKey.StringToSign | run.py:66-98 | No ensures of its own: the string-to-sign of `download_file`. Its layout, its fields and its injectivity are stated by `StringToSignLayout`, `StringToSignFields` and `StringToSignInjective`. |
| SharedKey.StringToSignLayout | run.py:85-98 | The string-to-sign always starts with the fixed 15-character prefix. After it come the two header lines, then `/account/container/blob` with no separator before the resource. |
| SharedKey.StringToSignFields | run.py:85-98 | With no newline in the inputs, splitting the string-to-sign at newlines gives exactly the verb, eleven empty fields, the two header lines and the resource. |
| SharedKey.StringToSignInjective | run.py:81-98 | Two requests that sign the same string have the same time, account, container and blob. This needs inputs without newlines, and account and container without slashes. |
| SharedKey.Signature | run.py:100-101 | No ensures of its own: Base64 of HMAC-SHA256 under the decoded key, or the Base64 error. `InvalidKeyFails` and `RequestUrlAndAuthorization` state what it gives. |
| SharedKey.BlobUrl | run.py:109 | No ensures of its own: the blob URL. `RequestUrlAndAuthorization` states that the request goes there, and `KeepShortCircuit` that `exists` is asked about it. |
| SharedKey.DownloadFile | run.py:63-113 | No ensures of its own: the whole of `download_file` up to the streamed request. `DownloadIgnoresUrl`, `InvalidKeyFails`, `KeepShortCircuit`, `DefaultOptionsStream`, `RequestUrlAndAuthorization` and `RequestMatchesSignedString` state its behaviour. |
| SharedKey.DownloadIgnoresUrl | run.py:109 | The `url` argument cannot change the outcome of `download_file`: it is overwritten before any use. |
| SharedKey.InvalidKeyFails | run.py:100-101 | The call fails with the Base64 error exactly when the key does not decode, whatever `keep` and `exists` say. |
| SharedKey.KeepShortCircuit | run.py:111-113 | With a valid key, the call returns `path` without a request exactly when `keep` is set and the blob URL exists. Either way, the `path` option is what is passed on. |
| SharedKey.DefaultOptionsStream | run.py:64 | Without keyword arguments (`keep` defaults to false), a valid key always leads to a streamed request. |
| SharedKey.RequestUrlAndAuthorization | run.py:100-109 | For every input, a streamed request goes to `https://account.blob.core.windows.net/container/blob` with `x-ms-date` the request time and `x-ms-version` `2018-03-28`. `Authorization` is `SharedKey account:` + Base64(HMAC-SHA256(decoded key, UTF-8(string-to-sign))). |
| SharedKey.RequestMatchesSignedString | run.py:100-109 | With inputs free of newlines, a streamed request goes to `https://account.blob.core.windows.net/container/blob`. Its `x-ms-date` and `x-ms-version` headers are the values in the signed string's fields 12 and 13, and the version is `2018-03-28`. `Authorization` is `SharedKey account:` + Base64(HMAC-SHA256(decoded key, UTF-8(string-to-sign))). |
| Settings.DatasetName | wfp.py:31 | The name is found exactly when `dataset_names` exists and holds `WFP-MARKET-MONITORING`. Otherwise the KeyError names the outer key if it is missing, and the inner key if not. |
| Settings.FirstMissing | wfp.py:40-43 | No key is reported exactly when every key is present. A reported key is missing, and every key before it is present. |
| Settings.ReadCredentials | wfp.py:35-38 | Four lookups succeed exactly when all four names are present, and then give the four values in order. Otherwise the KeyError names the first missing one. |
| Settings.DatasetLookups | wfp.py:73-91 | `generate_dataset`'s lookups answer `start_date` exactly when the dataset name, `title`, `update_frequency`, the rows, the five later metadata keys and `start_date` are all present. Missing rows raise KeyError on the dataset name once the earlier keys are present. Every failure is the KeyError of the first lookup that fails, in source order: the `dataset_names` lookup, then `title` and `update_frequency`, then the rows, then the five later keys, then `start_date`. |
| Settings.FirstMissingAppend | wfp.py:73-91 | Lookups of two key lists in a row fail on the first list's first missing key, or else on the second list's. |
| Wfp.ResolveCredentials | wfp.py:34-43 | No ensures of its own: the four environment names, else the four configuration keys. `CredentialsNeverMixed`, `EnvironmentWins` and `ConfigurationFallback` state its behaviour. |
| Wfp.CredentialsNeverMixed | wfp.py:34-43 | The credentials are the environment's four values when all four are set, and otherwise the configuration's four. The call fails exactly when the environment is incomplete and a configuration key is missing, and then on the first such key. |
| Wfp.EnvironmentWins | wfp.py:34-38 | With a complete environment the configuration's credentials play no part. |
| Wfp.ConfigurationFallback | wfp.py:39-43 | With an incomplete environment the environment's values play no part. |
| Wfp.ChooseReader | wfp.py:56-60 | No ensures of its own: CSV when the blob name ends in `csv`, else Excel. `ReaderBySuffix` states its behaviour. |
| Wfp.ReaderBySuffix | wfp.py:56-60 | Any name that ends in `csv` reads as CSV; the test is case-sensitive and needs no dot: `pricescsv` reads as CSV, `prices.CSV` and `prices.xlsx` as Excel. |
| Wfp.Gate | wfp.py:64 | No ensures of its own: the freshness test. `GateIsStrict`, `GateNeedsDefault` and `GateUsesOwnDate` state its behaviour. |
| Wfp.GateIsStrict | wfp.py:64 | The gate opens exactly when the creation time is strictly after the stored date (the dataset's own, else `DEFAULT`). An equal time keeps it shut. |
| Wfp.GateNeedsDefault | wfp.py:64 | A state without `DEFAULT` raises KeyError, even for a dataset with its own entry. |
| Wfp.GateUsesOwnDate | wfp.py:64 | Only the dataset's own entry and `DEFAULT` decide the gate. |
| Wfp.PlanFetch | wfp.py:31-60 | No ensures of its own: the lookups, the credentials, the `download_file` call and the reader choice of `get_data`. `FetchUsesResolvedCredentials` states its behaviour, and `GetData`'s contract uses it. |
| Wfp.FetchUsesResolvedCredentials | wfp.py:31-54 | A successful fetch plan streams the configured blob from the resolved account and container, signed with the resolved key and with no `path`. Its reader is CSV exactly when the blob name ends in `csv`. |
| Wfp.GatedNames | wfp.py:64-68 | No ensures of its own: `[name]` when the gate opens with data stored, else `None`. `GetData`'s contract and `Pipeline.NamesToProcess` state what follows from it. |
| Wfp.MarketMonitoring.constructor | wfp.py:20-27 | A new object has no dataset data and no creation date. |
| Wfp.MarketMonitoring.GetData | wfp.py:29-68 | A lookup or download failure leaves both fields unchanged. Otherwise the rows the chosen reader loads are stored under the dataset name in a new array, and `created_date` is the creation time. The answer is the gate's KeyError, or the download together with `[name]` when the gate opens and `None` when it stays shut. |
| Wfp.MarketMonitoring.GenerateDataset | wfp.py:70-121 | A failed lookup leaves the rows as they were. Otherwise the dataset's rows are rewritten in place as `GeneratedFrom` describes. |
| Generic.PlanFetch | genericpipeline.py:31-46 | No ensures of its own: the configuration lookups, the `download_file` call and the CSV reader. `FetchFromConfigurationOnly` states its behaviour. |
| Generic.FetchFromConfigurationOnly | genericpipeline.py:31-44 | Everything comes from the configuration. A missing key raises on the first of `account`, `container`, `key`, `blob`, `url`. A successful plan streams the configured blob. |
| Generic.MarketMonitoring.constructor | genericpipeline.py:21-28 | A new object has no dataset data and no creation date. |
| Generic.MarketMonitoring.GetData | genericpipeline.py:30-55 | The CSV rows are stored under the dataset name and the answer is always `[name]`: there is no gate. `created_date` is never changed. |
| Generic.MarketMonitoring.GenerateDataset | genericpipeline.py:57-108 | The same lookups, guard and in-place rewrite as wfp.py, through the same `DatasetLookups` and `GenerateFromRows`. |
| Text.DecimalStringLongerThanNine | wfp.py:105 | `len(str(v)) > 9` holds exactly when v ≥ 10^9 or v ≤ −10^8. |
| DateNormalise.EpochSeconds | wfp.py:105-106 | No ensures of its own: the divide-by-1000 rule. `EpochSecondsRule` states its behaviour. |
| DateNormalise.EpochSecondsRule | wfp.py:105-106 | A cell value is divided by 1000 exactly from 10^9 up and from −10^8 down, and is taken as seconds otherwise. |
| DateNormalise.InstantDate | wfp.py:107-108 | No ensures of its own: `utcfromtimestamp` then `%Y-%m-%d`, or the range error. `InstantDateRange` and `InstantDateMeaning` state its behaviour. |
| DateNormalise.InstantDateRange | wfp.py:107 | `utcfromtimestamp` succeeds exactly for instants from 0001-01-01T00:00:00 to 9999-12-31T23:59:59 UTC. |
| DateNormalise.InstantDateMeaning | wfp.py:107-108 | A converted instant is a 10-character string. It reads back as a real date of years 1..9999 whose day number is the instant's UTC day. |
| DateNormalise.ToDate | wfp.py:102-108 | No ensures of its own: the conversion of one cell value. `MillisecondsExample`, `TenDigitSecondsExample`, `NineDigitSecondsExample` and `CellsMeaning` state its behaviour. |
| DateNormalise.MillisecondsExample | wfp.py:105-108 | 1700000000000 becomes `2023-11-14`. |
| DateNormalise.TenDigitSecondsExample | wfp.py:105-108 | 1700000000 becomes `1970-01-20`. |
| DateNormalise.NineDigitSecondsExample | wfp.py:105-108 | 999999999 is read as seconds and becomes `2001-09-09`. |
| DateNormalise.IsDateHeader | wfp.py:99 | No ensures of its own: the test of one column. `SelectDateHeaders` states that exactly the columns passing it are selected. |
| DateNormalise.SelectDateHeaders | wfp.py:99 | A column is selected exactly when `date` occurs in its lower-cased name and the first row holds an `int` there (not a `bool`). Distinct columns give distinct selections, and the selection keeps the columns' order. |
| DateNormalise.DateHeaders | wfp.py:98-99 | The date columns are exactly the first row's keys that pass that test. genericpipeline.py:85-86 is the same code. |
| Table.Assign | wfp.py:109 | `row[h] = v` keeps the row's key order and key set. Key `h` then holds `v`, and every other key keeps its value. |
| DateNormalise.RewriteCell | wfp.py:102-109 | No ensures of its own: one pass of the inner loop. `CellsShape` and `CellsMeaning` state what the pass over a row makes of it. |
| DateNormalise.RewriteCells | wfp.py:101-109 | No ensures of its own: the inner loop over one row. `CellsStopAtError`, `CellsShape`, `CellsMeaning` and `NormaliseRow` state its behaviour. |
| DateNormalise.RewriteRows | wfp.py:100-109 | The loop's outcome has as many rows as its input. |
| DateNormalise.CellsStopAtError | wfp.py:101-109 | Once a column raises, the later columns of that row are not reached. |
| DateNormalise.RowsStopAtError | wfp.py:100-109 | Once a row raises, the later rows are left as they were. |
| DateNormalise.NormaliseRow | wfp.py:101-109 | The inner loop rewrites only row `i` of the array, to what `RewriteCells` makes of it, and raises what it raises. |
| DateNormalise.NormaliseDates | wfp.py:100-109 | The nested loop leaves the array holding the rows `RewriteRows` gives, and raises its exception. |
| DateNormalise.CellsShape | wfp.py:101-109 | A row keeps its key order, its keys and every cell outside the selected columns. |
| DateNormalise.RowsShape | wfp.py:100-117 | The row count and row order are kept. Every row keeps its key order, its keys and its other cells, even when the loop raises. |
| DateNormalise.CellsMeaning | wfp.py:101-109 | With distinct columns a row is rewritten without exception exactly when each selected cell is present and, if truthy, converts. Then falsy cells are unchanged and truthy ones hold their date string. |
| DateNormalise.RowsMeaning | wfp.py:100-109 | With distinct columns the loop finishes exactly when every row is convertible. Then every selected cell of every row is normalised. |
| DateNormalise.NoDateColumnsNoChange | wfp.py:99-109 | A table without date columns is left exactly as it is. |
| DateNormalise.ResourceName | wfp.py:84 | No ensures of its own: `f"{dataset_name.lower()}.csv"`. `GeneratedResource` and `Pipeline.PlannedUploadResource` state that the resource carries it. |
| DateNormalise.GeneratedFrom | wfp.py:91-119 | No ensures of its own: the relation between the rows before and after `generate_dataset` and its answer. `GenerateFromRows` and `MarketMonitoring.GenerateDataset` are proved against it, and `GeneratedResource` states what a generated resource holds. |
| DateNormalise.GeneratedResource | wfp.py:91-119 | A generated resource implies a non-empty start date and at least one row. It holds the rewritten rows in their order, named `lower(name).csv`, under the first row's key order. Each row keeps its shape and has its date cells normalised. |
| DateNormalise.GenerateFromRows | wfp.py:91-119 | An empty start date answers `(None, None)` with every row untouched. No rows raises on `rows[0]`. Otherwise the rows are rewritten in place and the resource is built from them, or the rewrite's exception escapes. |
| Calendar.CivilFromDays | wfp.py:107 | The civil date of a day number has a month in 1..12 and a day in 1..31. `CivilFromDaysValid`, `CivilFromDaysInverse` and `CivilFromDaysYearRange` state the rest. |
| Calendar.EpochIsDayZero | wfp.py:107 | Day 0 is 1970-01-01. |
| Calendar.NextDayNumber | wfp.py:107 | The reference day count goes up by one from each real date to the next. |
| Calendar.CivilFromDaysValid | wfp.py:107 | Every day number names a real date: month 1..12, day within that month. |
| Calendar.CivilFromDaysInverse | wfp.py:107 | The date computed for a day number has that day number. |
| Calendar.DaysFromCivilInverse | wfp.py:107 | Every real date is the date computed from its own day number. |
| Calendar.CivilFromDaysYearRange | wfp.py:107 | The year of a day lies in `lo..hi` exactly when the day lies between January 1 of `lo` and of `hi + 1`. |
| Calendar.IsoDate | wfp.py:108 | No ensures of its own: `%Y-%m-%d`. `IsoDateRoundTrip` states its layout and that it reads back. |
| Calendar.IsoDateRoundTrip | wfp.py:108 | `%Y-%m-%d` writes ten characters, with dashes at 4 and 7 and digits elsewhere, and reads back as the same date. |
| Pipeline.NamesAsWritten | run.py:148 | No ensures of its own: `len(dataset_names)` as written, raising on `None`. `StaleGateRaisesAsWritten` and `NamesToProcess` relate it to the corrected reading. |
| Pipeline.NamesToProcess | run.py:147-148 | An answered list is processed as it is. `None` is processed as no dataset. |
| Pipeline.StaleGateRaisesAsWritten | run.py:147-148 | A file no newer than its stored date shuts the gate, and `len(dataset_names)` then raises. |
| Pipeline.StaleGateExample | run.py:147-148 | With state `{"DEFAULT": 0}` and a file created at instant 0, the run as written raises. |
| Pipeline.DatasetStepAsWritten | run.py:152-154 | No ensures of its own: the test `if dataset:` as written. `MissingStartDateAsWritten` and `DatasetStep` relate it to the corrected test. |
| Pipeline.DatasetStep | run.py:152-154 | A dataset is skipped exactly when it has no start date. Otherwise it is uploaded or the error is raised, as written. |
| Pipeline.MissingStartDateAsWritten | run.py:152-154 | An empty start date passes `if dataset:` as written and makes `update_from_yaml` raise. The intended step skips the dataset, with the rows untouched. |
| Pipeline.PlannedStep | wfp.py:70-109 | No ensures of its own: the step planned for a dataset from the stored rows. `StepMatchesPlan`, `PlannedStepMeaning` and `PlannedUploadResource` state its behaviour. |
| Pipeline.PlannedRows | wfp.py:91-109 | No ensures of its own: the rows `generate_dataset` leaves stored. `StepMatchesPlan` and `PlannedUploadResource` state its behaviour. |
| Pipeline.StepMatchesPlan | run.py:151-153 | Whatever `generate_dataset` answers under its contract, the corrected test of line 153 then takes the planned step for that dataset, and the dataset's rows are the planned rows left behind (`PlannedRows`): rewritten in place up to the first cell that fails, or untouched when a lookup raises, the start date is empty or there are no rows. |
| Pipeline.PlannedStepMeaning | wfp.py:70-109 | A dataset is planned for upload exactly when every lookup succeeds, its start date is not empty, it has a row, and every date cell of every row converts. It is planned to be skipped exactly when its start date is empty. Every other plan ends the run. |
| Pipeline.PlannedUploadResource | wfp.py:91-119 | A planned upload carries the resource `lower(name).csv` under the first row's key order, holding exactly the planned rows left behind. There are as many as before. Each keeps its shape and has its date cells normalised. |
| Pipeline.UploadError | run.py:167 | No ensures of its own: the message `Could not upload` plus the name. `CollectMembers` states when it is collected. |
| Pipeline.Collect | run.py:150-168 | No ensures of its own: the errors and uploads the loop collects from its steps, in order. `CollectMembers` and `ProcessDatasets` state its behaviour. |
| Pipeline.CollectMembers | run.py:159-168 | The datasets collected as uploaded are exactly those whose step was an upload that succeeded. The errors collected are exactly `Could not upload` plus the name, for each dataset whose upload failed. |
| Pipeline.GenerateStep | run.py:151-153 | Generating one dataset takes the step planned for it from its stored rows. Its rows become the planned rows left behind, and no other dataset's rows change. |
| Pipeline.ProcessDatasets | run.py:150-168 | The loop takes the planned steps in order. It stops at the first step that raises, which is the run's exception, and otherwise takes one step per listed dataset. Its errors and uploads are exactly what those steps collect, in order. An empty list gives none. Every dataset a step was taken for holds its planned rows left behind, including the rows rewritten before the exception; every other dataset keeps its rows. |
| Pipeline.Outcome | run.py:150-168 | A run that completes after one dataset writes back the state it read. It uploads or reports at most that dataset. It uploads it only after a successful upload, and reports it only after a failed one. |
| Pipeline.UploadDatasets | run.py:150-168 | With nothing to process, the run completes with nothing uploaded and the rows as they were. With the one dataset to process, the run ends as that dataset's planned step and its upload decide, and its rows are the planned rows left behind. |
| Pipeline.RunPipeline | run.py:128-173 | `main` with lines 148 and 153 corrected (see "Findings"). A fetch failure, or a state without `DEFAULT`, ends the run with that exception. A shut gate completes with nothing uploaded, where line 148 as written raises TypeError. An open gate ends exactly as the dataset's planned step from the downloaded rows and its upload decide. A completed run writes back exactly the state it read, and uploads or reports at most the one dataset. |

## Left out

- HMAC-SHA256, Base64 and UTF-8 are library code. They are function values of `Primitives`, and only a key that
  fails to decode is distinguished.
- The clock (`datetime.utcnow`), `os.path.getctime`, `os.path.exists` and pandas' CSV and Excel readers are
  parameters. So is the curly-quote stripping applied to what pandas reads: pandas is not part of this model.
  The readers and `getctime` are assumed to succeed: a read error such as pandas' `EmptyDataError` for an empty
  CSV at wfp.py:57, which would leave both fields unchanged, has no counterpart.
- `self.setup`, `stream_path`, `Retrieve` (with `save`/`use_saved`) and the `post`, `parameters`, `timeout` and
  `encoding` options concern networking and are not modelled. `download_file`'s outcome stops at the request
  that would be streamed.
- The HDX library calls are not modelled: the `Dataset(...)` constructor (wfp.py:76), `set_maintainer`,
  `set_organization`, `set_expected_update_frequency` (wfp.py:80), `set_subnational` (wfp.py:81),
  `add_other_location`, `add_tags`, `set_time_period`, `generate_resource_from_rows` (wfp.py:112-119),
  `update_from_yaml` and `create_in_hdx`, and `slugify`. Only the configuration lookups made around them and the
  resource (file name, column order, rows) are modelled. Their exceptions are not modelled either, except an
  `HDXError` from `create_in_hdx`, which is the `upload` parameter. So, for example, an `HDXError` from
  `set_expected_update_frequency` at wfp.py:80 would come before the model's KeyError for a missing `notes`.
- The newline rewrite of `notes` in `main` (run.py:155-157) is a plain `str.replace`. It is left out because the
  model does not carry the dataset's `notes`.
- `ErrorsOnExit`, the `State` file's parsing and writing, `wheretostart_tempdir_batch` and `progress_storing_folder`
  (resuming a run part-way) are utility code. The state is given as a map and written back as a map.
- `created_date` is an `int` of seconds rather than a timezone-aware `datetime`. The gate compares it with the stored
  dates as integers.
- Configuration values are strings. A `start_date` of `None`, which would also take the `(None, None)` exit, is not
  representable, and neither is a non-string `allowed_tags`.
- Cell values are `None`, `bool`, `int` and `str`. Floats, NaN and pandas' own scalar types are not modelled.
- `row_date / 1000` is floor division on integers. Python divides as floats, but `utcfromtimestamp` gives the same
  UTC day for the result.
- `Text.Lower` folds only ASCII letters; Python's `str.lower` folds all of Unicode.
- `IsoDate` pads the year to four digits. Some C libraries write years below 1000 without padding.
- The log messages are not modelled. Neither is the unused `urlsplit(unquote_plus(url))` at wfp.py:46, including
  the ValueError ("Invalid IPv6 URL") it raises before the download for a host with an unmatched `[` or `]`, such
  as `https://[blob`. For such a URL the model goes on to the download.
- `blob=None` in `download_file` (a TypeError on concatenation) is not representable: the blob name is a string.
- Pipeline.ProcessDatasets: requires distinct names and a separate rows table per dataset. Only then are the
  stored rows the ones each generation finds. `get_data` answers at most one name and stores one fresh table, so
  `main` always meets this. A repeated name would be generated a second time from rows the first pass rewrote,
  and the plan does not describe that.
- `Retrieve` (run.py:140-142) is not part of this model. The call `self.retriever.download_file(...)` at wfp.py:49-54
  is modelled as a direct call of run.py's `download_file` with exactly those keyword arguments, so no `path` and
  the default `keep`.
- Pipeline.PlannedStepMeaning and Pipeline.PlannedUploadResource: require a first row, when there is one, to
  have distinct keys that match its cells, which every Python dict satisfies.
- DateNormalise.GeneratedResource: requires the first row to have distinct keys that match its cells, which every
  Python dict satisfies.

## Findings

| source | as written | input that shows it | evidently intended | confidence | as-written member | corrected member |
|---|---|---|---|---|---|---|
| run.py:147-148 | `get_data` returns `None` when the gate stays shut, and `main` calls `len()` on the answer | state `{"DEFAULT": 0}` and a file created at instant 0: the gate stays shut and `len(None)` raises TypeError | a stale file means no dataset to process | not executed | Pipeline.StaleGateRaisesAsWritten | Pipeline.NamesToProcess |
| run.py:152-154 | `generate_dataset` returns the pair `(None, None)` for an empty start date, and `if dataset:` is true of that pair | configuration with `start_date: ""`: `update_from_yaml` is called on a tuple and raises AttributeError | a dataset without a start date is skipped. `generate_dataset` already reports it with `logger.error` at wfp.py:94 and returns early. The errors `main` collects at run.py:167 are upload failures only. So skipping without a collected error is the step that early return sets up | not executed | Pipeline.MissingStartDateAsWritten | Pipeline.DatasetStep |
