/**
 * `generate_dataset`'s rewrite of epoch timestamps into calendar dates (wfp.py:91-121; the same
 * code is at genericpipeline.py:78-108). Both pipelines use the members of this module.
 */
module DateNormalise {
  import opened Wrappers
  import opened Exceptions
  import opened Text
  import opened Calendar
  import opened Table

  // ---------------------------------------------------------------------------------------------
  // One cell.

  /** The instant a cell value denotes: a value whose decimal string is longer than nine characters is read as milliseconds. */
  function EpochSeconds(v: int): int
  {
    if |DecimalString(v)| > 9 then v / 1000 else v
  }

  /** The threshold in numbers: from 10^9 up and from -10^8 down a value counts as milliseconds. */
  lemma EpochSecondsRule(v: int)
    ensures EpochSeconds(v) == if v >= 1_000_000_000 || v <= -100_000_000 then v / 1000 else v
  {
    DecimalStringLongerThanNine(v);
  }

  /** The first and last instants whose UTC year lies in 1..9999, the years `datetime` accepts. */
  const MIN_SECONDS: int := -62_135_596_800
  const MAX_SECONDS: int := 253_402_300_799

  /** `datetime.utcfromtimestamp(secs).strftime("%Y-%m-%d")`; outside years 1..9999 it raises. */
  function InstantDate(secs: int): Result<string, Exception>
  {
    var d := CivilFromDays(secs / 86400);
    if 1 <= d.year <= 9999 then Ok(IsoDate(d)) else Err(TimestampOutOfRange)
  }

  /** The conversion fails exactly outside `MIN_SECONDS .. MAX_SECONDS`. */
  lemma InstantDateRange(secs: int)
    ensures InstantDate(secs).Ok? <==> MIN_SECONDS <= secs <= MAX_SECONDS
  {
    CivilFromDaysYearRange(secs / 86400, 1, 9999);
    assert YearStart(1) == -719162;
    assert YearStart(10000) == 2932897;
  }

  /** A converted instant reads back as a real date of years 1..9999 whose day is the instant's UTC day. */
  lemma InstantDateMeaning(secs: int)
    requires InstantDate(secs).Ok?
    ensures |InstantDate(secs).value| == 10
    ensures var d := ParseIsoDate(InstantDate(secs).value);
      Valid(d) && 1 <= d.year <= 9999 && DaysFromCivil(d) == secs / 86400
  {
    var d := CivilFromDays(secs / 86400);
    IsoDateRoundTrip(d);
    CivilFromDaysValid(secs / 86400);
    CivilFromDaysInverse(secs / 86400);
  }

  /**
   * What lines 105-108 make of a truthy cell: `len(str(v)) > 9` selects division by 1000, then
   * `utcfromtimestamp` and `strftime`. `True` is the instant 1 (`str(True)` has four characters); a
   * string makes `/` or `utcfromtimestamp` raise TypeError.
   */
  function ToDate(v: Value): Result<string, Exception>
  {
    match v
    case IntV(i) => InstantDate(EpochSeconds(i))
    case BoolV(b) => InstantDate(if b then 1 else 0)
    case StrV(_) => Err(TimestampTypeError)
    case NullV => Err(TimestampTypeError)
  }

  /** A 13-digit value is milliseconds: 1700000000000 is 2023-11-14. */
  lemma MillisecondsExample(v: int)
    requires v == 1_700_000_000_000
    ensures ToDate(IntV(v)) == Ok("2023-11-14")
  {
    var secs := v / 1000;
    assert InstantDate(secs) == Ok("2023-11-14") by {
      var n := secs / 86400;
      assert n == 19675;
      assert EraYear(5, 8658) == (2023, 258);
      assert MarchYear(n + 719468) == EraYear(5, 8658);
      CivilFromMarchYear(n, 2023, 258);
      assert IsoDate(Date(2023, 11, 14)) == "2023-11-14";
    }
    EpochSecondsRule(v);
  }

  /** A 10-digit value is read as milliseconds too: 1700000000 becomes 1970-01-20, not 2023-11-14. */
  lemma TenDigitSecondsExample(v: int)
    requires v == 1_700_000_000
    ensures ToDate(IntV(v)) == Ok("1970-01-20")
  {
    var secs := v / 1000;
    assert InstantDate(secs) == Ok("1970-01-20") by {
      var n := secs / 86400;
      assert n == 19;
      assert EraYear(4, 135099) == (1969, 325);
      assert MarchYear(n + 719468) == EraYear(4, 135099);
      CivilFromMarchYear(n, 1969, 325);
      assert IsoDate(Date(1970, 1, 20)) == "1970-01-20";
    }
    EpochSecondsRule(v);
  }

  /** A 9-digit value is seconds: 999999999 is 2001-09-09. */
  lemma NineDigitSecondsExample(v: int)
    requires v == 999_999_999
    ensures ToDate(IntV(v)) == Ok("2001-09-09")
  {
    var secs := v;
    assert InstantDate(secs) == Ok("2001-09-09") by {
      var n := secs / 86400;
      assert n == 11574;
      assert EraYear(5, 557) == (2001, 192);
      assert MarchYear(n + 719468) == EraYear(5, 557);
      CivilFromMarchYear(n, 2001, 192);
      assert IsoDate(Date(2001, 9, 9)) == "2001-09-09";
    }
    EpochSecondsRule(v);
  }

  // ---------------------------------------------------------------------------------------------
  // Selecting the date columns (line 99).

  /** `"date" in h.lower() and type(row0[h]) == int`: `bool` is not `int` here. */
  predicate IsDateHeader(row0: Row, h: string)
  {
    Contains(Lower(h), "date") && h in row0.cells && row0.cells[h].IntV?
  }

  /** The columns of `cols` that `row0` marks as date columns, in the order of `cols`. */
  function SelectDateHeaders(row0: Row, cols: seq<string>): (hs: seq<string>)
    ensures forall h :: h in hs <==> h in cols && IsDateHeader(row0, h)
    ensures Distinct(cols) ==> Distinct(hs)
    ensures Subsequence(hs, cols)
    decreases |cols|
  {
    if |cols| == 0 then []
    else
      var rest := SelectDateHeaders(row0, cols[1..]);
      assert cols[0] !in cols[1..] ==> cols[0] !in rest;
      assert ([cols[0]] + rest)[0] == cols[0] && ([cols[0]] + rest)[1..] == rest;
      if IsDateHeader(row0, cols[0]) then [cols[0]] + rest else rest
  }

  /** `date_headers`: decided by the first row alone. */
  function DateHeaders(row0: Row): (hs: seq<string>)
    ensures forall h :: h in hs <==> h in row0.columns && IsDateHeader(row0, h)
    ensures WellFormed(row0) ==> Distinct(hs)
    ensures Subsequence(hs, row0.columns)
  {
    SelectDateHeaders(row0, row0.columns)
  }

  // ---------------------------------------------------------------------------------------------
  // The nested loop of lines 100-109, as the state it leaves: stopping at the first exception.

  /** The body of the inner loop for column `h`; `Some(e)` is the exception it raises. */
  function RewriteCell(row: Row, h: string): (Row, Option<Exception>)
  {
    if h !in row.cells then (row, Some(KeyError(h)))
    else if !Truthy(row.cells[h]) then (row, None)
    else match ToDate(row.cells[h])
      case Ok(s) => (Assign(row, h, StrV(s)), None)
      case Err(e) => (row, Some(e))
  }

  /** The inner loop over the columns `hs`, in order. */
  function RewriteCells(row: Row, hs: seq<string>): (Row, Option<Exception>)
    decreases |hs|
  {
    if |hs| == 0 then (row, None)
    else
      var done := RewriteCells(row, hs[..|hs| - 1]);
      if done.1.Some? then done else RewriteCell(done.0, hs[|hs| - 1])
  }

  /** The outer loop over the rows, in order; the rows after a failing one are left as they were. */
  function RewriteRows(rows: seq<Row>, hs: seq<string>): (r: (seq<Row>, Option<Exception>))
    ensures |r.0| == |rows|
    decreases |rows|
  {
    if |rows| == 0 then ([], None)
    else
      var done := RewriteRows(rows[..|rows| - 1], hs);
      if done.1.Some? then (done.0 + [rows[|rows| - 1]], done.1)
      else
        var last := RewriteCells(rows[|rows| - 1], hs);
        (done.0 + [last.0], last.1)
  }

  /** Once a column raised, the later columns are not reached. */
  lemma {:induction false} CellsStopAtError(row: Row, hs: seq<string>, k: nat)
    requires k <= |hs| && RewriteCells(row, hs[..k]).1.Some?
    ensures RewriteCells(row, hs) == RewriteCells(row, hs[..k])
    decreases |hs| - k
  {
    if k < |hs| {
      assert hs[..|hs| - 1][..k] == hs[..k];
      CellsStopAtError(row, hs[..|hs| - 1], k);
    } else {
      assert hs[..k] == hs;
    }
  }

  /** Once a row raised, the later rows are not touched. */
  lemma {:induction false} RowsStopAtError(rows: seq<Row>, hs: seq<string>, k: nat)
    requires k <= |rows| && RewriteRows(rows[..k], hs).1.Some?
    ensures RewriteRows(rows, hs) == (RewriteRows(rows[..k], hs).0 + rows[k..], RewriteRows(rows[..k], hs).1)
    decreases |rows| - k
  {
    if k < |rows| {
      var init := rows[..|rows| - 1];
      assert init[..k] == rows[..k];
      RowsStopAtError(init, hs, k);
      var head := RewriteRows(rows[..k], hs).0;
      assert init[k..] + [rows[|rows| - 1]] == rows[k..];
      assert head + init[k..] + [rows[|rows| - 1]] == head + rows[k..];
    } else {
      assert rows[..k] == rows;
      assert rows[k..] == [];
      assert RewriteRows(rows, hs).0 + [] == RewriteRows(rows, hs).0;
    }
  }

  /** Lines 100-109 on an array of rows, each rewritten in place; `err` is the exception that stops the loop. */
  method NormaliseDates(rows: array<Row>, hs: seq<string>) returns (err: Option<Exception>)
    modifies rows
    ensures (rows[..], err) == RewriteRows(old(rows[..]), hs)
  {
    ghost var before := rows[..];
    var i := 0;
    while i < rows.Length
      invariant 0 <= i <= rows.Length
      invariant RewriteRows(before[..i], hs) == (rows[..i], None)
      invariant rows[i..] == before[i..]
    {
      ghost var done := rows[..i];
      assert rows[i] == before[i];
      var e := NormaliseRow(rows, i, hs);
      assert rows[..i + 1] == done + [rows[i]] && rows[i + 1..] == before[i + 1..];
      assert before[..i + 1][..i] == before[..i];
      assert RewriteRows(before[..i + 1], hs) == (rows[..i + 1], e);
      if e.Some? {
        RowsStopAtError(before, hs, i + 1);
        assert rows[..] == rows[..i + 1] + rows[i + 1..];
        return e;
      }
      i := i + 1;
    }
    assert before[..i] == before && rows[..i] == rows[..];
    err := None;
  }

  /** The inner loop of lines 101-109 for row `i`: its cells rewritten in place, column by column. */
  method NormaliseRow(rows: array<Row>, i: nat, hs: seq<string>) returns (err: Option<Exception>)
    requires i < rows.Length
    modifies rows
    ensures rows[..] == old(rows[..])[i := RewriteCells(old(rows[i]), hs).0]
    ensures err == RewriteCells(old(rows[i]), hs).1
  {
    ghost var before := rows[..];
    var row := rows[i];
    var j := 0;
    while j < |hs|
      invariant 0 <= j <= |hs|
      invariant RewriteCells(before[i], hs[..j]) == (row, None)
      invariant rows[..] == before[i := row]
    {
      var h := hs[j];
      assert hs[..j + 1][..j] == hs[..j];
      if h !in row.cells {
        CellsStopAtError(before[i], hs, j + 1);
        return Some(KeyError(h));
      }
      var v := row.cells[h];
      if Truthy(v) {
        match ToDate(v) {
          case Err(e) =>
            CellsStopAtError(before[i], hs, j + 1);
            return Some(e);
          case Ok(s) =>
            row := Assign(row, h, StrV(s));
            rows[i] := row;
        }
      }
      j := j + 1;
    }
    assert hs[..j] == hs;
    err := None;
  }

  // ---------------------------------------------------------------------------------------------
  // What the rewrite means.

  /** What a rewrite of `before` into `after` under the columns `hs` leaves alone. */
  predicate SameShape(before: Row, after: Row, hs: seq<string>)
  {
    after.columns == before.columns && after.cells.Keys == before.cells.Keys &&
    forall c :: c in before.cells && c !in hs ==> after.cells[c] == before.cells[c]
  }

  lemma {:induction false} CellsShape(row: Row, hs: seq<string>)
    ensures SameShape(row, RewriteCells(row, hs).0, hs)
    decreases |hs|
  {
    if |hs| > 0 {
      CellsShape(row, hs[..|hs| - 1]);
    }
  }

  /** Frame: the row count, the order of rows, every row's keys and every other column stay as they are, even when the loop raises. */
  lemma {:induction false} RowsShape(rows: seq<Row>, hs: seq<string>)
    ensures forall i :: 0 <= i < |rows| ==> SameShape(rows[i], RewriteRows(rows, hs).0[i], hs)
    decreases |rows|
  {
    if |rows| > 0 {
      var init := rows[..|rows| - 1];
      RowsShape(init, hs);
      CellsShape(rows[|rows| - 1], hs);
      forall i | 0 <= i < |rows|
        ensures SameShape(rows[i], RewriteRows(rows, hs).0[i], hs)
      {
        if i < |rows| - 1 {
          assert rows[i] == init[i];
        }
      }
    }
  }

  /** Every selected cell of `row` is present and, when truthy, converts. */
  predicate Convertible(row: Row, hs: seq<string>)
  {
    forall h :: h in hs ==> h in row.cells && (Truthy(row.cells[h]) ==> ToDate(row.cells[h]).Ok?)
  }

  /** The value a convertible cell ends up with: a falsy cell is skipped. */
  function Normalised(v: Value): Value
    requires Truthy(v) ==> ToDate(v).Ok?
  {
    if Truthy(v) then StrV(ToDate(v).value) else v
  }

  /** `after` holds the normalised value of `before` in every selected column. */
  predicate NormalisedRow(before: Row, after: Row, hs: seq<string>)
    requires Convertible(before, hs)
  {
    forall h :: h in hs ==> h in after.cells && after.cells[h] == Normalised(before.cells[h])
  }

  /** With distinct columns, a row rewrites without exception exactly when it is convertible, and then each selected cell is normalised. */
  lemma {:induction false} CellsMeaning(row: Row, hs: seq<string>)
    requires Distinct(hs)
    ensures RewriteCells(row, hs).1.None? <==> Convertible(row, hs)
    ensures Convertible(row, hs) ==> NormalisedRow(row, RewriteCells(row, hs).0, hs)
    decreases |hs|
  {
    if |hs| > 0 {
      var init, h := hs[..|hs| - 1], hs[|hs| - 1];
      assert hs == init + [h];
      assert Distinct(init);
      assert h !in init;
      CellsMeaning(row, init);
      CellsShape(row, init);
      if !Convertible(row, init) {
        assert !Convertible(row, hs);
      } else {
        var mid := RewriteCells(row, init).0;
        assert h in row.cells ==> mid.cells[h] == row.cells[h];
      }
    }
  }

  /** With distinct columns, the loop finishes exactly when every row is convertible, and then every selected cell of every row is normalised. */
  lemma {:induction false} RowsMeaning(rows: seq<Row>, hs: seq<string>)
    requires Distinct(hs)
    ensures RewriteRows(rows, hs).1.None? <==> forall i :: 0 <= i < |rows| ==> Convertible(rows[i], hs)
    ensures RewriteRows(rows, hs).1.None? ==>
      forall i :: 0 <= i < |rows| ==> NormalisedRow(rows[i], RewriteRows(rows, hs).0[i], hs)
    decreases |rows|
  {
    if |rows| > 0 {
      var init, last := rows[..|rows| - 1], rows[|rows| - 1];
      RowsMeaning(init, hs);
      CellsMeaning(last, hs);
      if RewriteRows(init, hs).1.Some? {
        var k :| 0 <= k < |init| && !Convertible(init[k], hs);
        assert rows[k] == init[k];
      } else {
        forall i | 0 <= i < |rows| - 1
          ensures Convertible(rows[i], hs)
        {
          assert rows[i] == init[i];
        }
        if RewriteRows(rows, hs).1.None? {
          forall i | 0 <= i < |rows|
            ensures NormalisedRow(rows[i], RewriteRows(rows, hs).0[i], hs)
          {
            if i < |rows| - 1 {
              assert rows[i] == init[i];
            }
          }
        }
      }
    }
  }

  /** A table whose first row has no date column is left exactly as it is. */
  lemma {:induction false} NoDateColumnsNoChange(rows: seq<Row>)
    ensures RewriteRows(rows, []) == (rows, None)
    decreases |rows|
  {
    if |rows| > 0 {
      NoDateColumnsNoChange(rows[..|rows| - 1]);
      assert rows[..|rows| - 1] + [rows[|rows| - 1]] == rows;
    }
  }

  // ---------------------------------------------------------------------------------------------
  // `generate_dataset` from the start-date guard on (lines 91-121).

  /** What `generate_resource_from_rows` is handed: the file name, the column order and the rows. */
  datatype Resource = Resource(filename: string, columns: seq<string>, rows: seq<Row>)

  datatype Generation =
      /** The dataset, reduced to its one resource (the HDX metadata calls are not modelled). */
    | Generated(resource: Resource)
      /** `return None, None` for a falsy start date. */
    | MissingStartDate
      /** An exception escaped. */
    | GenerationFailed(error: Exception)

  /** `f"{dataset_name.lower()}.csv"`. */
  function ResourceName(datasetName: string): string
  {
    Lower(datasetName) + ".csv"
  }

  /** What the guard and the rewrite make of the rows `before`: the rows `after` and the outcome `g`. */
  predicate GeneratedFrom(datasetName: string, startDate: string, before: seq<Row>, after: seq<Row>, g: Generation)
  {
    if startDate == "" then g == MissingStartDate && after == before
    else if |before| == 0 then g == GenerationFailed(NoFirstRow) && after == before
    else
      var rewrite := RewriteRows(before, DateHeaders(before[0]));
      && after == rewrite.0
      && g == if rewrite.1.Some? then GenerationFailed(rewrite.1.value)
              else Generated(Resource(ResourceName(datasetName), before[0].columns, rewrite.0))
  }

  /**
   * A generated resource holds the rows after the rewrite, in their order, under the first row's
   * column order; every row keeps its keys and its other cells, and each date cell is normalised.
   */
  lemma GeneratedResource(datasetName: string, startDate: string, before: seq<Row>, after: seq<Row>, resource: Resource)
    requires GeneratedFrom(datasetName, startDate, before, after, Generated(resource))
    requires |before| > 0 ==> WellFormed(before[0])
    ensures startDate != "" && |before| > 0
    ensures resource.filename == ResourceName(datasetName) && resource.rows == after
    ensures resource.columns == before[0].columns && |after| == |before|
    ensures var hs := DateHeaders(before[0]);
      forall i :: 0 <= i < |before| ==>
        SameShape(before[i], after[i], hs) && Convertible(before[i], hs) && NormalisedRow(before[i], after[i], hs)
  {
    var hs := DateHeaders(before[0]);
    RowsShape(before, hs);
    RowsMeaning(before, hs);
  }

  /** The start-date guard, the date rewrite of the rows in place, and the resource built from them. */
  method GenerateFromRows(datasetName: string, startDate: string, rows: array<Row>) returns (g: Generation)
    modifies rows
    ensures GeneratedFrom(datasetName, startDate, old(rows[..]), rows[..], g)
  {
    if startDate == "" {
      return MissingStartDate;
    }
    if rows.Length == 0 {
      return GenerationFailed(NoFirstRow);
    }
    ghost var before := rows[..];
    var hs := DateHeaders(rows[0]);
    var err := NormaliseDates(rows, hs);
    if err.Some? {
      return GenerationFailed(err.value);
    }
    RowsShape(before, hs);
    g := Generated(Resource(ResourceName(datasetName), rows[0].columns, rows[..]));
  }
}
