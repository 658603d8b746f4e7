/** Rows as the pipeline holds them: one Python dict per row, keyed by column name, in column order. */
module Table {

  /** The cell values a row can hold, by Python type. */
  datatype Value =
    | NullV
    | BoolV(b: bool)
    | IntV(i: int)
    | StrV(s: string)

  /** Python truthiness: `None`, `False`, `0` and `""` are falsy. */
  predicate Truthy(v: Value)
  {
    match v
    case NullV => false
    case BoolV(b) => b
    case IntV(i) => i != 0
    case StrV(s) => s != ""
  }

  /**
   * A row dict: `columns` is its key order (what `row.keys()` lists), `cells` its contents.
   * Assigning to an existing key keeps the key order.
   */
  datatype Row = Row(columns: seq<string>, cells: map<string, Value>)

  predicate Distinct(s: seq<string>)
  {
    forall i, j :: 0 <= i < j < |s| ==> s[i] != s[j]
  }

  /** `a` is `b` with some elements left out, the rest kept in their order. */
  predicate Subsequence(a: seq<string>, b: seq<string>)
    decreases |b|
  {
    |a| == 0 || (|b| > 0 && ((a[0] == b[0] && Subsequence(a[1..], b[1..])) || Subsequence(a, b[1..])))
  }

  /** A row as a dict makes it: distinct keys, and exactly the listed keys hold a value. */
  predicate WellFormed(r: Row)
  {
    Distinct(r.columns) && r.cells.Keys == set c | c in r.columns
  }

  /** `row[h] = v` for a key the row already has. */
  function Assign(r: Row, h: string, v: Value): (r': Row)
    requires h in r.cells
    ensures WellFormed(r) ==> WellFormed(r')
    ensures r'.columns == r.columns && r'.cells.Keys == r.cells.Keys
    ensures r'.cells[h] == v
    ensures forall c :: c in r.cells && c != h ==> r'.cells[c] == r.cells[c]
  {
    Row(r.columns, r.cells[h := v])
  }
}
