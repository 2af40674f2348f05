/** The values the database cursor hands back. A `DictCursor` row is a Python
    dict from column name to value; dicts keep insertion order, which matters
    because `list_tables` takes the first value of each row, so a row is an
    ordered sequence of cells. */
module Rows {
  import opened Outcomes
  import Decimal

  /** The column values the model distinguishes: SQL NULL (`None`), booleans,
      integers and text. */
  datatype Value = Null | Bool(b: bool) | Int(i: int) | Text(s: string)

  /** Python truthiness: `None`, `False`, `0` and `""` are false. */
  predicate Truthy(v: Value) {
    match v
    case Null => false
    case Bool(b) => b
    case Int(i) => i != 0
    case Text(s) => s != ""
  }

  /** Python's `str(v)`, as used by an f-string. */
  function ToText(v: Value): string {
    match v
    case Null => "None"
    case Bool(b) => if b then "True" else "False"
    case Int(i) => Decimal.IntToDecimal(i)
    case Text(s) => s
  }

  datatype Cell = Cell(column: string, value: Value)

  type Row = seq<Cell>

  /** `row[column]`: the value of the first cell with that column name, or
      `None` where Python raises `KeyError`. */
  function Lookup(row: Row, column: string): (r: Option<Value>)
    ensures r.None? <==> forall k :: 0 <= k < |row| ==> row[k].column != column
    ensures r.Some? ==> exists k :: 0 <= k < |row| && row[k] == Cell(column, r.value)
                          && forall j :: 0 <= j < k ==> row[j].column != column
    decreases |row|
  {
    if row == [] then None
    else if row[0].column == column then Some(row[0].value)
    else
      var r := Lookup(row[1..], column);
      if r.Some? then
        ghost var k :| 0 <= k < |row[1..]| && row[1..][k] == Cell(column, r.value)
                       && forall j :: 0 <= j < k ==> row[1..][j].column != column;
        assert row[k + 1] == Cell(column, r.value);
        r
      else r
  }

  /** `list(row.values())[0] if row else None`. */
  function FirstValue(row: Row): Value {
    if row == [] then Null else row[0].value
  }
}
