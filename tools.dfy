/** The result envelopes of the three tools (mysql_server.py:89-236), as pure
    functions of what the database returned. Each envelope carries a status,
    a message, the list it reports and a `count`; the connection pool and the
    cursor are abstracted into a database oracle. */
module Tools {
  import opened Outcomes
  import opened Rows
  import opened QueryGate

  /** The `"status"` field: `"success"` or `"error"`. */
  datatype Status = Success | Error

  /** What the database does with one statement: the rows `fetchall()`
      returns, or the exception raised while acquiring a connection, opening a
      cursor, executing or fetching. */
  type Fetch = Outcome<seq<Row>>

  /** The database as seen through the pool: a possibly-failing function from
      statement text to rows. */
  type Database = string -> Fetch

  // ---------------------------------------------------------------- query_data

  datatype QueryEnvelope = QueryEnvelope(status: Status, message: string, rows: seq<Row>, count: int) {
    /** `count` is the length of `rows`, and an error carries no rows. */
    predicate Consistent() {
      count == |rows| && (status == Error ==> rows == [])
    }
  }

  const QueryOkMessage := "Query executed successfully"
  const QueryFailedPrefix := "Query execution failed: "

  /** The dictionary `query_data` returns once it holds a context
      (mysql_server.py:102-142). A query the gate refuses gets the fixed
      refusal without the database being consulted; otherwise the rewritten
      text is executed and its rows come back unchanged and in order, or the
      failure is reported with an empty row list. */
  function QueryDataEnvelope(query: string, limit: int, db: Database): (r: QueryEnvelope)
    ensures r.Consistent()
    ensures r.status == Success <==> IsSelectQuery(query) && db(Rewrite(query, limit)).Returned?
    ensures !IsSelectQuery(query) ==> r == QueryEnvelope(Error, RejectMessage, [], 0)
    ensures r.status == Success ==> r.rows == db(Rewrite(query, limit)).value && r.message == QueryOkMessage
    ensures IsSelectQuery(query) && db(Rewrite(query, limit)).Raised? ==>
              r.message == QueryFailedPrefix + db(Rewrite(query, limit)).error
  {
    if !IsSelectQuery(query) then QueryEnvelope(Error, RejectMessage, [], 0)
    else
      match db(Rewrite(query, limit))
      case Returned(rows) => QueryEnvelope(Success, QueryOkMessage, rows, |rows|)
      case Raised(e) => QueryEnvelope(Error, QueryFailedPrefix + e, [], 0)
  }

  /** A refused query does not depend on the database at all. */
  lemma RefusedWithoutDatabase(query: string, limit: int, db1: Database, db2: Database)
    requires !IsSelectQuery(query)
    ensures QueryDataEnvelope(query, limit, db1) == QueryDataEnvelope(query, limit, db2)
    ensures QueryDataEnvelope(query, limit, db1).message == RejectMessage
  {
  }

  // --------------------------------------------------------------- list_tables

  datatype TablesEnvelope = TablesEnvelope(status: Status, message: string, tables: seq<Value>, count: int) {
    predicate Consistent() {
      count == |tables| && (status == Error ==> tables == [])
    }
  }

  const ShowTables := "SHOW TABLES"
  const TablesOkMessage := "Tables retrieved successfully"
  const TablesFailedPrefix := "Failed to list tables: "

  /** The names `list_tables` keeps (mysql_server.py:162-167): the first value
      of each row, in row order, where that value is truthy; an empty row
      contributes `None`, which is dropped. */
  function TableNames(rows: seq<Row>): (names: seq<Value>)
    ensures |names| <= |rows|
    ensures forall k :: 0 <= k < |names| ==> Truthy(names[k])
    decreases |rows|
  {
    if rows == [] then []
    else
      var name := FirstValue(rows[0]);
      (if Truthy(name) then [name] else []) + TableNames(rows[1..])
  }

  /** Extraction works row by row: the names of a concatenation are the names
      of each part, in order. */
  lemma {:induction false} TableNamesConcat(a: seq<Row>, b: seq<Row>)
    ensures TableNames(a + b) == TableNames(a) + TableNames(b)
    decreases |a|
  {
    if a == [] {
      assert a + b == b;
    } else {
      assert (a + b)[1..] == a[1..] + b;
      TableNamesConcat(a[1..], b);
    }
  }

  /** A value is listed exactly when it is truthy and is the first value of
      some row. */
  lemma {:induction false} TableNamesMembers(rows: seq<Row>, v: Value)
    ensures v in TableNames(rows) <==>
              Truthy(v) && exists k :: 0 <= k < |rows| && FirstValue(rows[k]) == v
    decreases |rows|
  {
    if rows != [] {
      TableNamesMembers(rows[1..], v);
      if exists k :: 0 <= k < |rows[1..]| && FirstValue(rows[1..][k]) == v {
        var k :| 0 <= k < |rows[1..]| && FirstValue(rows[1..][k]) == v;
        assert FirstValue(rows[k + 1]) == v;
      }
      if k :| 0 <= k < |rows| && FirstValue(rows[k]) == v {
        if k > 0 {
          assert FirstValue(rows[1..][k - 1]) == v;
        }
      }
    }
  }

  /** When every row leads with a truthy value, nothing is dropped: there is
      one name per row, in row order. */
  lemma {:induction false} TableNamesKeepsAll(rows: seq<Row>)
    requires forall k :: 0 <= k < |rows| ==> Truthy(FirstValue(rows[k]))
    ensures |TableNames(rows)| == |rows|
    ensures forall k :: 0 <= k < |rows| ==> TableNames(rows)[k] == FirstValue(rows[k])
    decreases |rows|
  {
    if rows != [] {
      TableNamesKeepsAll(rows[1..]);
    }
  }

  /** The loop of `list_tables` that appends each truthy first value
      (mysql_server.py:162-167). */
  method CollectTableNames(rows: seq<Row>) returns (tables: seq<Value>)
    ensures tables == TableNames(rows)
  {
    tables := [];
    for i := 0 to |rows|
      invariant tables == TableNames(rows[..i])
    {
      var row := rows[i];
      var name := if row != [] then row[0].value else Null;
      if Truthy(name) {
        tables := tables + [name];
      }
      assert rows[..i + 1] == rows[..i] + [row];
      TableNamesConcat(rows[..i], [row]);
    }
    assert rows[..|rows|] == rows;
  }

  /** The dictionary `list_tables` returns once it holds a context
      (mysql_server.py:153-184). */
  function ListTablesEnvelope(fetched: Fetch): (r: TablesEnvelope)
    ensures r.Consistent()
    ensures r.status == Success <==> fetched.Returned?
    ensures fetched.Returned? ==> r.tables == TableNames(fetched.value) && r.message == TablesOkMessage
    ensures fetched.Raised? ==> r.message == TablesFailedPrefix + fetched.error
  {
    match fetched
    case Returned(rows) =>
      var names := TableNames(rows);
      TablesEnvelope(Success, TablesOkMessage, names, |names|)
    case Raised(e) => TablesEnvelope(Error, TablesFailedPrefix + e, [], 0)
  }

  // ---------------------------------------------------------------- get_schema

  /** One entry of `get_schema`'s `columns` list: the keys field, type, null,
      key, default and extra. */
  datatype ColumnInfo = ColumnInfo(field: Value, sqlType: Value, nullable: Value,
                                   key: Value, defaultValue: Value, extra: Value)

  /** The DESCRIBE columns `get_schema` reads, in the order it reads them. */
  const DescribeKeys: seq<string> := ["Field", "Type", "Null", "Key", "Default", "Extra"]

  /** `str(KeyError(key))`: the key in single quotes. */
  function KeyErrorText(key: string): string {
    "'" + key + "'"
  }

  /** `row[key]`: the value, or the `KeyError` naming the key. */
  function Subscript(row: Row, key: string): Outcome<Value> {
    match Lookup(row, key)
    case None => Raised(KeyErrorText(key))
    case Some(v) => Returned(v)
  }

  /** The subscripts of one row, as a function of the key. */
  function SubscriptOf(row: Row): string -> Outcome<Value> {
    key => Subscript(row, key)
  }

  /** The dictionary literal built for one DESCRIBE row (mysql_server.py:210-217):
      its six subscripts are evaluated in the order written, the first missing
      key raising `KeyError`; otherwise every value is copied under its new
      key. */
  function ColumnOf(row: Row): Outcome<ColumnInfo> {
    match ConvertAll(SubscriptOf(row), DescribeKeys)
    case Raised(e) => Raised(e)
    case Returned(values) =>
      ConvertAllSucceeds(SubscriptOf(row), DescribeKeys);
      Returned(ColumnInfo(values[0], values[1], values[2], values[3], values[4], values[5]))
  }

  /** A row converts exactly when it has all six DESCRIBE keys, and then every
      value is copied under its new key; otherwise the `KeyError` names the
      first of the six keys, in the order written, that the row lacks. */
  lemma ColumnOfSpec(row: Row)
    ensures ColumnOf(row).Returned? <==> forall k :: 0 <= k < |DescribeKeys| ==> Lookup(row, DescribeKeys[k]).Some?
    ensures ColumnOf(row).Raised? ==>
              exists k :: 0 <= k < |DescribeKeys| && ColumnOf(row).error == KeyErrorText(DescribeKeys[k])
                          && Lookup(row, DescribeKeys[k]).None?
                          && forall j :: 0 <= j < k ==> Lookup(row, DescribeKeys[j]).Some?
    ensures ColumnOf(row).Returned? ==>
              && Lookup(row, "Field") == Some(ColumnOf(row).value.field)
              && Lookup(row, "Type") == Some(ColumnOf(row).value.sqlType)
              && Lookup(row, "Null") == Some(ColumnOf(row).value.nullable)
              && Lookup(row, "Key") == Some(ColumnOf(row).value.key)
              && Lookup(row, "Default") == Some(ColumnOf(row).value.defaultValue)
              && Lookup(row, "Extra") == Some(ColumnOf(row).value.extra)
  {
    var subscript := SubscriptOf(row);
    ConvertAllSucceeds(subscript, DescribeKeys);
    assert forall k :: 0 <= k < |DescribeKeys| ==> subscript(DescribeKeys[k]) == Subscript(row, DescribeKeys[k]);
    if ConvertAll(subscript, DescribeKeys).Raised? {
      ConvertAllFails(subscript, DescribeKeys);
      var k :| 0 <= k < |DescribeKeys| && subscript(DescribeKeys[k]) == Raised(ConvertAll(subscript, DescribeKeys).error)
               && forall j :: 0 <= j < k ==> subscript(DescribeKeys[j]).Returned?;
      assert Lookup(row, DescribeKeys[k]).None?;
    }
  }

  /** Converting each item of a sequence in turn, where a conversion may
      raise: the results in order, or the first exception, after which nothing
      more is converted. */
  function ConvertAll<T, C>(convert: T -> Outcome<C>, items: seq<T>): Outcome<seq<C>>
    decreases |items|
  {
    if items == [] then Returned([])
    else
      match convert(items[0])
      case Raised(e) => Raised(e)
      case Returned(item) =>
        match ConvertAll(convert, items[1..])
        case Raised(e) => Raised(e)
        case Returned(items) => Returned([item] + items)
  }

  /** Converting succeeds exactly when every item converts; then there is one
      result per item, in order, each converted from its own item. */
  lemma {:induction false} ConvertAllSucceeds<T, C>(convert: T -> Outcome<C>, items: seq<T>)
    ensures ConvertAll(convert, items).Returned? <==> forall k :: 0 <= k < |items| ==> convert(items[k]).Returned?
    ensures ConvertAll(convert, items).Returned? ==>
              && |ConvertAll(convert, items).value| == |items|
              && forall k :: 0 <= k < |items| ==> convert(items[k]) == Returned(ConvertAll(convert, items).value[k])
    decreases |items|
  {
    if items != [] {
      ConvertAllSucceeds(convert, items[1..]);
      if forall k :: 0 <= k < |items[1..]| ==> convert(items[1..][k]).Returned? {
        forall k | 1 <= k < |items| ensures convert(items[k]).Returned? {
          assert items[k] == items[1..][k - 1];
        }
      }
      if convert(items[0]).Returned? && !ConvertAll(convert, items[1..]).Returned? {
        var k :| 0 <= k < |items[1..]| && !convert(items[1..][k]).Returned?;
        assert items[1..][k] == items[k + 1];
      }
    }
  }

  /** A failure is the exception of the first item that does not convert. */
  lemma {:induction false} ConvertAllFails<T, C>(convert: T -> Outcome<C>, items: seq<T>)
    requires ConvertAll(convert, items).Raised?
    ensures exists k :: 0 <= k < |items| && convert(items[k]) == Raised(ConvertAll(convert, items).error)
                        && forall j :: 0 <= j < k ==> convert(items[j]).Returned?
    decreases |items|
  {
    var e := ConvertAll(convert, items).error;
    if convert(items[0]).Raised? {
      assert convert(items[0]) == Raised(e);
    } else {
      ConvertAllFails(convert, items[1..]);
      var k :| 0 <= k < |items[1..]| && convert(items[1..][k]) == Raised(e)
                && forall j :: 0 <= j < k ==> convert(items[1..][j]).Returned?;
      assert convert(items[k + 1]) == Raised(e);
      forall j | 0 <= j < k + 1 ensures convert(items[j]).Returned? {
        if j > 0 { assert items[j] == items[1..][j - 1]; }
      }
    }
  }

  /** Converting stops at the first failing item: once a prefix fails, what
      follows it does not matter. */
  lemma {:induction false} ConvertAllStops<T, C>(convert: T -> Outcome<C>, a: seq<T>, b: seq<T>)
    requires ConvertAll(convert, a).Raised?
    ensures ConvertAll(convert, a + b) == ConvertAll(convert, a)
    decreases |a|
  {
    assert (a + b)[0] == a[0];
    if convert(a[0]).Returned? {
      assert (a + b)[1..] == a[1..] + b;
      ConvertAllStops(convert, a[1..], b);
    }
  }

  /** Converting one more item after a successful prefix appends that item's
      result, or fails with that item's exception. */
  lemma {:induction false} ConvertAllSnoc<T, C>(convert: T -> Outcome<C>, a: seq<T>, item: T)
    requires ConvertAll(convert, a).Returned?
    ensures convert(item).Raised? ==> ConvertAll(convert, a + [item]) == Raised(convert(item).error)
    ensures convert(item).Returned? ==>
              ConvertAll(convert, a + [item]) == Returned(ConvertAll(convert, a).value + [convert(item).value])
    decreases |a|
  {
    if a == [] {
      assert a + [item] == [item];
      assert [item][1..] == [];
      assert ConvertAll(convert, [item][1..]) == Returned([]);
      if convert(item).Returned? {
        assert ConvertAll(convert, [item]) == Returned([convert(item).value] + []);
        assert [convert(item).value] + [] == [] + [convert(item).value];
      }
    } else {
      assert (a + [item])[0] == a[0];
      assert (a + [item])[1..] == a[1..] + [item];
      ConvertAllSnoc(convert, a[1..], item);
      if convert(item).Returned? {
        var head := convert(a[0]).value;
        var tail := ConvertAll(convert, a[1..]).value;
        assert [head] + (tail + [convert(item).value]) == ([head] + tail) + [convert(item).value];
      }
    }
  }

  /** The `schema_info` list for all DESCRIBE rows, or the first `KeyError`. */
  function DescribeRows(rows: seq<Row>): Outcome<seq<ColumnInfo>> {
    ConvertAll(ColumnOf, rows)
  }

  /** The loop of `get_schema` (mysql_server.py:208-217): each DESCRIBE row is
      converted in turn, `convert` being the dictionary literal for one row
      (`ColumnOf`), and appended; an exception ends the loop and is passed on. */
  method CollectAll<T, C>(convert: T -> Outcome<C>, items: seq<T>) returns (r: Outcome<seq<C>>)
    ensures r == ConvertAll(convert, items)
  {
    var collected: seq<C> := [];
    for i := 0 to |items|
      invariant ConvertAll(convert, items[..i]) == Returned(collected)
    {
      var item := convert(items[i]);
      assert items[..i + 1] == items[..i] + [items[i]];
      ConvertAllSnoc(convert, items[..i], items[i]);
      if item.Raised? {
        assert items == items[..i + 1] + items[i + 1..];
        ConvertAllStops(convert, items[..i + 1], items[i + 1..]);
        return Raised(item.error);
      }
      collected := collected + [item.value];
    }
    assert items[..|items|] == items;
    return Returned(collected);
  }

  datatype SchemaEnvelope = SchemaEnvelope(status: Status, message: string, table: string,
                                           columns: seq<ColumnInfo>, count: int) {
    predicate Consistent() {
      count == |columns| && (status == Error ==> columns == [])
    }
  }

  /** The statement `get_schema` executes: `f"DESCRIBE {table_name}"`. */
  function DescribeStatement(table: string): string {
    "DESCRIBE " + table
  }

  /** The dictionary `get_schema` returns once it holds a context
      (mysql_server.py:198-236). The table name is echoed whatever happens;
      on success there is exactly one entry per DESCRIBE row, in order; a
      database failure or a missing key gives an error with no columns. */
  function SchemaEnvelopeOf(table: string, fetched: Fetch): (r: SchemaEnvelope)
    ensures r.Consistent() && r.table == table
    ensures r.status == Success <==> fetched.Returned? && DescribeRows(fetched.value).Returned?
    ensures r.status == Success ==>
              && r.message == "Schema for " + table + " retrieved successfully"
              && |r.columns| == |fetched.value|
              && forall k :: 0 <= k < |r.columns| ==> ColumnOf(fetched.value[k]) == Returned(r.columns[k])
    ensures fetched.Raised? ==> r.message == "Failed to get schema for " + table + ": " + fetched.error
    ensures fetched.Returned? && DescribeRows(fetched.value).Raised? ==>
              r.message == "Failed to get schema for " + table + ": " + DescribeRows(fetched.value).error
  {
    var failed := "Failed to get schema for " + table + ": ";
    ConvertAllSucceeds(ColumnOf, if fetched.Returned? then fetched.value else []);
    match fetched
    case Raised(e) => SchemaEnvelope(Error, failed + e, table, [], 0)
    case Returned(rows) =>
      match DescribeRows(rows)
      case Raised(e) => SchemaEnvelope(Error, failed + e, table, [], 0)
      case Returned(columns) =>
        SchemaEnvelope(Success, "Schema for " + table + " retrieved successfully", table, columns, |columns|)
  }
}
