/** The text of the `mysql://tables` resource (mysql_server.py:253-266): the
    `list_tables` envelope rendered one table per line, a fixed line when there
    are none, or the error message. */
module Resources {
  import opened Rows
  import opened Text
  import opened Tools

  const TablePrefix := "\U{1F4CA} "
  const NoTablesText := "\U{1F4CB} No tables found in database"
  const ErrorPrefix := "\U{274C} Error: "
  const FailedPrefix := "\U{274C} Failed to get tables: "

  /** `f"📊 {table}"`. */
  function TableLine(table: Value): string {
    TablePrefix + ToText(table)
  }

  function TableLines(tables: seq<Value>): (lines: seq<string>)
    ensures |lines| == |tables|
    ensures forall k :: 0 <= k < |tables| ==> lines[k] == TableLine(tables[k])
  {
    seq(|tables|, k requires 0 <= k < |tables| => TableLine(tables[k]))
  }

  /** What `get_tables_resource` makes of a `list_tables` envelope
      (mysql_server.py:257-264). */
  function RenderTables(envelope: TablesEnvelope): string {
    if envelope.status == Success then
      if envelope.tables != [] then JoinLines(TableLines(envelope.tables))
      else NoTablesText
    else ErrorPrefix + envelope.message
  }

  /** No table line spans two lines unless the table's own text does. */
  lemma TableLineSingle(table: Value)
    requires '\n' !in ToText(table)
    ensures '\n' !in TableLine(table)
  {
    assert '\n' !in TablePrefix;
  }

  /** A success with tables renders one line per table, in order: splitting the
      text at newlines gives back `"📊 " + name` for each table, provided no
      name holds a newline. */
  lemma RenderedLines(envelope: TablesEnvelope)
    requires envelope.status == Success && envelope.tables != []
    requires forall k :: 0 <= k < |envelope.tables| ==> '\n' !in ToText(envelope.tables[k])
    ensures SplitLines(RenderTables(envelope)) == TableLines(envelope.tables)
  {
    var lines := TableLines(envelope.tables);
    forall k | 0 <= k < |lines| ensures '\n' !in lines[k] {
      TableLineSingle(envelope.tables[k]);
    }
    SplitJoin(lines);
  }

  /** What the resource shows for a `list_tables` call on the database: the
      names that `list_tables` extracts, one line each in row order. */
  lemma ListingShowsTableNames(rows: seq<Row>)
    requires TableNames(rows) != []
    requires forall k :: 0 <= k < |TableNames(rows)| ==> '\n' !in ToText(TableNames(rows)[k])
    ensures SplitLines(RenderTables(ListTablesEnvelope(Outcomes.Returned(rows)))) == TableLines(TableNames(rows))
  {
    RenderedLines(ListTablesEnvelope(Outcomes.Returned(rows)));
  }

  /** An error never reads as an empty listing, and a listing of tables
      starts with its first table line. */
  lemma RenderDistinguishes(envelope: TablesEnvelope)
    ensures envelope.status == Error ==> RenderTables(envelope) != NoTablesText
    ensures envelope.status == Success && envelope.tables != [] ==>
              var first := TableLine(envelope.tables[0]);
              |RenderTables(envelope)| >= |first| && RenderTables(envelope)[..|first|] == first
  {
    if envelope.status == Error {
      assert RenderTables(envelope)[0] == ErrorPrefix[0] != NoTablesText[0];
    }
    if envelope.status == Success && envelope.tables != [] {
      var lines := TableLines(envelope.tables);
      JoinStartsWithFirst(lines);
    }
  }

  lemma JoinStartsWithFirst(lines: seq<string>)
    requires lines != []
    ensures |JoinLines(lines)| >= |lines[0]| && JoinLines(lines)[..|lines[0]|] == lines[0]
  {
  }
}
