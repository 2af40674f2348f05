/** The server module's state and its tools and resource (mysql_server.py):
    `_global_context` is a field, `create_pool` and the database are supplied
    by the caller, and each tool first obtains the context. `get_context` is
    entered before each tool's `try`, so a failing `create_pool` escapes
    `query_data`, `list_tables` and `get_schema` as an exception, while
    `get_tables_resource` catches it. */
module MysqlServer {
  import opened Outcomes
  import opened Lifecycle
  import opened Rows
  import opened QueryGate
  import opened Tools
  import opened Resources

  class Server {
    /** `_global_context`. */
    var context: Option<Context>
    /** Every pool `create_pool` has returned, in order. */
    ghost var created: seq<Pool>
    /** How many times `create_pool` has been invoked. */
    ghost var invocations: nat
    /** Every statement the tools send to the database, in order: one entry
        per consultation of the database oracle, recorded also when acquiring
        the connection or the cursor fails before `cursor.execute` runs. */
    ghost var sent: seq<string>

    /** At most one pool was ever created, and it is the one stored. */
    ghost predicate Valid()
      reads this
    {
      && |created| <= 1
      && context == (if created == [] then None else Some(Context(created[0])))
    }

    /** The module as imported: no context yet. */
    constructor ()
      ensures Valid() && context == None
      ensures created == [] && invocations == 0 && sent == []
    {
      context := None;
      created := [];
      invocations := 0;
      sent := [];
    }

    /** The effect of one `get_context` call on the state. */
    twostate predicate ContextResolved(attempt: Outcome<Pool>)
      reads this
    {
      && context == Resolve(old(context), attempt).0
      && invocations == old(invocations) + (if old(context).None? then 1 else 0)
      && created == old(created) + (if old(context).None? && attempt.Returned? then [attempt.value] else [])
    }

    /** `get_context` (mysql_server.py:60-83): `attempt` is what
        `create_pool` would return or raise. */
    method GetContext(attempt: Outcome<Pool>) returns (r: Outcome<Context>)
      requires Valid()
      modifies this
      ensures Valid() && ContextResolved(attempt)
      ensures r == Resolve(old(context), attempt).1
      ensures sent == old(sent)
    {
      if context.None? {
        invocations := invocations + 1;
        match attempt
        case Raised(e) =>
          return Raised(e);
        case Returned(pool) =>
          context := Some(Context(pool));
          created := created + [pool];
      }
      r := Returned(context.value);
    }

    /** `query_data` (mysql_server.py:90-142). A refused query reaches no
        cursor; an admitted one sends exactly its rewritten text to the database. */
    method QueryData(query: string, limit: int, attempt: Outcome<Pool>, db: Database)
      returns (r: Outcome<QueryEnvelope>)
      requires Valid()
      modifies this
      ensures Valid() && ContextResolved(attempt)
      ensures var got := Resolve(old(context), attempt).1;
        r == if got.Raised? then Raised(got.error) else Returned(QueryDataEnvelope(query, limit, db))
      ensures sent == old(sent) + (if r.Returned? && IsSelectQuery(query) then [Rewrite(query, limit)] else [])
    {
      var got := GetContext(attempt);
      if got.Raised? {
        return Raised(got.error);
      }
      if IsSelectQuery(query) {
        sent := sent + [Rewrite(query, limit)];
      }
      r := Returned(QueryDataEnvelope(query, limit, db));
    }

    /** `list_tables` (mysql_server.py:145-184). */
    method ListTables(attempt: Outcome<Pool>, db: Database) returns (r: Outcome<TablesEnvelope>)
      requires Valid()
      modifies this
      ensures Valid() && ContextResolved(attempt)
      ensures var got := Resolve(old(context), attempt).1;
        r == if got.Raised? then Raised(got.error) else Returned(ListTablesEnvelope(db(ShowTables)))
      ensures sent == old(sent) + (if r.Returned? then [ShowTables] else [])
    {
      var got := GetContext(attempt);
      if got.Raised? {
        return Raised(got.error);
      }
      sent := sent + [ShowTables];
      var fetched := db(ShowTables);
      match fetched
      case Raised(e) =>
        r := Returned(TablesEnvelope(Error, TablesFailedPrefix + e, [], 0));
      case Returned(rows) =>
        var tables := CollectTableNames(rows);
        r := Returned(TablesEnvelope(Success, TablesOkMessage, tables, |tables|));
    }

    /** `get_schema` (mysql_server.py:187-236). */
    method GetSchema(table: string, attempt: Outcome<Pool>, db: Database) returns (r: Outcome<SchemaEnvelope>)
      requires Valid()
      modifies this
      ensures Valid() && ContextResolved(attempt)
      ensures var got := Resolve(old(context), attempt).1;
        r == if got.Raised? then Raised(got.error) else Returned(SchemaEnvelopeOf(table, db(DescribeStatement(table))))
      ensures sent == old(sent) + (if r.Returned? then [DescribeStatement(table)] else [])
    {
      var got := GetContext(attempt);
      if got.Raised? {
        return Raised(got.error);
      }
      var statement := DescribeStatement(table);
      sent := sent + [statement];
      var fetched := db(statement);
      var failed := "Failed to get schema for " + table + ": ";
      match fetched
      case Raised(e) =>
        r := Returned(SchemaEnvelope(Error, failed + e, table, [], 0));
      case Returned(rows) =>
        var columns := CollectAll(ColumnOf, rows);
        match columns
        case Raised(e) =>
          r := Returned(SchemaEnvelope(Error, failed + e, table, [], 0));
        case Returned(schema) =>
          r := Returned(SchemaEnvelope(Success, "Schema for " + table + " retrieved successfully",
                                       table, schema, |schema|));
    }

    /** `get_tables_resource` (mysql_server.py:253-266): never raises; an
        exception from `list_tables` becomes a line of text. */
    method GetTablesResource(attempt: Outcome<Pool>, db: Database) returns (text: string)
      requires Valid()
      modifies this
      ensures Valid() && ContextResolved(attempt)
      ensures var got := Resolve(old(context), attempt).1;
        text == if got.Raised? then FailedPrefix + got.error else RenderTables(ListTablesEnvelope(db(ShowTables)))
      ensures sent == old(sent) + (if Resolve(old(context), attempt).1.Returned? then [ShowTables] else [])
    {
      var listed := ListTables(attempt, db);
      match listed
      case Raised(e) =>
        text := FailedPrefix + e;
      case Returned(envelope) =>
        text := RenderTables(envelope);
    }
  }

  /** A client of the class: once one call has created the pool, a later call
      reuses it even when `create_pool` would now fail, and gives the same
      answer; a refused query sends nothing to the database. */
  method ReuseAfterCreation(query: string, limit: int, db: Database, pool: Pool)
  {
    var server := new Server();
    var first := server.QueryData(query, limit, Returned(pool), db);
    assert server.context == Some(Context(pool)) && first.Returned?;
    var before := server.sent;
    var second := server.QueryData(query, limit, Raised("connection refused"), db);
    assert second == first && server.invocations == 1 && server.created == [pool];
    assert !IsSelectQuery(query) ==> server.sent == before;
  }
}
