# mysql-mcp-server: a Dafny model of its core

`mysql_server.py` exposes a MySQL database to tool-calling agents through
three tools (`query_data`, `list_tables`, `get_schema`) and two text
resources. This project models the logic inside that glue and proves
properties of it:

- **the read-only gate and LIMIT rewrite** of `query_data`: the query is
  stripped and upper-cased for comparison only; anything not starting with
  SELECT is refused with a fixed message before any cursor is opened; when
  the upper-cased text nowhere contains `LIMIT`, ` LIMIT <limit>` is appended
  to the original, unstripped text (modules `Text`, `Decimal`, `QueryGate`);
- **the result envelopes** of the three tools: `count` always equals the
  length of the list, error envelopes carry empty lists, `list_tables` keeps
  the truthy first value of each row in order, `get_schema` turns each
  DESCRIBE row into a six-field entry and echoes the table name (modules
  `Rows`, `Tools`);
- **the rendering** of the `mysql://tables` resource (module `Resources`);
- **the lazy global context** `_global_context`: `create_pool` is called only
  while no context is stored, the context is stored only after `create_pool`
  returns, and every later call yields that same context (module `Lifecycle`
  for the pure state machine, class `MysqlServer.Server` for the module state
  and the tools that use it).

The database is an oracle: a function from statement text to either the
rows `fetchall()` returns or the text of the exception raised while
acquiring a connection, executing or fetching (`Tools.Database`). What
`create_pool` returns or raises is a parameter of each call
(`Outcomes.Outcome<Pool>`), consulted only when no context is stored.
Arguments are always passed: `query_data`'s default limit of 100 is
`QueryGate.DefaultLimit`, and a call without a limit is modelled by passing
it (`QueryGate.RewriteDefault`).
Python exceptions are the `Raised` variant of `Outcomes.Outcome`. A cursor row
is an ordered sequence of (column, value) cells, because Python dicts keep
insertion order and `list_tables` takes the first value. The class records,
as ghost state, every statement the tools send to the database (each
consultation of the oracle, including one where acquiring the connection or
cursor fails before `cursor.execute` runs) and every pool created, so that
"nothing is sent to the database" and "created at most once" are
stated outright.

Behaviour of the code that the model keeps as written:

- `get_context` is entered before each tool's `try`, so a failing
  `create_pool` escapes `query_data`, `list_tables` and `get_schema` as an
  exception (`Raised`) instead of becoming an error envelope. Of the
  modelled members, only `get_tables_resource` catches it (`get_status`,
  which is not modelled, catches it too).
- The module offers no write operation and no way to list or switch
  databases; some test scripts import names it does not define (see
  "## Left out").
- An admitted query is rewritten as it stands: nothing is removed from it,
  so a trailing `;` stays in front of the appended clause, and `limit` is
  not checked, so ` LIMIT <limit>` is appended for zero and negative
  numbers too.
- The LIMIT test is a bare substring test on the whole upper-cased text, so
  a LIMIT inside an identifier or literal suppresses the rewrite
  (`QueryGate.LimitInsideIdentifier`).
- A DESCRIBE row lacking one of the six keys raises `KeyError`, which the
  tool's `except` turns into an error envelope whose message ends in the
  quoted key.

## Model

| member | source | states |
|---|---|---|
| `Text.LStripShape` | mysql_server.py:104 | `lstrip()` keeps a suffix of the input, removes only whitespace, and keeps nothing that starts with whitespace |
| `Text.RStripShape` | mysql_server.py:104 | `rstrip()` keeps a prefix of the input, removes only whitespace, and keeps nothing that ends with whitespace |
| `Text.StripSlice` | mysql_server.py:104 | `strip()` keeps the slice of the input that starts where its leading whitespace ends |
| `Text.StripKeepsNonSpace` | mysql_server.py:104 | every non-whitespace character of the input lies inside what `strip()` keeps |
| `Text.StripShape` | mysql_server.py:104 | `strip()`: the result is the slice of the input after its leading whitespace, only whitespace lies outside it, and it neither starts nor ends with whitespace |
| `Text.StripPadding` | mysql_server.py:104 | stripping whitespace added around a text gives the same result as stripping the text |
| `Text.StripUpper` | mysql_server.py:104 | `strip()` and `upper()` commute |
| `Text.ContainsIff` | mysql_server.py:118 | Python's `p in s` holds exactly when `p` occurs at some position of `s` |
| `Text.OccurrenceOutsideStrip` | mysql_server.py:104 | an occurrence in the stripped text is an occurrence in the original, shifted by the leading whitespace |
| `Text.OccurrenceInsideStrip` | mysql_server.py:104 | an occurrence of a whitespace-free pattern in the original lies inside the stripped text |
| `Text.StripKeepsSolid` | mysql_server.py:104 | a whitespace-free pattern occurs in a text exactly when it occurs in the stripped text |
| `Text.SplitJoin` | mysql_server.py:260 | for a non-empty list of lines none of which holds a newline, splitting their `"\n".join` at newlines gives back the lines |
| `Decimal.NatToDecimal` | mysql_server.py:119 | the decimal rendering of a natural number is non-empty, all digits, with no leading zero unless it is `0` |
| `Decimal.IntToDecimal` | mysql_server.py:119 | `str(limit)` is canonical (at least one digit, no leading zero other than `0` itself, no minus before a zero) and has a leading minus exactly for negative numbers |
| `Decimal.CanonicalDigits` | mysql_server.py:119 | digits without a leading zero are the rendering of the number they denote |
| `Decimal.CanonicalIsStr` | mysql_server.py:119 | a canonical decimal is `str` of the integer it denotes, so `str(i)` is the only canonical decimal with value `i` |
| `Decimal.IntToDecimalRoundTrip` | mysql_server.py:119 | reading back the rendering of an integer gives the integer |
| `QueryGate.Rewrite` | mysql_server.py:117-119 | the executed text is the query unchanged when its normalised form contains LIMIT; otherwise it is the original text, then ` LIMIT `, then a canonical decimal that reads back as `limit`, which `Decimal.CanonicalIsStr` makes exactly `str(limit)` |
| `QueryGate.PrefixIff` | mysql_server.py:104-105 | a prefix test on the stripped, upper-cased text of a whitespace-free word holds exactly when the word, in any case, follows the leading whitespace |
| `QueryGate.WordAtStart` | mysql_server.py:104-105 | such a word can only start where the leading whitespace ends, and stripping keeps it |
| `QueryGate.GateIff` | mysql_server.py:104-105 | the gate admits exactly the queries whose leading whitespace is followed by SELECT in any case |
| `QueryGate.GateIgnoresCase` | mysql_server.py:104-105 | two queries that differ only in letter case get the same gate verdict and the same LIMIT verdict |
| `QueryGate.GateIgnoresPadding` | mysql_server.py:104-105 | leading and trailing whitespace changes neither verdict |
| `QueryGate.NormalizedHead` | mysql_server.py:104 | a query starting with a non-blank character normalises to a text starting with that character upper-cased |
| `QueryGate.RejectsWrites` | tests/test_live_mysql.py:121-146 | every statement starting with INSERT, UPDATE or DELETE, in any case, is refused by the gate |
| `QueryGate.NormalizedContains` | mysql_server.py:104-118 | the LIMIT-style test on the normalised text equals the test on the upper-cased original, for any whitespace-free word |
| `QueryGate.LimitAnywhere` | mysql_server.py:118 | the LIMIT test succeeds exactly when LIMIT occurs anywhere in the upper-cased original text |
| `QueryGate.ContainsUpperMiddle` | mysql_server.py:119 | an upper-case word placed between two texts occurs in the upper-cased whole |
| `QueryGate.RewriteMentionsLimit` | mysql_server.py:118-119 | the executed text always contains LIMIT |
| `QueryGate.RewriteIdempotent` | mysql_server.py:118-119 | rewriting an already rewritten query changes nothing, whatever the limit |
| `QueryGate.RewriteDefault` | mysql_server.py:90-119 | when the caller passes no limit, the default of 100 applies: a query not mentioning LIMIT is sent with ` LIMIT 100` appended |
| `QueryGate.LimitInsideIdentifier` | mysql_server.py:118 | a query holding LIMIT in any case anywhere, even inside a name such as `speed_limits`, is executed unchanged |
| `Rows.Lookup` | mysql_server.py:211-216 | `row[column]` finds the first cell with that column, and is absent exactly when no cell has it |
| `Tools.QueryDataEnvelope` | mysql_server.py:102-142 | `count` equals the number of rows and errors carry none; success exactly when the gate admits and the database answers; a refused query gets the fixed refusal; on success the rows are the database's rows for the rewritten text, unchanged and in order |
| `Tools.RefusedWithoutDatabase` | mysql_server.py:104-111 | a refused query's result does not depend on the database |
| `Tools.TableNames` | mysql_server.py:162-167 | the extracted names are at most one per row and all truthy |
| `Tools.TableNamesConcat` | mysql_server.py:162-167 | extraction is row by row: the names of a concatenation are the names of each part, in order |
| `Tools.TableNamesMembers` | mysql_server.py:162-167 | a value is listed exactly when it is truthy and is the first value of some row |
| `Tools.TableNamesKeepsAll` | mysql_server.py:162-167 | when every row leads with a truthy value there is one name per row, in row order |
| `Tools.CollectTableNames` | mysql_server.py:162-167 | the appending loop computes exactly the extracted names |
| `Tools.ListTablesEnvelope` | mysql_server.py:153-184 | `count` equals the number of tables and errors carry none; success exactly when the database answers, with the extracted names; a failure carries the prefixed exception text |
| `Tools.ColumnOfSpec` | mysql_server.py:210-217 | a DESCRIBE row converts exactly when it has all six keys, copying each value under its new key; otherwise the `KeyError` names the first of the six keys, in the order written, that the row lacks |
| `Tools.ConvertAllSucceeds` | mysql_server.py:208-217 | converting a sequence (the DESCRIBE rows, or the six keys of one row) succeeds exactly when every item converts, and then gives one result per item, in order, each from its own item |
| `Tools.ConvertAllFails` | mysql_server.py:208-217 | a failed conversion carries the exception of the first item that does not convert |
| `Tools.ConvertAllStops` | mysql_server.py:208-217 | once a prefix of the items fails, later items do not matter |
| `Tools.ConvertAllSnoc` | mysql_server.py:208-217 | one more item after a successful prefix appends its result or fails with its exception |
| `Tools.CollectAll` | mysql_server.py:208-217 | the appending loop computes exactly the conversion of all rows, stopping at the first exception |
| `Tools.SchemaEnvelopeOf` | mysql_server.py:198-236 | the table name is echoed in every outcome; `count` equals the number of columns and errors carry none; on success one entry per DESCRIBE row, in order, each built from its row |
| `Resources.TableLineSingle` | mysql_server.py:260 | a table line holds no newline unless the name does |
| `Resources.RenderedLines` | mysql_server.py:257-260 | a success with tables renders one line per table, in order, recovered by splitting at newlines |
| `Resources.ListingShowsTableNames` | mysql_server.py:256-260 | the resource text for a database's rows shows the names `list_tables` extracts, one line each in row order |
| `Resources.RenderDistinguishes` | mysql_server.py:257-264 | an error never renders as the empty-listing line, and a listing starts with its first table line |
| `Lifecycle.Resolve` | mysql_server.py:60-83 | a stored context is never replaced; a call yields exactly the stored context; while none is stored, a pool `create_pool` returns is stored and yielded, and a failed `create_pool` leaves nothing stored |
| `Lifecycle.RunKeepsContext` | mysql_server.py:64-83 | once a context is stored, every call yields it and creates nothing |
| `Lifecycle.FailedBeforeCons` | mysql_server.py:64-68 | all calls before position k+1 failed exactly when the first failed and the k after it did |
| `Lifecycle.RunCreatesOnce` | mysql_server.py:64-80 | starting from no context, `create_pool` succeeds at most once, its pool is the one finally stored, and the global stays `None` exactly when every call raised |
| `Lifecycle.RunInvokesUntilSuccess` | mysql_server.py:64-68 | `create_pool` is invoked by exactly the calls that find every earlier call failed |
| `Lifecycle.RunYieldsSameContext` | mysql_server.py:80-83 | after the first call that yields a context, every later call yields the identical context |
| `MysqlServer.Server.constructor` | mysql_server.py:52 | the module starts with no context, nothing created and nothing sent |
| `MysqlServer.Server.GetContext` | mysql_server.py:60-83 | follows `Lifecycle.Resolve`, counts the `create_pool` call only when no context was stored, records the created pool, and keeps at most one pool ever created |
| `MysqlServer.Server.QueryData` | mysql_server.py:89-142 | a context failure escapes as an exception; otherwise the result is `Tools.QueryDataEnvelope`, a refused query sends nothing to the database and an admitted one sends exactly its rewritten text |
| `MysqlServer.Server.ListTables` | mysql_server.py:144-184 | a context failure escapes as an exception; otherwise `SHOW TABLES` is sent to the database once and the result is `Tools.ListTablesEnvelope` of its answer |
| `MysqlServer.Server.GetSchema` | mysql_server.py:186-236 | a context failure escapes as an exception; otherwise `DESCRIBE <table>` is sent to the database once and the result is `Tools.SchemaEnvelopeOf` of its answer |
| `MysqlServer.Server.GetTablesResource` | mysql_server.py:252-266 | never raises: a context failure becomes the "Failed to get tables" line, otherwise the `list_tables` envelope is rendered |

## Left out

- `get_status` (mysql_server.py:239-250): a liveness probe whose only logic is an I/O round trip.
- Pool creation settings (host, port, credentials, database name, charset, autocommit, pool sizes), connection acquisition and cursors: they are `aiomysql` calls, replaced by the pool parameter and the database oracle.
- The FastMCP server, its decorators and transports, and the command-line entry point (mysql_server.py:86, 269-303): framework and I/O plumbing.
- Environment and `.env` configuration and logging (mysql_server.py:33-49, and the log lines inside each tool): read-once settings and side effects without logic.
- Concurrency: calls are modelled one after another. In the source two concurrent first calls can both find `_global_context` empty across the `await` of `create_pool` and both create a pool; the model does not capture that interleaving.
- Text.Upper: only ASCII letters are upper-cased. Python's `str.upper()` also maps other characters, some of them onto ASCII letters (for example U+017F, long s, becomes `S`, and U+0131, dotless i, becomes `I`), and some onto several characters (`ß` becomes `SS`). The model's gate and LIMIT verdicts can differ from the source's for such text.
- Rows.Value: column values are `None`, booleans, integers and text; floats, decimals, dates and bytes, and their `str()` forms, are not modelled.
- Rows: a cursor row is taken as delivered; how the driver collapses duplicate column names into one dict key is not modelled.
- Names imported by the test scripts but not defined in `mysql_server.py` (`list_databases`, `change_database`, `cleanup_global_context`, a `database=` argument, `success`/`error`/`row_count` keys) do not exist in the modelled code.
