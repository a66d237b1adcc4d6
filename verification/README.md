# blitz_agent result handling, in Dafny

This project models the deterministic core of blitz_agent, a Flask front end
that runs Brent Ozar's SQL Server diagnostic procedures (`sp_Blitz`,
`sp_BlitzIndex`, `sp_BlitzCache`), keeps their latest results in shelve
databases, filters and sorts them for display, and holds one chat with an LLM
agent per result row. The model covers six pieces:

- **Result store** (`ResultStore`, src/result_DAO.py). The working directory is
  a map from shelve base name to shelf contents. A shelf maps keys to stored
  values: a result row or a chat history. The operations are transition
  functions over that map:
  - refresh a snapshot;
  - read a row;
  - list rows with the derived `_rec_id` and `_analyzed` fields;
  - read and store a chat;
  - delete by name prefix.
- **Schema catalog** (`Catalog`, src/models.py). This covers:
  - the three record shapes;
  - `_rec_id`;
  - the `PROCEDURE_*` tables and `COLUMN_MAPPING`.
- **Pure transformations in src/db_connection.py**:
  - the ODBC connection string (`ConnectionString`);
  - the `GO` batch splitter of the install script (`InstallScript`);
  - the `EXEC` command with quote doubling and the row handling of
    `exec_blitz` (`ExecCommand`);
  - the value normaliser `safe_pretty_json` (`PrettyJson`);
  - the result-set mapping of `exec_more_info` (`MoreInfo`).

  A cursor is a sequence of result sets (`Cursor`).
- **List filters and sort** (`FilterSort`, src/app_filter_sort.py). They are
  generic over the record type. Request arguments and field accessors are
  explicit parameters.
- **Connection registry** (`DbRegistry`, src/db_DAO.py). It is a table keyed by
  positive ids, with a counter for the next id.
- **Helpers and chat protocol of the web app** (`App`, app.py). This covers:
  - display names;
  - redirects;
  - error classification and the error page;
  - the read-modify-write of a chat history.

`Text`, `Values`, `Sequences` and `Wrappers` hold the Python string,
value and list primitives the other modules share. Those include `str(int)`,
`int(str)`, `strip`, `split`/`join`, `bytes.hex`, comprehension filters and a
stable sort.

## Model

| member | source | states |
|---|---|---|
| ResultStore.Snapshot | src/result_DAO.py:37-42 | the shelf written by a refresh holds exactly one entry per row, under key `str(i)` for position `i`, all of them rows, and no `history` key |
| ResultStore.StoreRecords | src/result_DAO.py:37-42 | a refresh replaces the procedure's shelf by the new snapshot and leaves every other database, chats included, as it was |
| ResultStore.StoreRecordsReplaces | src/result_DAO.py:37-42 | a second refresh erases everything the first one wrote |
| ResultStore.GetRecord | src/result_DAO.py:31-34 | the value under key `str(rec_id)`, or a `KeyError` naming that key when it is absent |
| ResultStore.GetRecordAfterStore | src/result_DAO.py:31-42 | after a refresh, position `i` reads back row `i` when `0 <= i < n`, and every other position raises `KeyError` |
| ResultStore.GetAllRecords | src/result_DAO.py:16-28 | one entry per stored key in enumeration order; `_rec_id` is the position in that order, not the key; `_analyzed` holds iff that position's chat database exists |
| ResultStore.ListAfterStore | src/result_DAO.py:16-28 | listed right after a refresh, entry `i` is row `i` with `_rec_id` `i`, analysed iff a chat for `i` already existed |
| ResultStore.AnalyzedAfterChat | src/result_DAO.py:16-28 | after a refresh and a chat stored for position `j`, position `j` lists as analysed and every other position keeps its earlier flag |
| ResultStore.KvChatPathInjective | src/result_DAO.py:12-13 | distinct (procedure, position) pairs get distinct chat database names |
| ResultStore.KvPathIsNotChatPath | src/result_DAO.py:8-13 | a record database name is never a chat database name, unless the procedure name itself starts with `chat_` |
| ResultStore.GetChatHistory | src/result_DAO.py:45-50 | `None` iff the chat database does not exist; the empty list when it exists without a `history` key |
| ResultStore.StoreChatHistory | src/result_DAO.py:53-56 | creates or updates only that position's chat database |
| ResultStore.ChatRoundTrip | src/result_DAO.py:45-56 | a stored history reads back unchanged, and a second store fully replaces the first |
| ResultStore.ChatIsolation | src/result_DAO.py:53-56 | storing one position's history leaves every other history as it was |
| ResultStore.StoreRecordsKeepsChats | src/result_DAO.py:37-42 | a refresh leaves every chat history as it was |
| ResultStore.ClearAll | src/result_DAO.py:59-67 | exactly the databases whose name starts with `kv_` are removed |
| ResultStore.ClearAllEmpties | src/result_DAO.py:59-67 | after `clear_all` every snapshot is empty, listing yields nothing and every chat reads `None` |
| ResultStore.DeleteAllChatSessions | src/result_DAO.py:70-75 | exactly the `kv_chat_` databases are removed |
| ResultStore.DeleteChatSessions | src/result_DAO.py:78-90 | exactly the databases named `kv_chat_<proc>_...` are removed |
| ResultStore.DeleteChatSessionsScope | src/result_DAO.py:78-90 | deleting one procedure's chats removes all of them and no chat or snapshot of another catalogued procedure (`sp_Blitz` is a prefix of the other two names) |
| Catalog.FromName | src/models.py:72-76 | the procedure kind named by a string exists iff the string is one of the three canonical names |
| Catalog.NameRoundTrip | src/models.py:72-76 | every kind's canonical name is catalogued and maps back to that kind |
| Catalog.NewRecord | src/models.py:5-57 | a record built from `procedure_order` and `pc_id` alone has `_rec_id == procedure_order`, `_analyzed` false and every other field `None` |
| Catalog.FieldValue | src/models.py:5-57 | `getattr` finds a field iff the record's model declares it |
| Catalog.RequiredFieldsInEveryModel | src/models.py:10-11 | every model declares `procedure_order` and `pc_id` |
| Catalog.TablesShareKeys | src/models.py:72-120 | all six tables are keyed by exactly the three canonical names, and `PROCEDURE_MODELS` gives each name its own model |
| Catalog.ColumnMappingTargetsAreFields | src/models.py:103-120 | every mapping target is a field of that procedure's model, and no two raw columns map to one field |
| Catalog.DisplayKeysAndIdFieldsAreFields | src/models.py:78-100 | display keys and the id field are fields of the model; the id field is the model's first, optional field |
| ConnectionString.ConnectionStringSegments | src/db_connection.py:18-43 | when no caller value contains `;`, splitting the string on `;` gives back the ten `KEY=value` segments in order, with `SERVER=host,port` and the caller's database, user and password |
| InstallScript.Scan | src/db_connection.py:140-144 | every line is stripped and classified once, in order |
| InstallScript.ScanKeptLines | src/db_connection.py:140-144 | every line kept for a batch is non-empty and stripped; empty and comment lines are classified as skipped |
| InstallScript.BatchesAreBatches | src/db_connection.py:146-156 | no batch is empty and every batch holds only kept lines |
| InstallScript.BatchesKeepContent | src/db_connection.py:146-156 | the batches, concatenated, are exactly the kept lines in order: `GO` lines are dropped and a trailing batch without `GO` is kept |
| InstallScript.GoEndsBatch | src/db_connection.py:146-153 | a `GO` line closes the current batch and starts a new one: the batches of `a + [GO] + b` are those of `a` followed by those of `b` |
| InstallScript.BatchCount | src/db_connection.py:146-156 | at most one batch more than there are `GO` lines |
| InstallScript.SplitStatements | src/db_connection.py:137-156 | the loop computes the statements of the functional splitter |
| InstallScript.ScanLines | src/db_connection.py:140-144 | the per-line loop computes the scan |
| InstallScript.BatchLines | src/db_connection.py:146-156 | the batching loop with its pending list computes the functional batches, each joined with newlines |
| InstallScript.StatementsAreStripped | src/db_connection.py:158-162 | every statement is non-empty and unchanged by `strip()` |
| InstallScript.ExecutedCount | src/db_connection.py:158-171 | the statements counted as executed are exactly those the server accepts, in order |
| ExecCommand.DoubleQuotes | src/db_connection.py:467-470 | the escaped name is never shorter, and a name without quotes is unchanged |
| ExecCommand.QuoteRoundTrip | src/db_connection.py:466-471 | reading the quoted literal back, as SQL Server does, gives exactly the original name and ends at the closing quote |
| ExecCommand.ExecBlitzCommand | src/db_connection.py:464-473 | the command always starts `EXEC <procedure>`, and is just that iff no `@DatabaseName` is passed |
| ExecCommand.DatabaseNameLiteral | src/db_connection.py:466-471 | when the name is passed, the parameter text is followed by one literal whose value is exactly the database name |
| ExecCommand.ConvertRows | src/db_connection.py:484-490 | every row zipped with the columns and made safe, in order; the call raises iff some row's conversion raises |
| ExecCommand.ExecBlitzRows | src/db_connection.py:478-491 | the call raises iff the first described set has a row whose `Query Text` sqlparse rejects; otherwise failure with no rows iff no result set is described, and else every row of that set, zipped with its columns and made safe |
| Cursor.SkipUndescribed | src/db_connection.py:358-360 | the position reached skips exactly the leading sets without a description |
| PrettyJson.SafeValue | src/db_connection.py:330-342 | raises iff the key is `Query Text` and sqlparse rejects the value; `Query Text` is formatted; dates and times become ISO text; bytes become hex that decodes back to the bytes; other values are kept |
| PrettyJson.SafePrettyJson | src/db_connection.py:326-343 | raises iff the row has a `Query Text` that sqlparse rejects; otherwise same keys, `Query Text` formatted, every other value display-safe, safe values kept, and bytes become hex of twice their length that decodes back |
| PrettyJson.SafePrettyJsonIdempotent | src/db_connection.py:326-343 | converting a converted row again, when that does not raise, changes nothing except `Query Text` |
| Values.ZipRow | src/db_connection.py:372 | `dict(zip(...))` has exactly the columns paired with a value; a column's last occurrence decides its value |
| Values.HexRoundTrip | src/db_connection.py:338-340 | `bytes.fromhex(b.hex()) == b` |
| MoreInfo.IndexMappingTargetsDistinct | src/db_connection.py:380-404 | no index-detail field is fed by two columns |
| MoreInfo.MapColumns | src/db_connection.py:406-413 | a field is set iff its source column is present, to that column's (coerced) value, and no other field is set |
| MoreInfo.Coerce | src/db_connection.py:410-413 | a textual FK flag becomes 1 iff it lower-cases to `true`, else 0; every other value is kept |
| MoreInfo.ForeignKeyFlag | src/db_connection.py:372-413 | a row gives an index detail iff its conversion does not raise; the detail has the FK field iff the row has the FK column; text becomes 0 or 1 and any other value is copied |
| Wrappers.MapUntilFailure | src/db_connection.py:368-417 | a loop over steps that may raise yields the results of the steps before the first failure, in order, and reports a failure iff some step fails |
| MoreInfo.IndexDetails | src/db_connection.py:357-417 | after the undescribed sets, rows 1.. of the first described set give one detail each, carrying the record's `pbi_id`, until a row raises; it raises iff some such row does, and then the details are those of the rows before it |
| MoreInfo.ExecMoreInfo | src/db_connection.py:345-442 | the details appended before any failure; findings only when no index row raised |
| MoreInfo.Findings | src/db_connection.py:420-442 | findings come only from the set right after that one, when it is described, one per row with absent columns read as `None` |
| MoreInfo.NoDescriptionNoOutput | src/db_connection.py:358-363 | with no described set there are no details, no findings and nothing raises |
| FilterSort.FilterPriority | src/app_filter_sort.py:5-15 | a record is kept iff its priority is present, non-negative and (for an integer `max_priority`) at most the cap, with every copy of a kept record kept; the result is a subsequence |
| FilterSort.FilterPriorityIsOneFilter | src/app_filter_sort.py:5-15 | the two comprehensions equal one comprehension with the combined test |
| FilterSort.FilterBlitz | src/app_filter_sort.py:18-44 | `deselect_all` empties the list; no selection keeps it; otherwise a record is kept iff its finding is selected, every copy of it, in input order |
| FilterSort.GroupOf | src/app_filter_sort.py:49-51 | a finding's group is the text before its first `:`; findings without `:` have none |
| FilterSort.FindingGroups | src/app_filter_sort.py:47-54 | strictly sorted, and holds a string iff some record's finding has that group |
| FilterSort.FilterBlitzIndex | src/app_filter_sort.py:46-78 | groups as above; `deselect_all` empties records and selection; no selection keeps the records and selects all groups; otherwise a record is kept iff its group is selected; with a selection every copy of a kept record is kept |
| FilterSort.FilterBlitzCache | src/app_filter_sort.py:80-115 | a record is kept iff it meets every given, parseable threshold, every copy of it; the result is a subsequence |
| FilterSort.AtLeastIsFilter | src/app_filter_sort.py:83-89 | one threshold stage is one comprehension; an absent, empty or unparseable threshold keeps every record |
| FilterSort.ThresholdsAreOneFilter | src/app_filter_sort.py:80-115 | the four threshold stages in turn equal one comprehension that tests all four thresholds |
| FilterSort.SortRecords | src/app_filter_sort.py:117-125 | for a sortable column, a permutation sorted by the metric (`None` as 0), descending iff the order is `desc`; any other column leaves the list as it was |
| FilterSort.SortRecordsStable | src/app_filter_sort.py:117-125 | records with equal keys keep their relative order |
| FilterSort.InWindowRecords | src/app_filter_sort.py:136-169 | a record is kept iff it has an hour within the inclusive window, which wraps past midnight when start > end; every copy of a kept record is kept, in input order |
| FilterSort.FilterByHourAsWritten | src/app_filter_sort.py:127-171 | the source's result is `None` iff either hour is missing or empty |
| FilterSort.HourWindow | src/app_filter_sort.py:128-131 | a window exists iff both hours are given and both read as integers, and it is their values |
| FilterSort.FilterByHour | src/app_filter_sort.py:127-171 | for two integer hours, every copy of exactly the records in the window; unchanged records for a non-integer or missing hour |
| FilterSort.FilterByHourAgrees | src/app_filter_sort.py:127-171 | with both hours given the source returns a list, and it equals the corrected filter |
| FilterSort.CacheView | app.py:416-431 | the Blitz Cache page shows every copy of exactly the input records that meet every threshold and lie in the hour window, when there is one; sorted by the sort column when it is one of the four metrics, in input order otherwise |
| FilterSort.CacheFiltersAreOneFilter | app.py:416-427 | thresholds followed by the hour window equal one comprehension that tests the thresholds and, when there is a window, the hour |
| DbRegistry.MakeConnection | src/db_DAO.py:6-16 | a connection is built iff name, user, password and host have 1..100 characters and the port is in 1..65535 |
| DbRegistry.GetDb | src/db_DAO.py:19-58 | fails iff the id is not positive; otherwise the row with its id, or `None` iff the id is unknown |
| DbRegistry.InsertDb | src/db_DAO.py:61-92 | the connection is stored under a fresh positive id and nothing else changes |
| DbRegistry.InsertThenGet | src/db_DAO.py:61-132 | an inserted connection reads back under its id and is found by host, port and user; other ids read as before |
| DbRegistry.InsertTwiceDistinct | src/db_DAO.py:81-90 | inserting the same connection twice gives two distinct ids |
| DbRegistry.ExistsDb | src/db_DAO.py:95-132 | host, then port, then user are validated in that order; the result is -1 iff no row matches all three, otherwise a matching id |
| DbRegistry.DeleteDb | src/db_DAO.py:135-159 | fails iff the id is not positive; otherwise removes that row only and returns true iff it existed |
| DbRegistry.DeleteThenGet | src/db_DAO.py:135-159 | after a delete the id reads `None`, `exists_db` no longer returns it, and other ids read as before |
| DbRegistry.DeleteTwice | src/db_DAO.py:155-157 | a second delete of the same id reports that nothing was removed |
| DbRegistry.GetAllDbConnections | src/db_DAO.py:162-190 | every stored row exactly once, in ascending id order |
| App.GetProcedureName | app.py:25-27 | a menu label becomes its catalogued procedure name; any other string is returned unchanged |
| App.GetProcedureNameCanonical | app.py:25-27 | the result is catalogued iff the input was a menu label or already a procedure name, and translating twice changes nothing |
| App.IdMappingAgreesWithCatalog | app.py:144-148 | `PROCEDURES_ID_MAPPING` equals the catalog's `PROCEDURE_ID_FIELDS` |
| App.RecordIdField | app.py:117 | the id field of a catalogued procedure, and `pb_id` for any other name |
| App.RedirectToDisplayName | app.py:29-36 | `Administration` and `Recommendations` go to their own pages and every other name to its procedure page |
| App.RedirectInjective | app.py:29-36 | two names redirect to the same place only if they are equal |
| App.Classify | app.py:50-61 | on the lower-cased text: timeout, then login, then invalid object name, then network or host, otherwise generic |
| App.ClassifyIgnoresCase | app.py:50 | ASCII upper- or lower-casing of the error text does not change its class |
| App.DatabaseErrorResponse | app.py:38-81 | status 500; the message of the error's class; the error text as details; a back link iff a display name is given, pointing at that procedure's page |
| App.AnalyzePost | app.py:478-495 | the stored history (or `[]`) gains exactly the user's turn and then the agent's; when the agent raises nothing is stored; no database other than this record's chat database changes |
| App.AnalyzePostExtends | app.py:478-495 | earlier turns stay in place, two turns are appended, and every other history is unchanged |
| App.InitialAnalysis | app.py:93-134 | the user turn is the formatted record; the two-turn history is stored only when the agent succeeds, and on failure an error reply is shown and nothing is stored; no database other than this record's chat database changes |
| App.AnalyzeGet | app.py:497-501 | a non-empty stored history is shown as it is; otherwise the initial analysis runs |
| App.AnalyzeGetTwice | app.py:497-501 | after a successful first analysis, opening the page again shows the same history; after a failed one it runs the analysis again |
| Text.ParseIntRoundTrip | src/app_filter_sort.py:10 | `int(str(i)) == i` |
| Text.IntToStringInjective | src/result_DAO.py:42 | distinct positions get distinct keys `str(i)` |
| Text.Strip | src/db_connection.py:141 | `strip()` removes exactly the whitespace at both ends |
| Text.JoinSplit | src/db_connection.py:140 | joining the pieces of `split` with the same separator rebuilds the string |
| Text.SplitJoin | src/db_connection.py:149 | splitting a join of separator-free parts gives back the parts |
| Sequences.SortByStable | src/app_filter_sort.py:121-123 | Python's `sorted` is stable: the elements with a given key appear in input order |
| Sequences.FilterCount | src/app_filter_sort.py:40-41 | a list comprehension keeps every copy of an element that passes its test and no copy of one that fails |

## Left out

- Database, network and file I/O are not modelled. That covers pyodbc, SQLite, shelve/dbm file formats, `glob`, the script download and `os.path.exists`. Files are a map, cursors are a sequence of result sets, and the server's acceptance of a statement is a parameter.
- The `.dat`/`.dir`/`.bak`/`.db` file triplet of one shelve database is one map entry. A removal by prefix removes the whole database.
- ResultStore.GetChatHistory, ResultStore.GetAllRecords, ResultStore.ChatRoundTrip, ResultStore.AnalyzedAfterChat, ResultStore.ClearAll and ResultStore.ClearAllEmpties assume the dbm.dumb backend. The source tests whether a chat database exists by looking for `<name>.dat` (src/result_DAO.py:24-25, 47). `clear_all` and `delete_all_chat_sessions` remove only `.dat`, `.bak` and `.dir` files (src/result_DAO.py:61-62, 71). Only dbm.dumb writes files with those names. Under dbm.gnu, dbm.ndbm or dbm.sqlite3 (the default from Python 3.13), a stored chat reads back as `None`, `_analyzed` stays false and `clear_all` removes nothing. The model does not cover those backends.
- The order in which dbm enumerates a shelf is a parameter of `ResultStore.GetAllRecords`. The lemmas use insertion order, which is an assumption about dbm and not a guarantee.
- `shelve.open` creates an empty database as a side effect of reading; this is not modelled. Only `store_chat_history` creates a chat database.
- `sqlparse.format` of `Query Text`, Python `float()` and the agent are parameters. `sqlparse.format` returns an optional value; `None` stands for the `TypeError` it raises on a non-text value such as `NULL`, and that failure is carried through `safe_pretty_json`, `exec_blitz` and `exec_more_info`. Which values sqlparse rejects is left to the parameter. The agent's reply or exception is an outcome value.
- `url_for`, templates, `flash`, sessions and the fixed HTML around the error message are not modelled. A redirect target is a `Route`, and the back link is built from a given URL.
- Python `str.lower`/`upper` are modelled for ASCII letters only. `str.isspace`, which `strip()` and `int()` use, is modelled with its full Unicode whitespace set. `int()` accepts surrounding whitespace, an optional sign and ASCII digits; it does not accept underscores or non-ASCII digits.
- App.ClassifyIgnoresCase: holds for the ASCII case mapping only. Python's full Unicode mapping breaks it: `'logın failed'` (dotless i) is generic, but its `.upper()`, `'LOGIN FAILED'`, is a login failure, and `'hoſt'` (long s) behaves the same way against `host`.
- FilterSort.FilterBlitzCache, FilterSort.SortRecords and FilterSort.CacheView: Python floats are modelled as reals, so `nan` and `inf` thresholds and metrics are not modelled. With `min_avg_cpu=nan`, `float()` succeeds and every `>=` at src/app_filter_sort.py:87 is false, so the source shows an empty page. In the model, `parseFloat` can only reject the text, which ignores the filter, or return a finite threshold.
- The datetime string parsing in `filter_by_hour` is not modelled. A record's hour is an `Option<int>` accessor.
- The fields `executions`, `total_reads` and `last_execution`, `DBIndexRecord` and `DBFindingRecord` do not exist in src/models.py. Records used by the filters and by `exec_more_info` are therefore generic, with accessor functions.
- The SQLite schema is not part of this model. Ids come from a counter that never reuses an id, as an `AUTOINCREMENT` column would.
- DbRegistry.ExistsDb: `LIMIT 1` without `ORDER BY` may return any matching id. The model returns the smallest one, while its contract promises only some matching id.
- The db_id-aware DAO that app.py calls is not part of this model. That covers recommendations, `process_more_info` and index details. The record lookup in `analyze` is therefore not modelled.
- App.InitialAnalysis: the text of the user turn (the record rendered as `**key**: value` lines) is a parameter.
- Catalog.FieldValue: pydantic validation and coercion of field values are not modelled.
- Flask routes that only call into the modelled functions, such as `init`, `clear_all` and `select_database`, are not modelled. The same goes for the module-level current database id.

## Findings

| source | as written | input that shows it | evidently intended | confidence | as-written member | corrected member |
|---|---|---|---|---|---|---|
| src/app_filter_sort.py:127-171 | `filter_by_hour` returns a list only inside `if start_hour and end_hour:`, and otherwise falls off the end and returns `None`; app.py:427 assigns that result to `blitz_records` | opening the Blitz Cache page without `start_hour` (`start_hour = None`) | return the records unchanged when either hour is missing, as it does for non-integer hours | not executed | FilterSort.FilterByHourAsWritten (with FilterSort.NoWindowLosesRecords) | FilterSort.FilterByHour (with FilterSort.FilterByHourAgrees), used by FilterSort.CacheView |
