# A verified model of MariaDB Connector/C++

This Dafny project models the parts of the connector whose behaviour is hardest to see from the
code, and proves for-all statements about them: over every stream of server responses, every
interleaving of pooled handles, every identifier, every table definition. Each loop and each
object that the connector updates in place is a Dafny method, proved equal to a function of its
inputs or of the old state; the properties are lemmas about those functions.

`dafny verify dfyconfig.toml` checks everything.

## The modules

| module | models |
|---|---|
| `Strings` | search, white space, decimal numerals: what the others share |
| `Replace` | `replaceInternal` of `src/util/String.cpp` and the identifier quoting built on it |
| `Identifiers` | the parser of quoted names, its grammar, and their agreement |
| `ForeignKeys`, `ClauseGrammar`, `Containment`, `ReferenceRules`, `PlainLines`, `ImportedKeys`, `KeyOrder`, `KeyListing` | reading foreign keys from `SHOW CREATE TABLE`: clause parser and its grammar, action search, the other lines, whole tables, row order, and the fallback when that fails |
| `ClientInfo` | the string literal of `buildClientQuery` against a reference SQL lexer |
| `Savepoints` | savepoint identifiers |
| `ResultStream`, `ResultFeed`, `ResultRuns`, `RowsKept`, `ActiveResult`, `WireSafety`, `LazyEager`, `ResultsObject` | `Results` and the result sets it reads, text and binary, buffered and streamed: the state machine, what it records, what every run keeps, what becomes of the rows, when it is the active result, safety of the wire, lazy against eager reading, and the object itself |
| `Session`, `ConnectionObject` | the dirty bits of a connection and `reset`, as functions and as the object |
| `Pool`, `PoolRuns`, `PoolClosing` | handles, pool connections and sessions as a transition system, its runs, and what closing does in them |
| `CArray` | owned and borrowed arrays on an explicit heap |
| `Batches` | recorded parameter sets and the one-by-one batch |

## What the proofs found

Where a property one would expect is false of the code, the model keeps the code, a lemma gives an
input, and another lemma says exactly when the property holds.

- `replaceInternal` moves its search position by the length of the substitute from the position
  of the previous search, not of the match. ``quoteIdentifier("a`b")`` therefore writes three
  backticks. The quoting is right exactly when all backticks of the name come first, and yet
  `unquoteIdentifier` undoes it for every name (`Replace.QuoteIdentifierCorrectIff`,
  `Replace.UnquoteUndoesQuote`).
- The referential action of a clause is searched for in the whole line, so a name can be taken
  for one, and `SET DEFAULT` is not searched for at all (`ReferenceRules.RuleReadIff`,
  `ReferenceRules.MisleadingName`, `ReferenceRules.SetDefaultUnread`).
- `getMoreResults` takes a count for the end when its low 32 bits are all ones, and forgets the
  rest of the stream (`LazyEager.BadGoesWrong`). With a fetch size, a final result set with at
  least that many rows is followed by a move on an exhausted wire; a shorter one ends cleanly
  (`LazyEager.TailGoesWrong`).
- `getMoreResults()` asks by default for the current result set to be closed, while it holds the
  connection's mutex; closing a result set that has not been read to its end locks that mutex
  again. So on a streamed result set the plain call never returns, in a program with one thread
  (`LazyEager.DefaultCallBlocks`). `LazyEager.AnswersIff` says exactly on which streams all runs
  go right; `LazyEager.GentleAnswersIff` says it for runs that release each result once and never
  close one there that is still on the wire.
- A binary result set that is streamed several rows at a time is not read to its end by
  `cacheCompleteLocally`, which finds the rows read so far and returns. Keeping it and moving on
  moves past unread rows (`WireSafety.WireSafeIff`); draining from it stops at once and loses the
  rest of the stream (`LazyEager.StuckGoesWrong`).
- `loadFully(true)` empties the wire but leaves the flag that says otherwise
  (`ResultStream.LoadFullySkipsIff`).
- A result set released twice loses its pointer. For a buffered binary result the next move
  overwrites its rows, for a streamed one of either kind the move goes past them; a buffered text
  result owns its rows and is not harmed (`WireSafety.AnyReleaseSafeIff`,
  `WireSafety.SecondReleaseUnsafe`).
- `reset` needs a default isolation level that nothing in the connector configures
  (`Session.UnconfiguredResetThrows`); it returns normally exactly when every call it has to make
  is possible and answered (`Session.ResetReturnsIff`).
- COM_RESET_CONNECTION returns auto-commit to the server's global value, not to the `autocommit`
  option, and the driver keeps the mode it had on record. So a session nobody touched can be reset
  away from its default (`Session.UntouchedResetAway`), and setting the recorded mode afterwards
  does nothing (`Session.StaleRecordIgnored`).
- The pool resets a fresh handle, whose dirty bits are clear; the bits that were set are on the
  handle being closed. Without COM_RESET_CONNECTION a session is handed on with whatever the
  previous owner left; with it, auto-commit and isolation become the server's global values and
  the rest is handed on (`PoolRuns.HandoverIff`, `PoolRuns.AutoCommitLeaks`).
- A named check constraint is taken for a foreign key and cannot be parsed, so for a table with one
  the definition is given up and the information schema is queried instead
  (`ImportedKeys.CheckMisread`, `KeyListing.CheckedTableQueried`). That fallback catches
  `std::runtime_error` only; where the parser runs off the end of a line, `std::out_of_range`
  escapes, and a column name with newlines in it is enough for that
  (`KeyListing.BrokenNameEscapes`).
- A statement whose first response is an update count is not the protocol's active result until a
  result set has been read, so the next statement does not drain it (`ActiveResult.ActiveIff`,
  `ActiveResult.UpdateFirstInactive`).
- Two different savepoints can share an SQL identifier (`Savepoints.NamesClashIff`).
- With `continueBatchOnError` an earlier failure with a message is lost when the last one has
  none (`Batches.FailuresReportedIff`, `Batches.FailureLost`).
- The documentation of `enquoteIdentifier` says it refuses names with an embedded NUL; the code
  searches for an empty text instead, and never refuses (`Replace.EnquoteIdentifier`).

## Modelling choices

- A string is a sequence of characters that stand for bytes; `isspace` is that of the "C" locale.
- The server is a parameter: a stream is any sequence of update counts and result sets, a protocol
  call has any reply, and a failed one may leave its setting at any value.
- Result sets are named by their position in the stream; handles, pool connections and sessions by
  their position in tables. The state of a result set is where its rows are: on the wire, in the
  client library's buffer for a prepared statement (which the next result overwrites), its own, or
  discarded. Constructing a streamed one reads one batch, so a shorter one ends there.
- The protocol's own bit for further results is kept apart from what is pending: streaming clears
  it, and only the end of the rows restores it.
- What the client library does when it is asked to move past unread rows, or on an exhausted wire,
  is left open. A run ends with the call on an exhausted wire, as it does with a call that never
  returns; moves past unread rows are counted, and a run says something up to the first.
- `isClosed()` and `isExplicitClosed()` are kept apart: a lost session is closed in the first sense
  only, and `createStatement` asks for the second.
- Setters are modelled over a protocol whose every call may fail. The connector's own
  `setReadonly` is an assignment, and what follows from that is stated separately
  (`Session.SettersKeepSound`).
- COM_RESET_CONNECTION returns session variables to the server's global values, as the option
  `useResetConnection` documents; default database, socket timeout and read-only mode are not
  among them.
- Steps of different handles interleave freely, and `close()` and the destructor take two steps
  each, because another thread may check the session out in between.

## Model

| member | source | states |
|---|---|---|
| Replace.ReplaceInternal | src/util/String.cpp:64-76 | the in-place loop computes the function of the unread suffix, for every text, substring and substitute |
| Replace.DoublingStretches | src/util/String.cpp:64-76 | closed form of the driver's doubling: a backtick behind a gap of d other characters comes out as d + 2 backticks |
| Replace.HalvingCollapses | src/util/String.cpp:64-76 | the faulty halving maps every stretched text back to the text it came from |
| Replace.UnquoteUndoesQuote | src/MariaDbConnection.cpp:85-96 | unquoting the quoted form of any string gives the string |
| Replace.QuoteIdentifierCorrectIff | src/MariaDbConnection.cpp:85-88 | quoting yields the correct SQL text if and only if every backtick precedes every other character |
| Replace.QuoteIdentifierWrong | src/MariaDbConnection.cpp:85-88 | a three-character name that is quoted wrongly, and the right text |
| Replace.IsSimpleIdentifier | src/MariaDbStatement.cpp:404-418 | true exactly for a name in backticks whose inside is letters, digits, `$` and `_` |
| Replace.EnquoteIdentifier | src/MariaDbStatement.cpp:372-392 | equals `quoteIdentifier` unless the name is already in backticks; otherwise quotes the inside, or keeps a simple name |
| Identifiers.SkipWhiteLoop | src/MariaDbDatabaseMetaData.cpp:78-87 | the loop finds the first position that is not white space |
| Identifiers.MatchesKeyword | src/MariaDbDatabaseMetaData.cpp:159-168 | succeeds exactly where the keyword stands and ends right behind it |
| Identifiers.SkipKeywordLoop | src/MariaDbDatabaseMetaData.cpp:159-168 | the loop with its two ways of failing is that matcher, behind white space |
| Identifiers.ParseIdentifier | src/MariaDbDatabaseMetaData.cpp:89-126 | on any text terminates, and a success lies strictly beyond the start and inside the text |
| Identifiers.ParseIdentifierLoop | src/MariaDbDatabaseMetaData.cpp:89-126 | the loop counting backticks, with its recursion for a schema, computes that function |
| Identifiers.ParsesExactly | src/MariaDbDatabaseMetaData.cpp:89-126 | returns a name at a position if and only if the grammar `[schema .] name` of correctly quoted names reads it there |
| Identifiers.ScanReads | src/MariaDbDatabaseMetaData.cpp:98-123 | completeness of the scan: a doubled name and its closing backtick are collected whatever backticks the name holds |
| Identifiers.ScanFound | src/MariaDbDatabaseMetaData.cpp:98-123 | soundness of the scan: what was collected stood there, doubled, up to a closing backtick |
| Identifiers.ParsesQuotedName | src/MariaDbDatabaseMetaData.cpp:89-126 | a correctly quoted name followed by anything but a backtick or a dot parses to itself, positioned behind it |
| Identifiers.ParseUndoesQuoteIff | src/MariaDbConnection.cpp:85-88 | the parser reads the driver's own quoting of a name back if and only if the name's backticks all come first |
| ForeignKeys.ParseIdentifierList | src/MariaDbDatabaseMetaData.cpp:128-157 | on any text terminates, and a success lies strictly beyond the start and inside the text |
| ForeignKeys.ParseIdentifierListLoop | src/MariaDbDatabaseMetaData.cpp:128-157 | the loop returns, fails or advances on every turn and computes that function |
| ForeignKeys.ParseClauseSteps | src/MariaDbDatabaseMetaData.cpp:240-257 | the chain of parsing steps, with the first failure ending it |
| ClauseGrammar.ListParsesExactly | src/MariaDbDatabaseMetaData.cpp:128-157 | returns names at a position if and only if the grammar reads them there: an opening parenthesis, names and commas in any order, a closing one |
| ClauseGrammar.ClauseParsesExactly | src/MariaDbDatabaseMetaData.cpp:240-257 | accepts a line with a given result if and only if the grammar of clauses reads it so: three keywords, two names and two lists of equal length, in this order, whatever follows |
| ClauseGrammar.KeywordFails | src/MariaDbDatabaseMetaData.cpp:159-168 | a missing keyword is reported at the first character that differs; where the text ends first, the failure is that of `at()` |
| ForeignKeys.ParsesPrintedClause | src/MariaDbDatabaseMetaData.cpp:240-257 | every printed clause parses to its constraint name, columns, optional schema, table and referenced columns, in order |
| ReferenceRules.ReferenceActions | src/MariaDbDatabaseMetaData.cpp:258-268 | the loop reports for each rule the found action that is last in its search order |
| ReferenceRules.LastFoundIs | src/MariaDbDatabaseMetaData.cpp:258-268 | the reported action was found, or is RESTRICT, and no found one ranks higher |
| ReferenceRules.ClauseContains | src/MariaDbDatabaseMetaData.cpp:262-267 | an action text occurs in a printed clause if and only if it was printed as that action or one of the names contains it |
| ReferenceRules.RuleReadIff | src/MariaDbDatabaseMetaData.cpp:258-268 | the rule reported for a printed clause is its own if and only if it is not SET DEFAULT and no name contains an action text that the search prefers |
| ReferenceRules.MisleadingName | src/MariaDbDatabaseMetaData.cpp:258-268 | a constraint name for which a clause without actions is reported with another rule |
| ReferenceRules.SetDefaultUnread | src/MariaDbDatabaseMetaData.cpp:261-267 | every clause with SET DEFAULT and no action text in its names is reported as RESTRICT |
| ImportedKeys.GetImportedKeys | src/MariaDbDatabaseMetaData.cpp:207-334 | for every table definition: the first line that fails, or all rows of all key lines, sorted, none added or lost; which lines those are is stated by `KeyLineIff`, what they give by `ClauseParsesExactly` and `KeyLineRows` |
| ImportedKeys.KeyLineIff | src/MariaDbDatabaseMetaData.cpp:235-237 | a trimmed line is taken for a key if and only if it begins with CONSTRAINT or holds FOREIGN KEY somewhere |
| ImportedKeys.PlainSkipped | src/MariaDbDatabaseMetaData.cpp:233-238 | a printed head, column, PRIMARY KEY, KEY, UNIQUE, FULLTEXT or SPATIAL KEY or closing line, whatever its names, is passed over unless a name, definition or option holds FOREIGN KEY |
| ImportedKeys.PrimaryKeySkipped | src/MariaDbDatabaseMetaData.cpp:233-238 | the usual primary key line yields no rows and no failure |
| ImportedKeys.OrdinaryTableRows | src/MariaDbDatabaseMetaData.cpp:229-307 | a table of such lines and of foreign keys yields exactly the foreign keys' rows |
| ImportedKeys.TrimSplits | src/SQLString.cpp:96-115 | trimming cuts all white space off both ends and nothing else, of any text |
| ImportedKeys.LinesOfJoin | src/util/String.cpp:37-61 | splitting undoes joining at newlines |
| ImportedKeys.TrimPadded | src/SQLString.cpp:96-115 | trimming removes exactly the padding |
| ImportedKeys.KeyLineRows | src/MariaDbDatabaseMetaData.cpp:233-306 | an indented printed clause, comma or not, yields one row for each pair of columns, KEY_SEQ 1 to n, with its names and rules |
| ImportedKeys.PrintedTableRows | src/MariaDbDatabaseMetaData.cpp:229-307 | a whole printed table, any number of keys among other lines that are passed over, yields exactly the rows its clauses stand for |
| ImportedKeys.MisreadFails | src/MariaDbDatabaseMetaData.cpp:229-257 | the first line that is taken for a key and cannot be parsed fails the whole table, with its error |
| ImportedKeys.CheckMisread | src/MariaDbDatabaseMetaData.cpp:233-244 | every named check constraint, indented, with or without a comma, is such a line, and its error is a parse error |
| KeyListing.ListImportedKeys | src/MariaDbDatabaseMetaData.cpp:400-422 | the sorted rows of the definition if it parses; the information schema without a schema, without a definition and after a parse error; an exception without a table; and `std::out_of_range` is not caught |
| KeyListing.CheckedTableQueried | src/MariaDbDatabaseMetaData.cpp:416-421 | every table whose only unparsable lines are named check constraints, at least one, ends in a parse error and so in the query |
| KeyListing.BrokenNameEscapes | src/MariaDbDatabaseMetaData.cpp:89-94 | every table with a column name that has CONSTRAINT as a line of its own, the rest of it being passed over and nothing in front failing, ends in `std::out_of_range` |
| KeyOrder.BeforeIsRowOrder | src/MariaDbDatabaseMetaData.cpp:310-331 | the comparator is the sign of a structural three-way comparison |
| KeyOrder.StrictWeakOrder | src/MariaDbDatabaseMetaData.cpp:310-331 | for any rows, embedded NULs included: irreflexive, transitive, and incomparability is transitive |
| KeyOrder.NumeralOrderIsNumeric | src/MariaDbDatabaseMetaData.cpp:323-326 | comparing decimal numerals by length and then bytewise is comparing the numbers |
| KeyOrder.BeforeIsLexicographic | src/MariaDbDatabaseMetaData.cpp:310-331 | for names without NUL the order is lexicographic on schema, table and numeric KEY_SEQ |
| KeyOrder.SortOrders | src/MariaDbDatabaseMetaData.cpp:310-331 | the rows of every table can be put into an order that the comparator respects, none added or lost |
| KeyOrder.SortedAlike | src/MariaDbDatabaseMetaData.cpp:310-331 | any two orderings of the same rows that respect the comparator agree at every place up to rows it does not tell apart, so the sorting algorithm does not matter |
| ClientInfo.BuildClientQuery | src/MariaDbConnection.cpp:1305-1346 | the text that the two loops append, for every value and both escape modes |
| ClientInfo.EscapedCharacter | src/MariaDbConnection.cpp:1316-1342 | which characters are escaped and how, in both modes; any other stands for itself |
| ClientInfo.EscapedAppend | src/MariaDbConnection.cpp:1316-1342 | the text of a concatenation is the concatenation of the texts |
| ClientInfo.LexUndoesEscape | src/MariaDbConnection.cpp:1316-1342 | a reference lexer reads the escaped value and its closing quote back as the value, whatever follows but a quote |
| ClientInfo.QueryLiteralDenotesValue | src/MariaDbConnection.cpp:1305-1346 | behind "=" stands one literal, which ends with the query and denotes the value |
| Savepoints.Connection.SetSavepoint | src/MariaDbConnection.cpp:1114-1139 | numbers savepoints consecutively and sends "SAVEPOINT " and the identifier |
| Savepoints.Connection.SetUnnamedSavepoint | src/MariaDbConnection.cpp:1114-1116 | is called "unnamed" and numbered like any other |
| Savepoints.NamesClashIff | src/MariaDbSavepoint.cpp:54-58 | two names can get one identifier below a limit if and only if one is the other with a small enough number behind it |
| Savepoints.NamesClash | src/MariaDbSavepoint.cpp:54-58 | a concrete clash |
| Savepoints.IdentifiersDistinct | src/MariaDbConnection.cpp:1114-1139 | in every run with names not ending in a digit the identifiers are pairwise distinct |
| ResultStream.LoadFullyDrainsIff | src/Results.cpp:333-366 | from every state outside the loop `loadFully(false)` terminates with both flags clear and loses count of no response; nothing stays pending if and only if nothing was, or something was announced, the protocol's bit is set and no stuck result set stands before the last response |
| ResultStream.LoadFullySkipsIff | src/Results.cpp:351-355 | `loadFully(true)` leaves its flag set, and nothing pending if and only if nothing was or the protocol's bit is set |
| ResultStream.RefusedMoveAnswersWrong | src/protocol/capi/QueryProtocol.cpp:1349-1363 | when the client library refuses a move, the error recorded for it comes to stand under the cursor, so the answer cannot be "no more results" |
| ResultFeed.FeedRecords | src/Results.cpp:190-271 | on every stream: the kind of record is fixed by the first entry that is not a callable's, it holds one statistic for each such entry, and the protocol is told once exactly when there was more than one |
| ResultFeed.FeedCallable | src/Results.cpp:243-252 | the callable's output is the result set of the last such call, and what it was if there is none |
| ResultRuns.GetSelectRows | src/protocol/capi/QueryProtocol.cpp:1658-1700 | where a new result set's rows are and what the protocol's bit says, for text and binary, buffered and streamed, pulled and drained |
| ResultRuns.StartInv | src/Results.cpp:286-306 | after `commandEnd` the invariant holds and the first answer is the first response |
| ResultRuns.StepGetMore | src/Results.cpp:416-459 | in every reachable state one `getMoreResults` never returns, exactly when it is to close a result set that is still on the wire; or moves on an exhausted wire; or gives the next response, or "no more" if it was forgotten; and keeps the invariant |
| ResultRuns.OwnerOf | src/Results.cpp:286-317 | under the invariant the queue holds exactly the unseen result sets that arrived, in order, and each result set has one owner at most |
| ResultRuns.EveryRun | src/Results.cpp:243-459 | the same in every run over every stream, with any releases, closing, reading and draining, up to the run's end or its first call that never returns or moves on an exhausted wire; and every answer with a result set installs the next one, never a stale one |
| ResultRuns.DrainedGoesRightIff | src/Results.cpp:333-366 | once the rest is drained, on every stream, a run gives the right answers if and only if it never asks `getMoreResults` to close a result set that is still on the wire |
| RowsKept.KeepingKeepsRows | src/Results.cpp:341-350 | `getMoreResults` keeping the current result set, and `loadFully(false)`, turn no result set into a discarded one; every other keeps its rows as they were |
| RowsKept.SkippedRows | src/Results.cpp:341-346 | `loadFully(true)` discards the last result set that was read and no other |
| RowsKept.RowsLostIff | src/Results.cpp:416-436 | in every run over every stream exactly the result sets that arrived have rows, and one is discarded if and only if the application closed it, or had it closed as the current one by a `getMoreResults` that returns |
| ActiveResult.ActiveIff | src/protocol/capi/QueryProtocol.cpp:1684-1688 | in every run, while responses are announced and pending, the object is the protocol's active result if and only if a result set has been read |
| ActiveResult.UpdateFirstInactive | src/protocol/capi/QueryProtocol.cpp:1747-1753 | after a first update count with more behind it, it is not, so the next statement finds nothing to drain |
| WireSafety.SafeRun | src/Results.cpp:337-365 | every run that releases a result at most once between answers adds no unsafe move, when no stuck result set can be reached |
| WireSafety.WireSafeIff | src/Results.cpp:416-459 | from `execute` on, all such runs are safe if and only if no stuck result set can be reached by pulling |
| WireSafety.KeepingStuckUnsafe | src/com/capi/SelectResultSetBin.cpp:1927-1949 | keeping a stuck result set and moving on goes past unread rows |
| WireSafety.AnyReleaseSafeIff | src/MariaDbStatement.cpp:1067 | runs with any number of releases are all safe if and only if no result set with unread rows can be reached while something is announced |
| WireSafety.SecondReleaseUnsafeIff | src/Results.cpp:314-318 | after one release more, the next move is unsafe if and only if the result set has unread rows and had been released, or is stuck and kept |
| WireSafety.SecondReleaseUnsafe | src/MariaDbStatement.cpp:1067 | two buffered results, the first released twice: unsafe for binary results, harmless for text results |
| LazyEager.RunFaithful | src/Results.cpp:333-459 | in every run over a faithful stream that releases each result once at most and closes none by `getMoreResults` while it is on the wire, whatever is drained, read or closed otherwise, every answer is the next response |
| LazyEager.UnfaithfulGoesWrong | src/Results.cpp:416-459 | on every other stream some run that closes nothing by `getMoreResults` gets a wrong answer |
| LazyEager.BadGoesWrong | src/Results.cpp:443-457 | behind the first count that truncates to -1 the next pull says that there is no more |
| LazyEager.TailGoesWrong | src/Results.cpp:437-440 | behind a last result set with a full batch of rows the next pull moves on an exhausted wire |
| LazyEager.StuckGoesWrong | src/com/capi/SelectResultSetBin.cpp:1927-1949 | draining from a stuck result set loses what follows it |
| LazyEager.DefaultCallBlocks | src/MariaDbStatement.cpp:1134-1136 | a faithful stream on which the first call of `getMoreResults()` never returns |
| LazyEager.OpenBlocks | src/com/capi/SelectResultSetCapi.cpp:1929-1935 | wherever pulling reaches a result set with a full batch of rows, that call never returns |
| LazyEager.GentleAnswersIff | src/Results.cpp:286-459 | pulling lazily and draining eagerly agree in all runs that release each result once and close none by `getMoreResults` while it is on the wire, if and only if no interior count truncates to -1, the last response is no result set with a full batch of rows, and no binary one read several rows at a time has a full batch |
| LazyEager.AnswersIff | src/Results.cpp:416-459 | they agree in all runs if and only if no interior count truncates to -1 and no result set has a full batch of rows; the same condition is exact for runs with one release for each result, and for runs that close nothing that is on the wire |
| ResultsObject.Results.AddStats | src/Results.cpp:190-212 | the method's new state is the state machine's |
| ResultsObject.Results.AddStatsError | src/Results.cpp:214-231 | the same for an error |
| ResultsObject.Results.AddResultSet | src/Results.cpp:243-271 | the same for a result set, callable or not, cached or not |
| ResultsObject.Results.CommandEnd | src/Results.cpp:286-306 | the same, and whether there is command information |
| ResultsObject.Results.ReleaseResultSet | src/Results.cpp:314-318 | the caller gets the current result set, the object keeps a pointer |
| ResultsObject.Results.LoadFully | src/Results.cpp:333-366 | the method with its draining loop refines the state machine, of which `LoadFullyDrainsIff` says what is left on the wire and `KeepingKeepsRows` and `SkippedRows` what becomes of the rows |
| ResultsObject.Results.GetMoreResults | src/Results.cpp:416-459 | new state and outcome are those of the state machine, the call that never returns and the exhausted wire included; `StepGetMore` says what the outcome is and `RowsLostIff` what becomes of the rows |
| ResultsObject.Results.Construct | src/com/capi/SelectResultSetBin.cpp:76-95 | the constructors' effect on the protocol and on the rows is the state machine's |
| ResultsObject.Results.CacheCompleteLocally | src/com/capi/SelectResultSetBin.cpp:1927-1949 | the same for caching, with its early return |
| ResultsObject.Results.CheckOut | src/Results.cpp:566-572 | only the pointer to the leaving result set is forgotten |
| Session.CallEffect | src/MariaDbConnection.cpp:727-740 | every call: it returns normally if and only if it is not refused and is left out or answered; then its setting is at the value asked for; a failed one leaves it where the protocol did, a refused or omitted one changes none; all other settings stay |
| Session.CallBits | src/MariaDbConnection.cpp:1725-1753 | every call: it sets its own bit, returning or failing, leaving read-only mode clears it, and no other bit changes |
| Session.CallRecord | src/protocol/capi/QueryProtocol.cpp:1224-1227 | the recorded auto-commit mode becomes the session's with a statement or a successful `setAutoCommit`, and changes with nothing else |
| Session.CallKeepsSoundIff | src/MariaDbConnection.cpp:867-887 | over a protocol whose calls may all fail, a setter, failing or not, keeps "a clear bit means a default setting" if and only if it is not a failing `setReadOnly(false)` that leaves the mode on |
| Session.SettersKeepSound | src/protocol/capi/ConnectProtocol.cpp:1143-1146 | over the connector's own protocol, where that call cannot fail, every setter keeps it |
| Session.EventKeepsSoundIff | src/MariaDbConnection.cpp:1725-1812 | the exact condition for each setter, statement and reset, returning or throwing, on an open, closed or lost connection |
| Session.RunKeepsSound | src/MariaDbConnection.cpp:1725-1812 | in every run of such events that meet it, a clear bit means a default setting |
| Session.ResetReturnsIff | src/MariaDbConnection.cpp:1779-1812 | `reset` returns normally if and only if each call it makes, for the settings that are dirty and not known to be at their default, is possible and answered |
| Session.ResetNow | src/MariaDbConnection.cpp:1779-1812 | the five settings, the bits and the recorded auto-commit mode after a normal return of `reset`, in both modes |
| Session.ResetRestoresIff | src/MariaDbConnection.cpp:1779-1812 | after a normal return from sound bits all settings are at their defaults if and only if auto-commit is by then or is sent, and the isolation level was configured, not needed, or is the server's global one |
| Session.UntouchedResetAway | src/MariaDbConnection.cpp:1781-1788 | with COM_RESET_CONNECTION a session nobody touched leaves its default auto-commit mode when the option differs from the server's global value |
| Session.StaleRecordIgnored | src/protocol/capi/QueryProtocol.cpp:1224-1227 | while the recorded mode is stale, setting that mode does nothing and returns normally |
| Session.UnconfiguredResetThrows | src/MariaDbConnection.h:82 | with the field's initial value, `reset` throws whenever it has an isolation level to restore |
| Session.ComResetKeepsSoundIff | src/protocol/capi/QueryProtocol.cpp:76-92 | COM_RESET_CONNECTION alone keeps the bits sound if and only if the settings it touches are dirty or the server's global values are the defaults |
| Session.FailedResetKeepsSoundIff | src/MariaDbConnection.cpp:1779-1812 | a `reset` that throws keeps the bits sound if and only if COM_RESET_CONNECTION, when sent, was harmless or failed leaving the defaults, and leaving read-only mode was not reached and failing |
| Session.FailedResetStops | src/MariaDbConnection.cpp:1779-1812 | a `reset` that throws has taken the steps before the failing one and none behind it |
| ConnectionObject.Connection.SetAutoCommit | src/MariaDbConnection.cpp:727-740 | the method's new bits and session are those of the function |
| ConnectionObject.Connection.SetReadOnly | src/MariaDbConnection.cpp:867-887 | the same, the bit changing before the protocol is asked |
| ConnectionObject.Connection.SetTransactionIsolation | src/MariaDbConnection.cpp:1003-1011 | the same |
| ConnectionObject.Connection.SetSchema | src/MariaDbConnection.cpp:1725-1736 | the same; by `CallEffect` a normal return leaves the session on the schema asked for |
| ConnectionObject.Connection.SetNetworkTimeout | src/MariaDbConnection.cpp:1745-1753 | the same |
| ConnectionObject.Connection.Reset | src/MariaDbConnection.cpp:1779-1812 | the sequence of resets, cut short by the first failure, is the function's |
| PoolRuns.DoKeeps | src/MariaDbConnection.cpp:806-829 | every step of every handle and of the pool keeps the invariant of ownership; what closing does is stated by `CloseOnSession` and `CloseClosesForGood` |
| PoolClosing.CloseOnSession | src/MariaDbConnection.cpp:806-829 | after a close whose rollback does not fail: a direct handle's session is disconnected and explicitly closed; so is a pooled one's when the pool is closed or the reset fails; otherwise it rests connected |
| PoolClosing.FailedRollbackChangesNothing | src/MariaDbConnection.cpp:810 | a close whose rollback fails changes nothing |
| PoolClosing.CloseCloses | src/MariaDbConnection.cpp:826-828 | a direct handle is closed at once, a pooled one when the second half of `close()` is done |
| PoolClosing.ClosingStays | src/MariaDbConnection.cpp:816-824 | no step of anyone else takes that second half away |
| PoolClosing.CloseClosesForGood | src/MariaDbConnection.cpp:836-839 | in every run, from the end of such a close on, the handle reports closed, pooled or direct |
| PoolClosing.ClosedForGood | src/MariaDbConnection.cpp:836-839 | a handle that reports closed does so in every later state, whatever closed it |
| PoolClosing.DestroyOnSession | src/MariaDbConnection.cpp:98-109 | the destructor disconnects a direct handle's session, leaves a lost session of a pooled handle alone, and hands back any other without a rollback, or disconnects it when the pool is closed or the reset fails |
| PoolClosing.OtherSessionsKept | src/MariaDbConnection.cpp:806-829 | no step changes any session but the one it works on |
| PoolClosing.SeveredStays | src/pool/Pool.cpp:655-700 | no step connects a session again |
| PoolClosing.CheckedOut | src/pool/Pool.cpp:263-287 | a checkout gives out the first idle connection's handle, and its session is no longer explicitly closed |
| PoolClosing.FirstSetAutoCommit | src/MariaDbConnection.cpp:727-740 | so the new owner's first `setAutoCommit` is accepted |
| PoolClosing.IdleQueue | src/pool/Pool.cpp:259-287 | new connections come first, returned ones last, the first is given out, and nothing else moves |
| PoolClosing.DropDisconnects | src/pool/Pool.cpp:182-188 | dropping an idle connection disconnects its session |
| PoolRuns.Exclusive | src/MariaDbPoolConnection.cpp:219-224 | in every run at most one live, not returned handle refers to a session |
| PoolRuns.PointsBack | src/MariaDbPoolConnection.cpp:41-45 | in every run the pool connection of a live handle points back to it, idle connections are well formed and idle once |
| PoolRuns.ReturnedOnce | src/MariaDbConnection.cpp:98-109 | in every run each handle is returned at most once, over any mix of closing and destroying |
| PoolRuns.DestructorSafe | src/MariaDbConnection.cpp:98-109 | the destructor never uses a missing pool connection or session |
| PoolRuns.ReturnedStays | src/MariaDbConnection.cpp:817-826 | no step undoes a return |
| PoolRuns.ClosedForever | src/MariaDbConnection.cpp:836-839 | a returned handle reports closed in every later state, whatever the next owners do |
| PoolRuns.CloseHandsBack | src/pool/Pool.cpp:655-681 | in an open pool a close whose rollback does not fail puts the session back, unless COM_RESET_CONNECTION fails |
| PoolRuns.HandoverIff | src/pool/Pool.cpp:655-681 | after such a close the session rests under a fresh handle without a transaction; the fresh handle's clear bits tell the truth if and only if the previous owner left the defaults, where under COM_RESET_CONNECTION auto-commit and isolation count by the server's global values instead |
| PoolRuns.AutoCommitLeaks | src/pool/Pool.cpp:673-678 | without COM_RESET_CONNECTION an owner that changed auto-commit and closed properly hands the change on |
| PoolRuns.AutoCommitUnderComReset | src/pool/Pool.cpp:673-678 | with it the session is handed on in the server's global mode, with the previous owner's mode on the driver's record |
| PoolRuns.DestroyKeepsTransaction | src/MariaDbConnection.cpp:98-109 | a handle destroyed without closing hands its transaction on, unless COM_RESET_CONNECTION ends it |
| CArray.CArray.constructor | src/CArrayImp.h:38-52 | a positive length owns a new block, zero owns nothing |
| CArray.CArray.Borrow | src/CArrayImp.h:61-63 | borrowing owns nothing and shows the borrowed elements |
| CArray.CArray.CopyOf | src/CArrayImp.h:99-108 | an owning array is copied into a block of its own, of which the first `length` bytes agree: all elements if they are one byte wide; a borrowing one is copied as borrowing |
| CArray.CArray.Destroy | src/CArrayImp.h:73-79 | frees exactly what is owned |
| CArray.CArray.Assign | src/CArrayImp.h:123-150 | when it succeeds, what it then shows, what it allocates, and that a failure changes nothing |
| CArray.CArray.Wrap | src/CArrayImp.h:152-169 | frees what was owned, never what was borrowed, and owns nothing |
| CArray.CArray.Reserve | src/CArrayImp.h:177-197 | afterwards at least `size` is owned; a large enough owned block is kept |
| CArray.CArray.ReportFailedBatch | src/MariaDbStatement.cpp:259-271 | whatever the array held, it shows exactly `size` entries, all EXECUTE_FAILED, in memory it owns |
| CArray.TouchKeeps | src/CArrayImp.h:123-197 | an operation on one array keeps all arrays' blocks disjoint, alive and accounted for |
| CArray.RunProgram | src/CArrayImp.h:38-197 | every program over any number of arrays frees each block it allocated once, loses none, and frees nothing it borrowed |
| Batches.PreparedStatement.SetParameter | src/ClientSidePreparedStatement.cpp:330-334 | fails exactly out of range; otherwise puts the holder into its slot, replacing what was there, and leaves the others and the batch |
| Batches.SlotIff | src/ClientSidePreparedStatement.cpp:330-334 | after any calls a slot holds a value if and only if some call set it there and no later one set it again or cleared the parameters |
| Batches.PreparedStatement.ClearParameters | src/BasePrepareStatement.cpp:1478-1483 | empties every slot, keeps their number, leaves the batch |
| Batches.PreparedStatement.ValidateParamset | src/BasePrepareStatement.cpp:1458-1467 | finds the first slot that is not set |
| Batches.PreparedStatement.AddBatch | src/BasePrepareStatement.cpp:1494-1505 | fails exactly on an incomplete set; the batch is the complete sets at each `addBatch` since the last `clearBatch` |
| Batches.PreparedStatement.ClearBatch | src/BasePrepareStatement.cpp:1508-1511 | empties the batch and nothing else |
| Batches.PreparedStatement.Clone | src/ClientSidePreparedStatement.cpp:88-99 | the clone has the same number of slots, all empty, and no batch |
| Batches.HistoryUnique | src/BasePrepareStatement.cpp:1449-1511 | the calls made so far determine the batch |
| Batches.HistoryKept | src/BasePrepareStatement.cpp:1449-1511 | setting or clearing parameters afterwards, or an incomplete set, changes nothing that was recorded |
| Batches.HistoryGrows | src/BasePrepareStatement.cpp:1494-1505 | a complete set is recorded last, as it is at that moment |
| Batches.ExecuteOneByOne | src/ClientSidePreparedStatement.cpp:241-293 | the rows attempted and the way it ends: at the first failure, or after all rows with the last failure that has a message; both loops agree unless interrupted |
| Batches.LastFailureIs | src/ClientSidePreparedStatement.cpp:255-282 | the remembered exception is that of the last failing row |
| Batches.FailuresReportedIff | src/ClientSidePreparedStatement.cpp:287-291 | with `continueBatchOnError` the batch throws if and only if its last failing row has a message |
| Batches.FailureLost | src/ClientSidePreparedStatement.cpp:287-291 | two failing rows, the second without a message: nothing is reported |

## Left out

- Server errors in the middle of a stream, and what the client library does when asked to move past unread rows or on an exhausted wire; the exhausted wire is an outcome of its own, with which a run ends; `ResultStream.RefusedMoveAnswersWrong` is all that is said of what follows.
- ResultsObject.Results.GetMoreResults: stops at an exhausted wire, where the source goes on to read whatever the client library then holds.
- WireSafety.WireSafeIff: `loadFully(true)` is not a step of a run; the connector calls it when it is done with the object, and what it leaves is stated by `ResultStream.LoadFullySkipsIff`.
- LazyEager.AnswersIff: updatable result sets, for which the fetch size is dropped first, are those with fetch size 0.
- ResultStream.LoadFullySkipsIff: whether a caller of `loadFully(true)` holds the mutex, so that closing a result set there would block as well, is not modelled.
- Rows, metadata and generated keys of result sets; insert ids; `abort`, `close` and `isFullyLoaded` of `Results`.
- Overflow of the driver's own 32-bit counters and cursors, and update counts beyond 63 bits.
- Mutexes other than the one `getMoreResults` holds, timers, sockets, logging, and the client library behind the protocol.
- Pool: modelled on values, so aliasing of handles is their position in a table; `totalConnection`, `connectionErrorOccurred`, connections for other users, and the pool's own threads (their steps are there) are not.
- Session.RunKeepsSound: settings changed by SQL text the driver does not look at leave no bit.
- PoolRuns.DestructorSafe: starts from a handle the application still holds; using a handle after it was destroyed is not a step.
- KeyListing.ListImportedKeys: what the information-schema query returns.
- ImportedKeys.PrintedTableRows: names hold no newline, since the driver splits the text there, and the rules can be told in the sense of `RuleReadIff`.
- KeyOrder.SortOrders: uses an insertion sort in place of `std::sort`; `GetImportedKeys` promises only an ordered permutation, and `SortedAlike` shows that any of those differ only among equivalent rows.
- Replace.ReplaceInternal: an empty substring, on which the loop never ends, is excluded; no caller passes one.
- Replace.EnquoteIdentifier: excludes the empty name, on which the source reads a character that is not there.
- Savepoints.IdentifiersDistinct: before the counter overflows.
- CArray.CArray.Assign: elements are integers; the constructors that fill or copy given elements are not modelled.
- CArray.CArray.CopyOf: says nothing about an element that is copied in part.
- CArray.RunProgram: operations that C++ leaves undefined, such as assigning through a borrowed block that is gone, are not done.
- Batches.PreparedStatement.AddBatch: parameters are values, so that the copies of parameter holders cannot be told from the originals; `hasLongData` is not modelled.
- `enquoteLiteral`, host addresses, metadata queries and type tables, output parameters, callable caching and native SQL translation: forwarding, constants, or nothing to prove.
