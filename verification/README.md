# Verified models of the database drivers

The repository wraps the native client libraries of MySQL and Oracle behind one interface (`dbapi`,
`dbsql`).  What makes the wrapper more than a forwarder is the state it keeps on the client side: a
table of open queries, one private "scratch" cursor for everything else, a transaction flag,
parameter slots, a statement rewriter, define buffers, five connection handles, and a table of
function pointers that several threads load.  This project models that state, and proves what every
run of the drivers keeps of it.

## How the native side is modelled

The libraries answer as they like.  Their answers are a *tape* (`NativeServer.Tape`), indexed by the
number of answers given so far, and every theorem holds for every tape.  The server itself is a value
(`NativeServer.Server`): which resources it has handed out and not got back, what each statement was
prepared from and bound to, which of the live statements belong to the environment of the present
connection and which have gone with an environment that was freed under them, a *journal* of the
writes it executed with the fate of each (pending, committed, rolled back), and flags that are set
when a resource is used or returned while it is not live, or when a commit follows a failed write that
nothing rolled back.  What a call does to the journal is given as a *trace*, a short list of events
(wrote, failed, commit, rollback) determined by the call, the state and the answers.

## How it is organised

| files | what they hold |
|---|---|
| `Basics.dfy`, `FloatingPoint.dfy` | C strings in buffers, a little arithmetic; binary formats and rounding to nearest |
| `NativeServer.dfy`, `NativeLibrary.dfy`, `Journals.dfy` | the native side, as functions and as an object; the journal as a replay of traces |
| `HandleList.dfy` | the doubly linked list of cursors, and the ordered map it represents |
| `PlaceholderRewriter.dfy` | the `:name` to `?` rewriter of `phSetSql`: transducer, grammar, buffer loop |
| `MysqlCursorSpec.dfy`, `MysqlSpec.dfy` | `mysql_cursor` and `mysqlapi` as functions from state to state |
| `MysqlBooks.dfy`, `MysqlRuns.dfy`, `MysqlJournal.dfy` | what runs of the MySQL driver keep: resources, table and scratch cursor, writes |
| `MysqlAnswers.dfy`, `MysqlTransactions.dfy` | what each call returns, told from the library's answers one by one; the transaction flag over runs |
| `MysqlCursor.dfy`, `MysqlDriver.dfy` | the MySQL classes, each method proved to do what its function says |
| `OracleSpec.dfy`, `OracleRuns.dfy`, `OracleJournal.dfy`, `OracleAnswers.dfy`, `OracleTransactions.dfy`, `OracleDriver.dfy` | the same for Oracle |
| `OracleEnvironment.dfy` | Oracle's open queries against the environment that a disconnect frees |
| `Wire.dfy` | what a server reads through a parameter binding, and what the caller put there |
| `QueryTable.dfy`, `Parameters.dfy` | both drivers against one table of open queries, and against each other |
| `Loader.dfy` | the library loader, run by any number of threads |
| `OracleConnection.dfy`, `DbConnect.dfy` | the five handles, the attachment and the session of an Oracle connection |
| `OracleColumns.dfy`, `ColumnArea.dfy`, `LongColumn.dfy`, `DateFormat.dfy` | results: columns and buffers, long columns in pieces, times as text |

The classes have the source's fields and loops.  A method's contract names the new state through the
function of the same name; what the source promises is then proved about those functions, for all
states, all answers and all runs.  These laws do not lean on the functions for their constants: the codes
that callers see, the type numbers on the wire, the characters that end a name, the error numbers of a
lost connection and the shape of a date are written out in the laws themselves.

## Where the code does something else than one would expect

Each of these is proved, with the condition under which it happens.

* Oracle's `disconnect` frees the environment of the connection and closes no query, and so does a
  reconnection that is refused before it has a new environment.  A query that is open then cannot be
  closed, fetched from or destroyed any more: over a run, and the destructor after it, a statement is
  misused if and only if that happened (`OracleEnvironment.DestroyAfterAnyRun`).  Connect, query,
  disconnect, closeQuery is such a run (`OracleEnvironment.OpenQueryAtDisconnect`); closing every query
  first avoids it (`OracleEnvironment.CarefulRunsLoseNothing`).
* Oracle's `checkSql` executes a statement that is no select and does not roll back when the server
  refuses it (`OracleJournal.CheckSqlLeavesFailure`).  A run commits over a failed write if and only if
  such a check is followed by a commit with no rollback in between
  (`OracleJournal.RunCommitsOverFailureIff`; a run that does: `OracleJournal.CheckThenCommit`).  No
  other call of either driver leaves a failed write behind.
* Oracle's driver takes OCI_SUCCESS_WITH_INFO for a failure, though the server has executed the statement.  The
  write calls roll back; `checkSql` says no, and leaves a write that the next commit commits
  (`OracleJournal.CheckSqlWritesIff`, `OracleJournal.RefusedCheckIsCommitted`).
* Oracle's driver rolls back what is pending when a statement cannot even be prepared; MySQL's keeps it
  (`OracleJournal.PendingWorkIsLostIff`, `MysqlJournal.ExecuteSqlWrites`).  And a question such as getRec
  rolls back too when the error it asks for is 25402 (`OracleJournal.ReadingRollsBack`).
* A beginTrans inside a transaction commits what the transaction has written, so rolling back the inner one
  does not undo the outer (`MysqlTransactions.RollbackOfTheInner`; exactly when: `BeginCommitsIff`, for both
  drivers).
* Oracle's driver binds a string with its NUL as characters, so the server reads one byte more than the text;
  MySQL's binds the text alone (`OracleAnswers.ParametersReachTheServer`,
  `MysqlJournal.NamedParametersReachTheServer`).
* `loadLibrary` does not unlock its mutex when a symbol is missing, so the mutex is lost for ever exactly
  when the library lacks a symbol (`Loader.CanGetStuckIffASymbolIsMissing`); and because it does not
  read its flag again under the lock, the library is opened up to once per thread
  (`Loader.OpensAtMostOncePerThread`).
* `db_connect::attachServer` reports a failure after a successful attachment that it cannot set in the
  service handle; that server is freed while attached (`OracleConnection.ConnectResult`,
  `OracleConnection.OneOrphan`).
* `db_cursor::output` hands the double of a number to a setter that takes a float, so a plain NUMBER of
  16777217 and nearly every amount with decimals change.  A column is shown right in every row if and only
  if its type is not LONG, INTEGER, FLOAT or VARNUM and, if it is a number, it has scale 0 and 1 to 18 digits, or
  a negative scale and so few digits that the largest number is a float (`OracleColumns.ColumnIsRightIff`, with
  `OracleColumns.Lossless`).  A LONG RAW is cut at NUL bytes (`OracleColumns.FieldIsRightIff`).  A result that
  loses five of its six fields is in `OracleColumns.FiveFieldsAreLost`.
* `fetchDefineFld` returns the last piece twice when a fetch fails (`LongColumn.FailureRepeatsTheLastPiece`,
  `LongColumn.PieceTwice`).
* MySQL's parameter setters accept the number 33, for which there is no slot; Oracle's refuse it, and for all
  other numbers the two agree (`Parameters.AcceptedAlikeIff`).
* The fourth date format puts the day first, so its texts do not sort by time (`DateFormat.OtherDateOrder`).
* Oracle's query handles can come back after they are closed, MySQL's cannot
  (`OracleRuns.HandleComesBackIff`, `OracleRuns.HandlesMayBeReused`, `MysqlRuns.HandlesAreNeverReused`).

## Model

| member | source | states |
|---|---|---|
| PlaceholderRewriter.RewriteSplits | src/mysqlapi.cpp:1483-1510 | splitting a statement at any point splits the rewritten text; the second half starts in the state the first ended in |
| PlaceholderRewriter.RewriteConcatenates | src/mysqlapi.cpp:1483-1510 | at a point in copy state, the rewrite of the whole is the concatenation of the rewrites |
| PlaceholderRewriter.RewriteOutput | src/mysqlapi.cpp:1483-1510 | the output has no colon, is never longer than the input, and gains no NUL |
| PlaceholderRewriter.MarksAreColonsAndCopies | src/mysqlapi.cpp:1483-1510 | exactly one `?` per colon of the input, plus one per `?` that is copied |
| PlaceholderRewriter.RewriteIsIdentityIffColonFree | src/mysqlapi.cpp:1483-1510 | a statement is left as it is if and only if it has no colon |
| PlaceholderRewriter.RewriteIsIdempotent | src/mysqlapi.cpp:1483-1510 | rewriting twice is rewriting once |
| PlaceholderRewriter.RewriteErasesNames | src/mysqlapi.cpp:1483-1510 | on the grammar of text and of parameters whose names end at a comma, a blank, a closing parenthesis, a semicolon or the end, the output is the same text with one `?` in the place of each parameter |
| PlaceholderRewriter.OneMarkPerName | src/mysqlapi.cpp:1483-1510 | a template without a literal `?` is rewritten to as many question marks as it has names |
| PlaceholderRewriter.NameEndsExactly | src/mysqlapi.cpp:1483-1510 | behind a name exactly the comma, the blank, the closing parenthesis and the semicolon are kept; a further colon begins another name, and any other character is swallowed as part of the name |
| PlaceholderRewriter.FillBuffer | src/mysqlapi.cpp:1477-1522 | the in-place buffer loop leaves exactly the rewritten text, and NUL in the rest of the buffer |
| HandleLists.HandleList.LinksAreInverse | src/mysqlapi.h:120-222 | `prev` and `next` are inverse at every node, and a list with a node has a head and a tail |
| HandleLists.HandleList.FindNode | src/mysqlapi.h:144-162 | finds the first node under a handle, or null if and only if there is none |
| HandleLists.HandleList.Add | src/oracleapi.cpp:855-876 | links a new node behind the tail; the ordered map gains one entry at its end |
| HandleLists.HandleList.AddNext | src/mysqlapi.h:164-186 | the same under the next number of the list's counter, which is returned |
| HandleLists.HandleList.Unlink | src/mysqlapi.h:195-203 | takes a node out wherever it is (head, tail, middle or alone); the others keep their order and their links |
| HandleLists.HandleList.Del | src/mysqlapi.h:188-208 | removes the first entry under a handle and no other, or answers 1 and changes nothing |
| HandleLists.HandleList.Free | src/mysqlapi.h:210-221 | terminates with the empty list, head and tail null |
| HandleLists.LookupAfterRemove | src/oracleapi.cpp:889-909 | what is found under another handle is not affected by removing one |
| HandleLists.LookupAfterAdd | src/oracleapi.cpp:855-876 | what is found under another handle is not affected by adding one |
| MysqlCursorSpec.OpenCurKeeps | src/mysqlapi.cpp:313-336 | opening a cursor acquires one statement and is accounted for, on success and on failure |
| MysqlCursorSpec.CloseCurKeeps | src/mysqlapi.cpp:339-367 | closing returns the statement and the metadata result exactly once |
| MysqlCursorSpec.ReleaseDefineKeeps | src/mysqlapi.cpp:440-462 | releasing the define arrays returns every column buffer exactly once |
| MysqlCursorSpec.DefineKeeps | src/mysqlapi.cpp:370-510 | define, at whatever step it stops, keeps both arrays absent or both of length `m_itemNum` > 0 and the buffers accounted for; on success bind i points at column i's buffer, null flag and length |
| MysqlCursorSpec.DestroyReleasesAll | src/mysqlapi.cpp:304-311 | destroying a cursor returns everything it holds, once |
| MysqlCursors.MysqlCursor.OpenCur | src/mysqlapi.cpp:313-336 | the class does what the function OpenCur says: refuses when open or not connected, else takes a statement |
| MysqlCursors.MysqlCursor.CloseCur | src/mysqlapi.cpp:339-367 | the class returns metadata result and statement if there are any, and is closed then |
| MysqlCursors.MysqlCursor.ReleaseDefine | src/mysqlapi.cpp:440-462 | the release loop frees the buffers of all columns in order, and both arrays |
| MysqlCursors.MysqlCursor.DefineMetaInfo | src/mysqlapi.cpp:389-416 | the describing loop fills every column from its field and marks unsigned ones |
| MysqlCursors.MysqlCursor.AllocateBuffers | src/mysqlapi.cpp:470-496 | the loop gives every column a buffer of its size and points its bind at it |
| MysqlCursors.MysqlCursor.Define | src/mysqlapi.cpp:465-510 | the whole of define, including the early returns |
| MysqlCursors.MysqlCursor.AllocateParmBind | src/mysqlapi.cpp:517-566 | one blank binding per parameter that the library counts; a count of zero or less is a failure |
| MysqlCursors.MysqlCursor.Destroy | src/mysqlapi.cpp:304-311 | the destructor: closes, then frees parameters and define arrays |
| MysqlBooks.ApplyBooks | src/mysqlapi.cpp:912-1601 | every call keeps the books: live resources are exactly those that the cursors hold, none was misused, every listed cursor is open, handles increase along the table |
| MysqlBooks.RunBooks | src/mysqlapi.cpp:863-1601 | the books are right in every state of every run |
| MysqlBooks.DestroyAfterAnyRun | src/mysqlapi.cpp:875-878 | destroying the driver after any run leaves no statement, metadata result or buffer live |
| MysqlBooks.CursorsAreDisjoint | src/mysqlapi.cpp:1360-1408 | no two open queries share a native resource, and none shares one with the scratch cursor |
| MysqlRuns.QueryAllOrNothing | src/mysqlapi.cpp:1360-1408 | on every failing path the table is what it was; on success it gains at its end one opened, defined cursor under a handle never issued before |
| MysqlRuns.CloseQueryRemovesOne | src/mysqlapi.cpp:1462-1474 | exactly the query under the handle is removed, the others keep places and cursors; a handle not in the table changes nothing |
| MysqlRuns.QueryThenClose | src/mysqlapi.cpp:1360-1474 | closing undoes opening: the same table, the same live resources |
| MysqlRuns.HandlesAreNeverReused | src/mysqlapi.h:164-186 | over any run an old handle names the query that it named, or nothing |
| MysqlRuns.HandlesAreNumbered | src/mysqlapi.h:164-186 | the handle of a query is its number among the queries made since the driver was new, failed ones included |
| MysqlRuns.ConnectedIff | src/mysqlapi.cpp:912-939 | after any run of a new driver it is connected exactly when the last of its successful connects, disconnects and reconnection attempts made a connection |
| MysqlRuns.ScratchLife | src/mysqlapi.cpp:976-1601 | after any call the scratch cursor is open if and only if a load is in progress, stated call by call |
| MysqlRuns.IdleStaysIdle | src/mysqlapi.cpp:976-1601 | from idle, every call but a successful beginLoadBinaryData ends idle |
| MysqlRuns.LoadIsUndisturbed | src/mysqlapi.cpp:1173-1334 | while loading, executeSql, getRec and isTable fail and change nothing at all |
| MysqlRuns.EndLoadEnds | src/mysqlapi.cpp:1136-1144 | endLoadBinaryData ends the load and returns its statement, whatever the server answers |
| MysqlRuns.RetryResult | src/mysqlapi.cpp:1344-1356 | the loop from any attempt on returns the first attempt that succeeds, and empties the table on the first that fails |
| MysqlRuns.CheckConStatusResult | src/mysqlapi.cpp:1337-1357 | -1 if and only if the connection is not lost, with session, transaction, table and resources as they were; k if and only if attempts 0..k-1 failed and attempt k succeeded; -99999 if and only if all failed; the table is empty after a failed attempt and untouched otherwise; the number of answers taken is exact |
| Journals.ServerNotes | src/mysqlapi.cpp:995-1014 | what executing, committing, rolling back and ending a session do to the journal; OCI executes a statement when it answers 0 or 1, MySQL when it answers 0 |
| Journals.ReplayJournal | src/mysqlapi.cpp:191-219 | the journal after any events in closed form: what was pending is settled by the first commit or rollback, and each new write by the first one after it |
| Journals.ReplayCommitsOver | src/mysqlapi.cpp:995-1014 | a replay commits over a failure exactly when a failure is followed by a commit with no rollback in between |
| MysqlJournal.InExecWrites | src/mysqlapi.cpp:995-1014 | a write that succeeds joins the journal, committed with all that was pending if asked; one that fails rolls all that is pending back |
| MysqlJournal.ExecuteSqlWrites | src/mysqlapi.cpp:1303-1334 | the same for executeSql, with or without a count: asked to execute exactly when connected, created and prepared; a failure before that leaves the journal alone |
| MysqlJournal.PhExecuteWrites | src/mysqlapi.cpp:1543-1601 | phExecute writes the stored statement with exactly the contiguous prefix of set slots bound and every later parameter blank, and rolls back when it is refused |
| MysqlJournal.PhExecuteForgets | src/mysqlapi.cpp:1543-1601 | statement and slots are kept exactly when there is no connection, preparing fails, or executing is asked for and fails; on success and when binding fails they are forgotten |
| MysqlJournal.NamedParametersReachTheServer | src/mysqlapi.cpp:553-600 | end to end: a template with k names, k parameters and a commit is committed as one statement with k marks, and through binding i the server reads what the caller stored in parameter i: 4 bytes of an int, 8 of a long long, a text up to its NUL, `len` bytes of a binary; nothing is left over from earlier SQL |
| MysqlJournal.LoadWritesAllPieces | src/mysqlapi.cpp:1077-1144 | begin, any number of transfers and a committing end write one statement whose long data is the pieces in the order sent, bound as a text or a blob as the caller said |
| MysqlJournal.SetLongFldWrites | src/mysqlapi.cpp:1017-1074 | setLongFld writes the rewritten statement with its one long value exactly when it is begun, sent and accepted; a refusal by the server rolls back, a failure before leaves the journal alone |
| MysqlJournal.LongWriteIs | src/mysqlapi.cpp:1017-1074 | the statement that setLongFld writes: the rewritten text, one binding of type 252 or 254 with a length cell of 0, and as long data the first `length` bytes of a binary message or a text up to its NUL |
| MysqlJournal.LoadBindIs | src/mysqlapi.cpp:1097-1110 | a load binds type 252 for a binary column, 254 for a text, with no buffer and a length cell of 0, and is refused for any other column type |
| MysqlJournal.BindCarries | src/mysqlapi.cpp:1560-1590 | a slot is bound by its own pointer, under the type and length through which the server reads what the caller stored |
| MysqlJournal.ApplyJournal | src/mysqlapi.cpp:191-219 | every call, of whatever kind, changes the journal exactly as its trace says; a write call returns 0 exactly when the server was asked and accepted, else -1; a nested beginTrans commits the earlier unit first |
| MysqlJournal.RunJournal | src/mysqlapi.cpp:995-1014 | over any run the journal is the old one, its pending writes settled by the first commit or rollback, followed by the executed writes in order, each settled by the first commit or rollback after it |
| MysqlJournal.RunWrites | src/mysqlapi.cpp:995-1014 | the writes that a run adds to the journal are those of its write calls that returned 0, in order, and no others |
| MysqlJournal.RunStaysClean | src/mysqlapi.cpp:995-1014 | no failed write of any run is committed over before it is rolled back |
| MysqlJournal.CommittingWriteLeavesNothingPending | src/mysqlapi.cpp:995-1014 | a write call with commit that returns 0 leaves nothing pending |
| MysqlTransactions.RunFlag | src/mysqlapi.cpp:191-219 | after any run the transaction flag is up exactly when the last of its begins, commits, rollbacks, refused writes, committing writes and new sessions was a begin |
| MysqlTransactions.BeginCommitsIff | src/mysqlapi.cpp:191-197 | what is pending at a beginTrans is committed there exactly when the flag is up by that rule, and else stays pending |
| MysqlTransactions.NestedBegin | src/mysqlapi.cpp:191-197 | what is pending at a beginTrans inside a transaction is committed, whatever follows |
| MysqlTransactions.RollbackOfTheInner | src/mysqlapi.cpp:191-219 | begin, write, begin, roll back on a library that grants everything: the write is committed |
| MysqlAnswers.QueryAnswer | src/mysqlapi.cpp:1360-1408 | query returns 0 if and only if there is a text, the driver is connected, and creating, preparing, metadata, a positive column count, binding, executing and storing are granted, each at its place, and else -1; the open query is the statement with that text, every column described and bound as the library says |
| MysqlAnswers.DefineAnswer | src/mysqlapi.cpp:370-510 | defining succeeds exactly when the library gives metadata, a positive number of columns and the binding; each column then has the field's name, type and length and a buffer of its own, and is bound to it under its type and length, a time with 40 bytes |
| MysqlAnswers.FetchQueryAnswer | src/mysqlapi.cpp:1411-1474 | a fetch from an open query returns 0, -3 or -1 exactly as the library answers 0, 100 or 101, or anything else; getCurRec hands back the count the library gives; fetch, getCurRec and closeQuery answer -1 to an unknown handle and ask nothing |
| MysqlAnswers.GetRecAnswer | src/mysqlapi.cpp:1231-1276 | getRec returns what a fetch would when everything before it is granted, each at its place, and else -1 |
| MysqlAnswers.IsTableAnswer | src/mysqlapi.cpp:1173-1211 | isTable says yes exactly when a row is found for the statement that shows tables of that name, of which 63 characters are sent |
| MysqlAnswers.CheckSqlAnswer | src/mysqlapi.cpp:1214-1228 | checkSql says yes exactly when the driver is connected and the statement can be created and prepared |
| MysqlAnswers.ExecuteSqlAnswer | src/mysqlapi.cpp:1303-1334 | executeSql returns 0 exactly when no load is in progress and creating, preparing and executing are granted, and hands back the library's count if it is asked for |
| MysqlAnswers.PhExecuteAnswer | src/mysqlapi.cpp:1543-1601 | phExecute returns 0 exactly when the statement is created, prepared, has parameters, is bound and executed, and every slot up to the first empty one has one of the four types |
| MysqlAnswers.LoadAnswers | src/mysqlapi.cpp:1077-1144 | a load begins exactly for a binary or text column, a statement that fits, a connection and four answers; sending a piece and ending it return as the library answers |
| MysqlAnswers.SetLongFldAnswer | src/mysqlapi.cpp:1017-1074 | setLongFld returns 0 exactly when there is a message, such a load begins, and sending and executing are granted |
| MysqlAnswers.LostIff | src/mysqlapi.cpp:220-235 | the connection counts as lost when there is none, or for the six error numbers 1053, 2002, 2003, 2006, 2013 and 2055 |
| MysqlAnswers.ConnectAnswer | src/mysqlapi.cpp:912-930 | connect succeeds exactly when the names have at most 63, 127 and 63 characters, the driver is not connected and the library grants it; without a request nothing changes at all |
| MysqlAnswers.DisconnectAnswer | src/mysqlapi.cpp:933-939 | disconnect closes the scratch cursor in any case, ends the session if there is one, and leaves nothing pending then |
| MysqlAnswers.PhSetSqlAnswer | src/mysqlapi.cpp:1477-1522 | phSetSql takes statements of less than 2048 characters and empties all 32 slots |
| MysqlDrivers.MysqlDriver.Connect | src/mysqlapi.cpp:912-930 | the class refines Connect: names that do not fit are refused, a second connect is refused, a new session starts outside a transaction |
| MysqlDrivers.MysqlDriver.Disconnect | src/mysqlapi.cpp:933-939 | the class closes the scratch cursor first, and ends the session if there is one |
| MysqlDrivers.MysqlDriver.BeginTrans | src/mysqlapi.cpp:191-197 | commits first if a transaction is open |
| MysqlDrivers.MysqlDriver.InSetSql | src/mysqlapi.cpp:976-992 | closes whatever was open, opens and prepares; closed again on failure |
| MysqlDrivers.MysqlDriver.InExec | src/mysqlapi.cpp:995-1014 | executes, rolls back on failure, commits if asked, and closes |
| MysqlDrivers.MysqlDriver.ExecuteSql | src/mysqlapi.cpp:1303-1334 | the whole of executeSql on the scratch cursor |
| MysqlDrivers.MysqlDriver.GetRec | src/mysqlapi.cpp:1231-1276 | opens, prepares, defines, selects and fetches one row; the cursor is closed on every path |
| MysqlDrivers.MysqlDriver.IsTable | src/mysqlapi.cpp:1173-1211 | true exactly when getRec on the statement in the 64-character buffer finds a row |
| MysqlDrivers.MysqlDriver.CheckSql | src/mysqlapi.cpp:1214-1228 | true exactly when the statement can be prepared; the cursor is closed on every path |
| MysqlDrivers.MysqlDriver.PhSetSql | src/mysqlapi.cpp:1477-1522 | empties the slots and stores the rewritten statement, or fails and changes nothing |
| MysqlDrivers.MysqlDriver.PhSetParm | src/mysqlapi.cpp:1525-1540 | sets one slot; a length of 0 keeps the old one |
| MysqlDrivers.MysqlDriver.BindSlots | src/mysqlapi.cpp:1560-1590 | the binding loop stops at the first empty slot and fails at an unsupported type |
| MysqlDrivers.MysqlDriver.PhExecute | src/mysqlapi.cpp:1543-1601 | the whole of phExecute; slots and statement are forgotten on success and when binding fails, and kept when there is no connection, preparing fails or executing fails |
| MysqlDrivers.MysqlDriver.BeginLoadBinaryData | src/mysqlapi.cpp:1077-1118 | leaves a load in progress, or the scratch cursor closed when it fails after opening it |
| MysqlDrivers.MysqlDriver.TransferBinData | src/mysqlapi.cpp:1121-1133 | sends one piece, or ends the load |
| MysqlDrivers.MysqlDriver.EndLoadBinaryData | src/mysqlapi.cpp:1136-1144 | executes the load and ends it |
| MysqlDrivers.MysqlDriver.SetLongFld | src/mysqlapi.cpp:1017-1074 | a load of one piece |
| MysqlDrivers.MysqlDriver.Query | src/mysqlapi.cpp:1360-1408 | lists a cursor, tries the query on it, and unlinks and destroys it again on every failing path |
| MysqlDrivers.MysqlDriver.Fetch | src/mysqlapi.cpp:1411-1439 | -3 at the end of the data, -1 on an error or an unknown handle; no other cursor changes |
| MysqlDrivers.MysqlDriver.GetCurRec | src/mysqlapi.cpp:1449-1460 | the row count of the cursor under the handle; nothing changes |
| MysqlDrivers.MysqlDriver.CloseQuery | src/mysqlapi.cpp:1462-1474 | closes, unlinks and destroys the cursor under the handle |
| MysqlDrivers.MysqlDriver.FreeTable | src/mysqlapi.h:210-221 | deletes every query from the head on |
| MysqlDrivers.MysqlDriver.CheckConStatus | src/mysqlapi.cpp:1337-1357 | the retry loop, with the table freed after each failed attempt |
| MysqlDrivers.MysqlDriver.Destroy | src/mysqlapi.cpp:875-878 | after it no resource of the driver is live and none was ever misused |
| OracleRuns.BindSlotsBooks | src/oracleapi.cpp:1207-1286 | with slots of known types the binding loop never takes its non-closing default branch: a failure has closed the cursor |
| OracleRuns.ApplyIdle | src/oracleapi.cpp:946-1602 | every call ends with the scratch cursor closed, no handle twice in the table, every set slot of one of the four types, and the books right: live statements are exactly those of the open queries, but for those that have gone with their environment; as long as none has, none was misused, and one that has is still in the table or has been misused |
| OracleRuns.RunIdle | src/oracleapi.cpp:1018-1602 | all this holds between any two calls of any run |
| OracleEnvironment.ConnectOverFollows | src/oracleapi.cpp:218-289 | the driver's one answer for a reconnection agrees with the twelve requests that `db_connect` makes over its old handles: the same success, and the statements of the old environment go exactly if it is freed |
| OracleEnvironment.ApplyLoses | src/oracleapi.cpp:992-997 | a call loses the statements of open queries exactly when it is a disconnect, or a check that finds the connection lost and is refused at once, while a query opened on this connection is open |
| OracleEnvironment.RunLoses | src/oracleapi.cpp:93-125 | the same over any run: some statement has gone with its environment if and only if some call of the run did that |
| OracleEnvironment.DestroyAfterAnyRun | src/oracleapi.cpp:930-933 | after any run and the destructor no statement is live, and one has been misused if and only if some call freed the environment of an open query |
| OracleEnvironment.CarefulRunsLoseNothing | src/oracleapi.cpp:992-997 | no run in which the table is empty at every disconnect and check of a connection loses a statement |
| OracleEnvironment.ClosingAfterDisconnect | src/oracleapi.cpp:1445-1460 | disconnect keeps an open query in the table and misuses nothing yet; closing that query then misuses its statement |
| OracleEnvironment.OpenQueryAtDisconnect | src/oracleapi.cpp:992-997 | connect, query, disconnect, closeQuery on a library that grants everything is a run that misuses a statement |
| OracleRuns.QueryAllOrNothing | src/oracleapi.cpp:1326-1375 | on every failing path the table is what it was; on success it gains one opened cursor under a handle not in use |
| OracleRuns.CloseQueryRemovesOne | src/oracleapi.cpp:1445-1460 | exactly one query is removed, and 1 is answered for a handle not in the table |
| OracleRuns.QueryCode | src/oracleapi.cpp:1326-1375 | a query succeeds exactly when its four answers are 0, under the first number drawn that is not in use |
| OracleRuns.HandleComesBackIff | src/oracleapi.cpp:1331-1336 | after a query is closed, the next one that succeeds gets its handle exactly when that number is drawn before any other that is not in use |
| OracleRuns.HandlesMayBeReused | src/oracleapi.cpp:1331-1336 | any open query, closed and followed by one that draws its number on a library that grants everything: the handle names the new query |
| OracleJournal.InExecWrites | src/oracleapi.cpp:1094-1114 | accepted, the write joins the journal and all is committed if asked; answered otherwise, all that is pending is rolled back, with the write itself if it was executed with information |
| OracleJournal.ExecuteSqlWrites | src/oracleapi.cpp:1464-1517 | executeSql exactly: no effect when the scratch cursor is not opened, rolled back when preparing or executing is refused, else the statement is written |
| OracleJournal.BoundUpToMeans | src/oracleapi.cpp:1222-1276 | slot i is bound at position i + 1, for exactly the contiguous prefix of set slots |
| OracleJournal.PhExecuteWrites | src/oracleapi.cpp:1207-1286 | phExecute exactly: the statement as the caller wrote it with those bindings is written, or no effect, or rolled back; statement and slots are forgotten on success |
| OracleJournal.SetLongFldWrites | src/oracleapi.cpp:1288-1323 | setLongFld exactly: the statement with its one value at position 1 is written, or no effect, or rolled back |
| OracleJournal.GetErrRollsBack | src/oracleapi.cpp:341-376 | asking for the error rolls back exactly when the answer is 25402 |
| OracleJournal.ReadingRollsBack | src/oracleapi.cpp:1018-1056 | getRec, isTable and checkSql of a select change the journal exactly when they fail in executing and the error they then ask for is 25402 |
| OracleJournal.QueryRollsBack | src/oracleapi.cpp:1326-1375 | a query changes the journal exactly when executing it fails with error 25402 |
| OracleJournal.ApplyJournal | src/oracleapi.cpp:318-376 | every call, of whatever kind, changes the journal exactly as its trace says; a write call returns 0 exactly when the server was asked and accepted, else -1 |
| OracleJournal.PendingWorkIsLostIff | src/oracleapi.cpp:1073-1114 | a write call rolls back work that was pending if and only if its statement cannot be prepared, or is executed and refused |
| OracleJournal.RunJournal | src/oracleapi.cpp:1464-1517 | over any run the journal is the old one, its pending writes settled by the first commit or rollback, followed by the executed writes in order, each settled by the first commit or rollback after it |
| OracleJournal.RunWrites | src/oracleapi.cpp:1464-1602 | the writes that a run adds to the journal are the statements whose execution the server answered with 0 or with information, of write calls and of checks of non-selects, in order, and no others |
| OracleJournal.CommittingWriteLeavesNothingPending | src/oracleapi.cpp:1094-1114 | a write call with commit that returns 0 leaves nothing pending |
| OracleTransactions.GetErrAnswer | src/oracleapi.cpp:341-376 | getErr answers -99999 for exactly the five error numbers of a lost connection, and otherwise the number itself; 25402 lowers the flag |
| OracleTransactions.CheckConStatusAnswer | src/oracleapi.cpp:962-990 | -1 if the connection is not lost, 1 if some attempt succeeds, -99999 if none does |
| OracleTransactions.RunFlag | src/oracleapi.cpp:318-340 | after any run the transaction flag is up exactly when its last begin, commit, rollback, new session, error 25402 or write that was not prepared, was refused or commits was a begin |
| OracleTransactions.BeginCommitsIff | src/oracleapi.cpp:318-340 | what is pending at a beginTrans is committed there exactly when the flag is up by that rule, and else stays pending |
| OracleTransactions.NestedBegin | src/oracleapi.cpp:318-340 | what is pending at a beginTrans inside a transaction is committed, whatever follows |
| OracleAnswers.QueryText | src/oracleapi.cpp:1326-1375 | an open query is the statement with the text of the query; its code is 0 exactly when four answers are 0 |
| OracleAnswers.FetchQueryAnswer | src/oracleapi.cpp:1378-1460 | a fetch returns 0, -3 or -1 exactly as the library answers 0 or 99, 100, or anything else; getCurRec hands back the library's count; an unknown handle is answered with 1 and asks nothing |
| OracleAnswers.GetRecAnswer | src/oracleapi.cpp:1018-1056 | getRec, answer by answer: the end of the data can be told by executing and by fetching |
| OracleAnswers.IsTableAnswer | src/oracleapi.cpp:1520-1552 | isTable says yes exactly when the catalogue's row for the name is found; the statement is written out |
| OracleAnswers.CheckSelectAnswer | src/oracleapi.cpp:1571-1602 | checkSql of a select says yes exactly when it is created, prepared and executed |
| OracleAnswers.ExecuteSqlAnswer | src/oracleapi.cpp:1464-1517 | executeSql returns 0 exactly when no statement is open and creating, preparing and executing are answered with 0, and hands back the count if it is asked for |
| OracleAnswers.ParametersReachTheServer | src/oracleapi.cpp:1117-1286 | end to end: phSetSql, k setters and a committing phExecute return 0 exactly when the library creates, prepares, grants k bindings and executes; then it has committed that statement and reads through the binding at position i what the i-th setter was given, a string with its NUL |
| OracleAnswers.LongBindIs | src/oracleapi.cpp:1288-1323 | through the one binding of setLongFld the server reads the text of the message, under the type that the caller names |
| OracleAnswers.SetLongFldAnswer | src/oracleapi.cpp:1288-1323 | setLongFld returns 0 exactly when there is no message, or creating, preparing, binding and executing are answered with 0; without a message nothing changes |
| OracleAnswers.ConnectAnswer | src/oracleapi.cpp:945-960 | connect succeeds exactly when the names fit, the driver is not connected and the library grants it |
| OracleAnswers.DisconnectAnswer | src/oracleapi.cpp:992-997 | disconnect closes the scratch cursor, and a session that ends leaves nothing pending |
| OracleJournal.CheckSqlLeavesFailure | src/oracleapi.cpp:1571-1602 | checkSql of a non-select leaves a failure behind if and only if the scratch cursor is closed, creating and preparing are granted and executing is refused |
| OracleJournal.CheckSqlWritesIff | src/oracleapi.cpp:1571-1602 | checkSql of a non-select writes it if and only if it is created, prepared and executed, be it with information; it returns true only without |
| OracleJournal.RefusedCheckIsCommitted | src/oracleapi.cpp:1571-1602 | connect, a check that is answered with information and returns false, and a commit is a run that commits the checked statement |
| OracleJournal.RunCommitsOverFailureIff | src/oracleapi.cpp:1571-1602 | a run commits over a failed write if and only if a failed check is followed by a commit with no rollback in between |
| OracleJournal.CheckingSelectsIsClean | src/oracleapi.cpp:1571-1602 | a run that has only selects checked never leaves a failure behind |
| OracleJournal.CheckThenCommit | src/oracleapi.cpp:1571-1602 | connect, a check whose execution is refused, and a commit is a run that commits over the failure |
| OracleDrivers.OracleDriver.GetErr | src/oracleapi.cpp:341-376 | five codes are a lost connection; 25402 rolls back |
| OracleDrivers.OracleDriver.FailoverCleanup | src/oracleapi.h:328-329 | rolls back once more on 25402 |
| OracleDrivers.OracleDriver.Disconnect | src/oracleapi.cpp:992-997 | closes the scratch cursor, ends the session and frees the environment; the queries stay listed |
| OracleDrivers.OracleDriver.InSetSql | src/oracleapi.cpp:1073-1090 | closes, opens and prepares; on a failed prepare rolls back and closes |
| OracleDrivers.OracleDriver.InExec | src/oracleapi.cpp:1094-1114 | executes, closes, commits if asked; on failure rolls back and closes |
| OracleDrivers.OracleDriver.ExecuteSql | src/oracleapi.cpp:1464-1490 | the whole of executeSql, closed on every path |
| OracleDrivers.OracleDriver.GetRec | src/oracleapi.cpp:1018-1056 | the whole of getRec, closed on every path |
| OracleDrivers.OracleDriver.IsTable | src/oracleapi.cpp:1520-1552 | the whole of isTable, closed on every path |
| OracleDrivers.OracleDriver.CheckSql | src/oracleapi.cpp:1571-1602 | selects are executed for describing, others for real |
| OracleDrivers.OracleDriver.PhFree | src/oracleapi.cpp:1061-1070 | the loop empties every slot and leaves types and lengths behind |
| OracleDrivers.OracleDriver.PhSetSql | src/oracleapi.cpp:1117-1131 | stores the statement as it is, or fails and changes nothing |
| OracleDrivers.OracleDriver.PhSet | src/oracleapi.cpp:1134-1204 | the four setters: value there, slot from 1 to 32, that slot alone |
| OracleDrivers.OracleDriver.BindSlots | src/oracleapi.cpp:1222-1276 | the binding loop, closing on a failed binding |
| OracleDrivers.OracleDriver.PhExecute | src/oracleapi.cpp:1207-1286 | the whole of phExecute |
| OracleDrivers.OracleDriver.SetLongFld | src/oracleapi.cpp:1288-1323 | a null message is 0 and no write; else prepared, bound, executed and closed |
| OracleDrivers.OracleDriver.DrawHandle | src/oracleapi.cpp:1331-1336 | the search loop returns the first number drawn that is no handle in use |
| OracleDrivers.OracleDriver.Query | src/oracleapi.cpp:1326-1375 | lists a cursor, tries the query, and on failure closes, cleans up after a failover, unlinks and destroys |
| OracleDrivers.OracleDriver.Fetch | src/oracleapi.cpp:1378-1423 | 1 for an unknown handle, -3 at the end of the data, a long column to come is no error |
| OracleDrivers.OracleDriver.GetCurRec | src/oracleapi.cpp:1429-1442 | the row count of the cursor under the handle |
| OracleDrivers.OracleDriver.CloseQuery | src/oracleapi.cpp:1445-1460 | closes, unlinks and destroys the cursor under the handle |
| OracleDrivers.OracleDriver.CheckConStatus | src/oracleapi.cpp:962-990 | the retry loop; success is 1 whichever attempt it was |
| OracleDrivers.OracleDriver.Destroy | src/oracleapi.cpp:930-933 | after it no statement is live, and one was misused if and only if one had gone with its environment |
| QueryTable.OthersAreUntouched | src/dbapi.h:56-64 | in the table that both drivers implement, no request affects what another handle names |
| QueryTable.StepKeepsDistinct | src/dbapi.h:56-64 | no request makes a handle name two queries |
| QueryTable.BehaviourKeepsRows | src/dbapi.h:56-64 | over any behaviour of the table handles stay unique, and a query stays until it is closed or the connection is checked |
| QueryTable.MysqlRefines | src/mysqlapi.cpp:1360-1474 | every call of the MySQL driver is a step of the table; its answer (a row, no more rows, an error, a count, a handle) is the one the table gives to what the library said |
| QueryTable.MysqlRunRefines | src/mysqlapi.cpp:912-1601 | every run of the MySQL driver, with its checks of the connection, is a behaviour of the table |
| QueryTable.OracleRefines | src/oracleapi.cpp:1326-1460 | the same of every call of the Oracle driver, which was written separately and answers other codes |
| QueryTable.OracleRunRefines | src/oracleapi.cpp:946-1602 | every run of the Oracle driver is a behaviour of the same table |
| QueryTable.RetriesAgree | src/oracleapi.cpp:962-990 | on the same answers both reconnection loops make the same attempts and agree up to the success code |
| Parameters.SetterResult | src/mysqlapi.h:386-396 | the setters that count from 1 accept exactly 1 to 32, and set slot n - 1 alone; the slot means the value that was given |
| Parameters.AcceptedAlikeIff | src/mysqlapi.cpp:1525-1540 | a setting is accepted by both drivers or by neither, exactly if it has no value or its number is not 33 |
| Parameters.SettersAgree | src/oracleapi.cpp:1134-1204 | both drivers accept the same settings and set the same slot to the same value and type |
| Loader.StepKeepsInv | src/dbhandle.cpp:21-44 | every step of any thread keeps the invariant; once the flag is set it and the pointers stay |
| Loader.AtMostOneIsLoading | src/dbhandle.cpp:25-42 | in every interleaving at most one thread is between lock and unlock |
| Loader.FlagMeansResolved | src/dbhandle.cpp:37-42 | the flag is set only when every symbol is resolved |
| Loader.ReturnedSeesAllResolved | src/dbhandle.cpp:21-44 | a thread that returns sees every symbol resolved, then and at any later time |
| Loader.OnlyASymbolKeepsTheMutex | src/dbhandle.cpp:30-56 | a finished thread holds the mutex if and only if it threw on a symbol; a failed dlopen has given it back |
| Loader.StuckForEver | src/dbhandle.cpp:46-56 | once such a thread has finished, no flag is ever set and no thread ever returns |
| Loader.CanGetStuckIffASymbolIsMissing | src/dbhandle.cpp:46-56 | some interleaving loses the mutex if and only if a symbol of the list is missing |
| Loader.RunsAreBounded | src/dbhandle.cpp:21-44 | no interleaving is longer than the steps that the threads have: nobody spins |
| Loader.EverybodyFinishes | src/dbhandle.cpp:21-44 | when all symbols can be resolved, an interleaving that nobody can continue has every thread finished and the mutex free |
| Loader.OpensAtMostOncePerThread | src/dbhandle.cpp:23-30 | n threads open the library at most n times, and some interleaving does open it n times |
| Loader.DbHandle.LoadFunc | src/dbhandle.cpp:46-56 | assigns the pointer, null or not, before it asks for the error |
| Loader.DbHandle.LoadLibrary | src/dbhandle.cpp:21-44 | the code of one thread is a run of the protocol; its outcome in all four cases |
| OracleConnection.FreeHandleLeavesNothing | src/oracleapi.cpp:93-125 | freeing children first and the environment last leaves nothing and misuses nothing, however far allocation got; an attachment that is left is orphaned |
| OracleConnection.InitHandleGives | src/oracleapi.cpp:128-168 | five live handles, or those before the first refusal |
| OracleConnection.InitAnswers | src/oracleapi.cpp:128-168 | each of the five requests gets its own handle, or keeps the old one and answers -1 |
| OracleConnection.AttachServerGives | src/oracleapi.cpp:171-195 | attached and set, or a failure that may leave the server attached |
| OracleConnection.BeginSessionGives | src/oracleapi.cpp:246-284 | every failing exit after the attachment detaches, ends the session first if there is one, and frees |
| OracleConnection.ConnectResult | src/oracleapi.cpp:218-289 | connect returns 0 with five live handles, one attachment and one session if and only if the library grants twelve requests; else -1 and nothing; a server is orphaned if and only if it was attached and could not be set |
| OracleConnection.ConnectOverResult | src/oracleapi.cpp:93-289 | a lost connection connected anew over its old handles succeeds if and only if twelve requests are granted, and its old environment is freed if and only if there is no new one |
| OracleConnection.OneOrphan | src/oracleapi.cpp:171-195 | a library that refuses the eighth request: the attempt fails and server handle 5 is freed attached |
| OracleConnection.DisconnectResult | src/oracleapi.cpp:300-314 | ends the session, detaches and frees, in that order; -1 when not connected |
| OracleConnection.RunIsBracketed | src/oracleapi.cpp:84-314 | over any run of connects and disconnects nothing is misused, doubled or left behind |
| OracleConnection.OrphansOfRun | src/oracleapi.cpp:171-195 | exactly the attachments that could not be set are never detached |
| OracleConnection.DestroyLeavesNothing | src/oracleapi.cpp:84-90 | after any run and the destructor the library holds nothing |
| DbConnects.DbConnect.Connect | src/oracleapi.cpp:218-289 | the class refines Connect, exit by exit |
| DbConnects.DbConnect.InitHandle | src/oracleapi.cpp:128-168 | the class refines InitHandle |
| DbConnects.DbConnect.FreeHandle | src/oracleapi.cpp:93-125 | frees what is not null, in the source's order, and nulls it |
| DbConnects.DbConnect.Disconnect | src/oracleapi.cpp:300-314 | the class refines Disconnect |
| DbConnects.DbConnect.Destroy | src/oracleapi.cpp:84-90 | after it nothing is live, attached or in session |
| OracleColumns.ReadsWhatWasBound | src/oracleapi.cpp:530-595 | output reads the slot that implicitDefine bound, for exactly the types other than 3, 4, 6 and 8 |
| OracleColumns.SlotSufficesFor | src/oracleapi.cpp:539-553 | an int holds all numbers of up to 9 digits and a long long of up to 18, and of no more |
| OracleColumns.ConvertedIff | src/oracleapi.cpp:778-788 | an int holds exactly the whole numbers of 32 bits, the number slot those of 64 |
| OracleColumns.WholeNumbersAreExact | src/oracleapi.cpp:532-561 | a scale-0 column with a precision is fetched without loss if and only if its precision is at most 18 |
| OracleColumns.DefineMatches | src/oracleapi.cpp:482-610 | after a define that succeeds every column is described, bound and given a buffer of the bound length as its type asks |
| OracleColumns.DefineCounts | src/oracleapi.cpp:482-610 | how many columns a define counts and when it fails, from the answers for each column: it goes on to the next exactly when the column is named, bound and followed by another |
| OracleColumns.BoundAs | src/oracleapi.cpp:530-595 | the type number, buffer length and slot under which a column of each type is fetched |
| OracleColumns.DescribedAs | src/oracleapi.cpp:530-595 | the name, type and length that a column is given |
| FloatingPoint.RoundsExactlyIff | src/dbsql.cpp:179-183 | rounding to a binary format, to nearest and ties to even, leaves exactly the numbers of the format as they are |
| FloatingPoint.RoundedIsNearest | src/dbsql.cpp:179-183 | no number of the format is closer than the one rounded to |
| FloatingPoint.NearestIff | src/dbsql.cpp:179-183 | a significand is rounded to the integer less than a half away, and of two that are a half away to the even one |
| FloatingPoint.TensAreNumbersIff | src/oracleapi.cpp:532-561 | all numbers of so many digits times a power of ten are in the format if and only if the largest is, that is if its odd part fits the significand |
| FloatingPoint.NoDecimalFraction | src/oracleapi.cpp:532-561 | no binary format has a tenth, a hundredth and so on |
| OracleColumns.NarrowedExactlyIff | src/oracleapi.cpp:788-791 | fetched as a double and handed to setFloat, exactly the numbers that a float has stay what they are |
| OracleColumns.FieldIsRightIff | src/oracleapi.cpp:764-823 | after a define that succeeds, in every row fetched: NULL where the row is NULL, and else the row's value if and only if it is readable: never for LONG, the unfetched slot's content for the other misread types, whole numbers that fit 32 or 64 bits, other numbers that a float has, texts without NUL that fit, raw values that fit, and LONG RAW without NUL whose fetches do not fail or repeat themselves |
| OracleColumns.ColumnIsRightIff | src/oracleapi.cpp:764-823 | with no failing fetch, a column shows every row of fitting, NUL-free values right if and only if its type is not one of the four and, if it is a number, it has scale 0 and 1 to 18 digits, or a negative scale and its largest number is a float |
| OracleColumns.FiveFieldsAreLost | src/oracleapi.cpp:778-820 | a result defined and fetched without error that does not show a LONG, 16777217 as a NUMBER, a twenty-digit number, a cent and a LONG RAW with a NUL, but does show the nine-digit number in front |
| OracleColumns.ClockFollowsThePieces | src/oracleapi.cpp:807-813 | while a row is put out only LONG RAW columns that are not NULL make the library fetch, column after column |
| OracleColumns.DefineBooks | src/oracleapi.cpp:482-610 | describing anew returns the old buffers once and owns the new ones, wherever it stops |
| OracleColumns.EveryBufferIsReturnedOnce | src/oracleapi.cpp:645-661 | after any number of results freeDef leaves no buffer live |
| ColumnAreas.ColumnArea.FreeDef | src/oracleapi.cpp:645-661 | the loop over 150 columns returns every buffer and resets every slot but the number slot |
| ColumnAreas.ColumnArea.ImplicitDefine | src/oracleapi.cpp:482-610 | the describing loop with its breaks and returns |
| ColumnAreas.ColumnArea.Output | src/oracleapi.cpp:764-823 | one field per column, in order, long columns put together by fetchDefineFld, whole numbers converted and others narrowed to a float; 1 when there are none |
| LongColumn.TextsWholeIff | src/oracleapi.cpp:722-735 | the texts of all pieces together are the column if and only if it has no NUL |
| LongColumn.AssemblesTheColumn | src/oracleapi.cpp:701-744 | unless a fetch fails, the texts of all pieces are returned, whatever the column contains, in one byte more than it is long |
| LongColumn.FetchesTaken | src/oracleapi.cpp:714-741 | how often the library is asked: once per piece of 1024 bytes and once for the rest, and for an empty rest only if the fetch before answered 99 |
| LongColumn.FailureRepeatsTheLastPiece | src/oracleapi.cpp:717-741 | when the first failing fetch is number k, the texts of the first k pieces are returned and that of the last of them once more, whatever the column contains |
| LongColumn.ColumnIsWholeIff | src/oracleapi.cpp:701-744 | a column is returned as it is if and only if it has no NUL, and no fetch fails or the piece that failed to come equals the one before it |
| LongColumn.PieceTwice | src/oracleapi.cpp:717-741 | of a column of one piece and one character, whose second fetch fails, the piece is returned twice |
| LongColumn.AssembledFits | src/oracleapi.cpp:722-735 | the string always fits its allocation, whatever the pieces contain |
| LongColumn.StrNCat | src/oracleapi.cpp:729-729 | appends at most n characters, up to a NUL |
| LongColumn.FetchDefineFld | src/oracleapi.cpp:701-744 | the loop computes that string; every earlier allocation is deleted, and 1024 bytes are asked for at every loop head |
| DateFormat.ParsedUndoesFormatted | src/mysqlapi.cpp:41-82 | for normalised times the text has a fixed length and reading it at fixed places gives back what was printed |
| DateFormat.DefaultDateText | src/mysqlapi.cpp:46-56 | the default format: all six fields in 4 and 2 digits, with nothing between them |
| DateFormat.DateText | src/mysqlapi.cpp:57-82 | the two date formats: year, month and day with hyphens, or the other way round |
| DateFormat.DatetimeText | src/mysqlapi.cpp:46-82 | the datetime format: the date with hyphens, a blank, and the time with colons |
| DateFormat.FixedAt | src/mysqlapi.cpp:46-82 | character i of a field of w digits is that decimal place of the number |
| DateFormat.FormattedOrder | src/mysqlapi.cpp:46-71 | texts compare as times do: to the second in the default and datetime formats, to the day in the date format |
| DateFormat.OtherDateOrder | src/mysqlapi.cpp:72-78 | in the fourth format they compare by day, month, year |
| DateFormat.PrintTime | src/mysqlapi.cpp:41-82 | -1 and no change for a missing buffer or time, else as much of the text as fits the buffer with its NUL |

## Left out

Deliberately weaker, or assumed:

- Loader.ReturnedSeesAllResolved: reads of the flag are taken as sequentially consistent, and dlsym as answering the same for the same symbol; dlerror is taken to report on the call just made.
- Loader.DbHandle.LoadLibrary: one thread that runs uninterrupted and finds the mutex free; interleavings are the subject of the protocol, not of this method.
- PlaceholderRewriter.FillBuffer: statements whose rewriting would put the store after its last character outside the buffer are excluded by a precondition, as that store is undefined.
- MysqlDrivers.MysqlDriver.PhSetSql: the same statements are excluded.
- MysqlDrivers.MysqlDriver.BeginLoadBinaryData: the same statements are excluded.
- MysqlDrivers.MysqlDriver.SetLongFld: the same statements are excluded, and lengths beyond the caller's own buffer.
- MysqlDrivers.MysqlDriver.PhSetParm: the index 32, which the code accepts and for which there is no slot, is excluded by a precondition.
- Parameters.SetterResult: n == 33 is excluded, which becomes that index; `Parameters.AcceptedAlikeIff` says who accepts it.
- Parameters.SettersAgree: n == 33 is excluded for the same reason.
- MysqlDrivers.MysqlDriver.PhExecute: more set slots than the server counts parameters are excluded by a precondition, since the binding code does not check.
- MysqlDrivers.MysqlDriver.BindSlots: more set slots than bindings are excluded for the same reason.
- MysqlDrivers.MysqlDriver.TransferBinData: sending with no load begun hands the native library a null statement, and is excluded by a precondition.
- MysqlDrivers.MysqlDriver.EndLoadBinaryData: ending with no load begun is excluded for the same reason.
- MysqlRuns.HandlesAreNeverReused: for counters below the largest int; the model's integers do not wrap around.
- OracleDrivers.OracleDriver.DrawHandle: assumes that rand returns, sooner or later, a number that is no handle in use.
- OracleDrivers.OracleDriver.Query: defining the columns is one native call here; OracleColumns.dfy models it by itself.
- OracleEnvironment.ApplyLoses: an environment that a reconnection leaves behind is not counted as a resource, nor are the column buffers that the cursors of open queries own; OracleColumns.EveryBufferIsReturnedOnce accounts for those of one cursor.
- OracleConnection.RunIsBracketed: starts from null handles, which the constructor does not provide, and does not cover setNoConnct, after which a connect overwrites live handles; OracleEnvironment.dfy covers what that does to open queries.
- OracleColumns.FieldIsRightIff: the library is taken to round a number to the nearest double, and to cut a text longer than its buffer, as dates of more than 20 characters are.
- DateFormat.PrintTime: fields of 2^31 and more, which %d prints as negative numbers, are printed as they are.
- ColumnAreas.ColumnArea.ImplicitDefine: results of more than 150 columns are excluded by a precondition, since the loop does not check.
- HandleLists.HandleList.Add: Oracle's list links the cursors themselves; here a node holds its cursor, as MySQL's does.
- LongColumn.FetchDefineFld: asks for pieces of one column only; the statuses of the two piece-info calls are overwritten in the source and are not modelled.

Not modelled:

- Commit, rollback, session end and the closing of statements are assumed to succeed, as the code ignores their statuses; server autocommit is assumed off, and DDL through processDdl to commit nothing.
- Oracle's connect and disconnect are one native call each inside the driver model; the five handles are modelled by themselves.
- The content behind a caller's pointer is taken when the slot is set, not when the statement is executed.
- Error numbers and messages, `now_operation`, the copies of user name, password and host: incidental.
- The output conversions of MySQL rows, the rest of `TValue`, `TFieldList`, `outputStru`, `getSysDate`, `setDateFormat`, `fetchBlobColumn`: values, not protocol.
- The array of parameter bindings of a MySQL cursor is part of its state but not counted as a resource.
- Sleeping between attempts, sockets, signals, the failover callback, debug printing: foreign or input and output.
- The lists of symbols, the `dbapi` and `dbsql` facades, and the vendored headers: tables, delegation and declarations.
