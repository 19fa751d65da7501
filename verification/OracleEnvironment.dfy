/**
 Open queries and the environment they were opened in.  disconnect frees the environment of the
 connection and closes no query, and so does a reconnection that is refused before it has a new
 environment.  Here is when that matters, and what it leads to.
 */
module OracleEnvironment {
  import opened NativeServer
  import opened OracleSpec
  import opened OracleRuns
  import C = OracleConnection

  /** Some open query was opened on the connection as it is now. */
  predicate OpenedHere(d: Driver) {
    exists i :: 0 <= i < |d.table| && d.table[i].cursor.stmt in d.server.children
  }

  /** An answer that checkConStatus takes for a lost connection. */
  predicate IsLost(code: int) {
    code in LOST_CODES || code == LOST_CONNECTION
  }

  /** checkConStatus finds the connection lost, and its first attempt is refused before it has an environment. */
  predicate LostForGood(t: Tape, d: Driver, maxRetryTimes: int) {
    maxRetryTimes > 0 && IsLost(t(d.server.clock).code) && t(d.server.clock + 1).code < 0
  }

  /** The call frees the environment of an open query. */
  predicate Severs(t: Tape, d: Driver, call: Call) {
    && d.connected && OpenedHere(d)
    && (call.CallDisconnect? || (call.CallCheckConStatus? && LostForGood(t, d, call.maxRetryTimes)))
  }

  predicate SomeSevers(t: Tape, d: Driver, calls: seq<Call>)
    requires RunAllowed(t, d, calls)
    decreases calls
  {
    calls != [] && (Severs(t, d, calls[0]) || SomeSevers(t, Apply(t, d, calls[0]).driver, calls[1..]))
  }

  /** While nothing has gone, the statements that an environment takes with it are those of open queries. */
  lemma OrphansAreOpenedHere(d: Driver)
    requires Idle(d) && d.server.gone == {}
    ensures Orphans(d.server) != {} <==> OpenedHere(d)
  {
    hide HeldAll, SlotsOk;
    assert d.server.live == multiset{} + HeldAll(d.table);
    if Orphans(d.server) != {} {
      var id :| id in Orphans(d.server);
      HeldAllHas(d.table, id);
    }
    if OpenedHere(d) {
      var i :| 0 <= i < |d.table| && d.table[i].cursor.stmt in d.server.children;
      HeldAllHas(d.table, d.table[i].cursor.stmt);
      assert d.table[i].cursor.stmt in Orphans(d.server);
    }
  }

  /**
   The one answer by which the driver connects stands for the twelve requests of the connection: success
   is the same, and over an old environment its statements go exactly if the connection has freed it.
   */
  lemma ConnectOverFollows(t: Tape, c: C.Conn, u: Tape, s: Server)
    requires C.InSession(c) && u(s.clock).code == C.Summary(t, c.oci.clock)
    ensures var (s', code) := ConnectOver(u, s, true);
            var r := C.Connect(t, c.(connected := false));
            && (code == 0 <==> r.rc == 0)
            && s'.gone == if c.env in r.conn.oci.live then s.gone else s.gone + Orphans(s)
  {
    hide C.Connect, C.InSession, Settle;
    C.ConnectOverResult(t, c);
  }

  /** Without an environment there is nothing to lose. */
  lemma ConnectNewFollows(t: Tape, c: C.Conn, u: Tape, s: Server)
    requires !c.connected && u(s.clock).code == C.Summary(t, c.oci.clock)
    ensures var (s', code) := ConnectOver(u, s, false);
            (code == 0 <==> C.Connect(t, c).rc == 0) && s'.gone == s.gone
  {
    hide C.Connect, Settle;
    C.ConnectCode(t, c);
  }

  // ---------------------------------------------------------------- what calls do to what has gone

  lemma DisconnectLoses(d: Driver)
    requires Idle(d)
    ensures var d' := Disconnect(d).driver;
            && d.server.gone <= d'.server.gone
            && (d.server.gone == {} ==> (d'.server.gone != {} <==> d.connected && OpenedHere(d)))
  {
    hide BooksOk, CloseCur, Settle, OpenedHere;
    IdleCloses(d);
    if d.server.gone == {} {
      OrphansAreOpenedHere(d);
    }
  }

  lemma IdleCloses(d: Driver)
    requires Idle(d)
    ensures CloseScratch(d) == d
  {
  }

  lemma AttemptLoses(t: Tape, d: Driver, hasEnv: bool)
    requires Idle(d)
    ensures var d' := Attempt(t, d, hasEnv).driver;
            && d.server.gone <= d'.server.gone
            && (d.server.gone == {} ==> (d'.server.gone != {} <==> hasEnv && OpenedHere(d) && Code(t, d.server) < 0))
  {
    hide BooksOk, Settle, OpenedHere;
    if d.server.gone == {} {
      OrphansAreOpenedHere(d);
    }
  }

  lemma {:induction false} DestroyAllLoses(s: Server, table: seq<Listed>)
    ensures DestroyAll(s, table).gone == s.gone
  {
  }

  /** Only the first attempt meets an environment with open queries. */
  lemma {:induction false} RetryLoses(t: Tape, d: Driver, attempt: nat, maxRetryTimes: int)
    requires Idle(d)
    ensures var d' := Retry(t, d, attempt, maxRetryTimes).driver;
            && d.server.gone <= d'.server.gone
            && (d.server.gone == {} ==>
                  (d'.server.gone != {} <==>
                     attempt < maxRetryTimes && d.connected && OpenedHere(d) && Code(t, d.server) < 0))
    decreases maxRetryTimes - attempt
  {
    hide BooksOk, Attempt, DestroyAll;
    if attempt < maxRetryTimes {
      var r := Attempt(t, d, d.connected);
      AttemptBooks(t, d, d.connected);
      AttemptLoses(t, d, d.connected);
      if r.rc != 0 {
        FreeTableBooks(r.driver);
        DestroyAllLoses(r.driver.server, r.driver.table);
        RetryLoses(t, FreeTable(r.driver), attempt + 1, maxRetryTimes);
      }
    }
  }

  lemma GetErrKeeps(t: Tape, d: Driver)
    ensures var e := GetErr(t, d).driver;
            && e.server.gone == d.server.gone && e.server.children == d.server.children
            && e.table == d.table && e.connected == d.connected
            && (GetErr(t, d).rc == LOST_CONNECTION <==> IsLost(Code(t, d.server)))
            && (IsLost(Code(t, d.server)) ==> e.server.clock == d.server.clock + 1)
    ensures FailoverCleanup(t, d).server.gone == d.server.gone
  {
    hide Settle;
  }

  lemma CheckLoses(t: Tape, d: Driver, maxRetryTimes: int)
    requires Idle(d)
    ensures var d' := CheckConStatus(t, d, maxRetryTimes).driver;
            && d.server.gone <= d'.server.gone
            && (d.server.gone == {} ==> (d'.server.gone != {} <==> Severs(t, d, CallCheckConStatus(maxRetryTimes))))
  {
    hide BooksOk, GetErr, Retry;
    GetErrKeeps(t, d);
    GetErrBooks(t, d);
    var e := GetErr(t, d).driver;
    assert OpenedHere(e) == OpenedHere(d);
    if !(e.connected && GetErr(t, d).rc != LOST_CONNECTION) {
      RetryLoses(t, e, 0, maxRetryTimes);
    }
  }

  lemma QueryKeeps(t: Tape, d: Driver, sql: string, draws: seq<int>)
    requires draws != [] && !HasHandle(d.table, draws[|draws| - 1])
    ensures Query(t, d, sql, draws).driver.server.gone == d.server.gone
  {
    hide OpenCur, PrepareCur, AskCur, Discard, Destroy, FailoverCleanup, HasHandle, FirstFresh;
    var o := OpenCur(t, d.server, NEW_CURSOR, d.connected);
    var p := PrepareCur(t, o.server, o.cursor, sql);
    var e := AskCur(t, p.server, p.cursor);
    GetErrKeeps(t, d.(server := Discard(e.server, e.cursor)));
  }

  lemma AskingKeeps(t: Tape, d: Driver, sql: string, text: Option<string>, isSelect: bool)
    ensures GetRec(t, d, sql).driver.server.gone == IsTable(t, d, sql).driver.server.gone == d.server.gone
    ensures CheckSql(t, d, text, isSelect).driver.server.gone == d.server.gone
  {
    hide OpenScratch, PrepareScratch, AskScratch, CloseScratch, FailoverCleanup, TableQuery;
    forall d': Driver {:trigger FailoverCleanup(t, d')}
      ensures FailoverCleanup(t, d').server.gone == d'.server.gone
    {
      GetErrKeeps(t, d');
    }
  }

  lemma {:induction false} BindSlotsKeeps(t: Tape, d: Driver, i: nat)
    requires i <= |d.slots|
    ensures BindSlots(t, d, i).driver.server.gone == d.server.gone
  {
    hide BindScratch, CloseScratch, BindOf;
  }

  lemma InExecKeeps(t: Tape, d: Driver, isCommit: bool)
    ensures InExec(t, d, isCommit).driver.server.gone == d.server.gone
  {
    hide CloseScratch, Settle;
  }

  lemma PiecesKeep(t: Tape)
    ensures forall d: Driver {:trigger CommitTrans(d)} :: CommitTrans(d).server.gone == d.server.gone
    ensures forall d: Driver {:trigger RollbackTrans(d)} :: RollbackTrans(d).server.gone == d.server.gone
    ensures forall d: Driver {:trigger WriteScratch(t, d)} :: WriteScratch(t, d).driver.server.gone == d.server.gone
  {
    hide Settle;
  }

  lemma WritingKeeps(t: Tape, d: Driver, sql: string, wantCount: bool, isCommit: bool, msg: Pointer, longType: int)
    ensures ExecuteSql(t, d, sql, wantCount, isCommit).driver.server.gone == d.server.gone
    ensures SetLongFld(t, d, sql, msg, longType, isCommit).driver.server.gone == d.server.gone
    ensures InSetSql(t, d, sql).driver.server.gone == d.server.gone
  {
    hide OpenScratch, PrepareScratch, BindScratch, AskScratch, CloseScratch, WriteScratch, CommitTrans, RollbackTrans;
    PiecesKeep(t);
  }

  lemma PhExecuteKeeps(t: Tape, d: Driver, isCommit: bool)
    ensures PhExecute(t, d, isCommit).driver.server.gone == d.server.gone
  {
    hide InSetSql, BindSlots, InExec;
    if d.connected {
      WritingKeeps(t, d, d.sql, false, false, Null, 0);
      var r := InSetSql(t, d, d.sql).driver;
      BindSlotsKeeps(t, r, 0);
      InExecKeeps(t, BindSlots(t, r, 0).driver, isCommit);
    }
  }

  /** A call loses statements exactly when it severs. */
  lemma ApplyLoses(t: Tape, d: Driver, call: Call)
    requires Idle(d) && Allowed(d, call)
    ensures var d' := Apply(t, d, call).driver;
            d.server.gone <= d'.server.gone && (d.server.gone == {} ==> (d'.server.gone != {} <==> Severs(t, d, call)))
  {
    hide BooksOk, Disconnect, CheckConStatus, GetErr, ExecuteSql, GetRec, IsTable, CheckSql, PhExecute,
      SetLongFld, Query, Settle, OpenedHere, Discard, Find, HasHandle;
    match call
    case CallDisconnect => DisconnectLoses(d);
    case CallCheckConStatus(n) => CheckLoses(t, d, n);
    case CallGetErr => GetErrKeeps(t, d);
    case CallExecuteSql(sql, wantCount, isCommit) => WritingKeeps(t, d, sql, wantCount, isCommit, Null, 0);
    case CallGetRec(sql) => AskingKeeps(t, d, sql, None, false);
    case CallIsTable(name) => AskingKeeps(t, d, name, None, false);
    case CallCheckSql(text, isSelect) => AskingKeeps(t, d, "", text, isSelect);
    case CallPhExecute(isCommit) => PhExecuteKeeps(t, d, isCommit);
    case CallSetLongFld(sql, msg, longType, isCommit) => WritingKeeps(t, d, sql, false, isCommit, msg, longType);
    case CallQuery(sql, draws) => QueryKeeps(t, d, sql, draws);
    case _ =>
  }

  // ---------------------------------------------------------------- runs

  lemma {:induction false} RunLoses(t: Tape, d: Driver, calls: seq<Call>)
    requires Idle(d) && RunAllowed(t, d, calls)
    ensures Idle(Run(t, d, calls))
    ensures Run(t, d, calls).server.gone != {} <==> d.server.gone != {} || SomeSevers(t, d, calls)
    decreases calls
  {
    hide Idle, Apply, Severs;
    if calls != [] {
      ApplyIdle(t, d, calls[0]);
      ApplyLoses(t, d, calls[0]);
      RunLoses(t, Apply(t, d, calls[0]).driver, calls[1..]);
    }
  }

  /**
   Destroying the driver after any run leaves no live statement, and has misused one exactly if some
   call of the run freed the environment of a query that was open.
   */
  lemma DestroyAfterAnyRun(t: Tape, d: Driver, calls: seq<Call>)
    requires Unused(d) && RunAllowed(t, d, calls)
    ensures var s := DestroyDriver(Run(t, d, calls));
            s.live == multiset{} && (s.misused <==> SomeSevers(t, d, calls))
  {
    hide Run, BooksOk, SomeSevers;
    UnusedIsIdle(d);
    RunLoses(t, d, calls);
    DestroyBooks(Run(t, d, calls));
  }

  /** No connected disconnect, and no check of the connection, is made while a query is open. */
  predicate Careful(t: Tape, d: Driver, calls: seq<Call>)
    requires RunAllowed(t, d, calls)
    decreases calls
  {
    calls == []
    || (((calls[0].CallDisconnect? || calls[0].CallCheckConStatus?) && d.connected ==> d.table == [])
        && Careful(t, Apply(t, d, calls[0]).driver, calls[1..]))
  }

  /** A caller who closes its queries first never loses one. */
  lemma {:induction false} CarefulRunsLoseNothing(t: Tape, d: Driver, calls: seq<Call>)
    requires RunAllowed(t, d, calls) && Careful(t, d, calls)
    ensures !SomeSevers(t, d, calls)
    decreases calls
  {
    hide Apply;
    if calls != [] {
      CarefulRunsLoseNothing(t, Apply(t, d, calls[0]).driver, calls[1..]);
    }
  }

  /** A query that is open at a disconnect cannot be closed any more without misuse. */
  lemma ClosingAfterDisconnect(d: Driver, k: nat)
    requires Idle(d) && d.server.gone == {} && d.connected && k < |d.table|
             && d.table[k].cursor.stmt in d.server.children
    ensures var d' := Disconnect(d).driver;
            && d'.table == d.table && !d'.server.misused
            && CloseQuery(d', d.table[k].handle).driver.server.misused
  {
    hide HeldAll, Settle, Numbered, SlotsOk;
    IdleCloses(d);
    var d' := Disconnect(d).driver;
    var id := d.table[k].cursor.stmt;
    HeldAllHas(d.table, id);
    assert d.server.live == multiset{} + HeldAll(d.table);
    LiveOnce(d, id);
    assert id !in d'.server.live;
    FindAt(d.table, k);
  }

  lemma LiveOnce(d: Driver, id: nat)
    requires Idle(d) && id in d.server.live
    ensures d.server.live[id] == 1
  {
  }

  lemma {:induction false} FindAt(table: seq<Listed>, k: nat)
    requires TableOk(table) && k < |table|
    ensures Find(table, table[k].handle) == k
  {
    var j := Find(table, table[k].handle);
    assert j <= k ==> j < |table|;
  }

  function Connected(d: Driver): Driver
    requires Unused(d)
  {
    d.(server := FRESH_SERVER.(clock := 1), connected := true, trans := false)
  }

  function Querying(d: Driver): Driver
    requires Unused(d)
  {
    Connected(d).(server := FRESH_SERVER.(clock := 5, live := multiset{2}, children := {2},
                                          stmts := map[2 := Statement("", map[], "")]),
                  table := [Listed(7, Cursor(true, 2))])
  }

  lemma ConnectGranted(t: Tape, d: Driver)
    requires Unused(d) && t(0).code == 0
    ensures Apply(t, d, CallConnect("", "", "")) == Ok(Connected(d))
  {
  }

  lemma QueryGranted(d: Driver)
    requires Unused(d)
    ensures Allowed(Connected(d), CallQuery("", [7]))
    ensures Apply(Granting(), Connected(d), CallQuery("", [7])) == Result(Querying(d), 0, Some(7))
  {
    assert FirstFresh([], [7]) == 0;
    assert multiset{} + multiset{2} == multiset{2} && {} + {2} == {2};
    assert [] + [Listed(7, Cursor(true, 2))] == [Listed(7, Cursor(true, 2))];
  }

  lemma RunCons(t: Tape, d: Driver, call: Call, rest: seq<Call>)
    requires Allowed(d, call) && RunAllowed(t, Apply(t, d, call).driver, rest)
    ensures RunAllowed(t, d, [call] + rest) && Run(t, d, [call] + rest) == Run(t, Apply(t, d, call).driver, rest)
  {
    hide Apply;
    assert ([call] + rest)[1..] == rest;
  }

  /** Connect, query, disconnect, close the query: the run that shows it, on a library that grants all. */
  lemma OpenQueryAtDisconnect(d: Driver)
    requires Unused(d)
    ensures var calls := [CallConnect("", "", ""), CallQuery("", [7]), CallDisconnect, CallCloseQuery(7)];
            RunAllowed(Granting(), d, calls) && Run(Granting(), d, calls).server.misused
  {
    hide CloseQuery, Disconnect, Query, Find, FirstFresh, Idle;
    var t, q := Granting(), Querying(d);
    ConnectGranted(t, d);
    QueryGranted(d);
    UnusedIsIdle(d);
    ApplyIdle(t, d, CallConnect("", "", ""));
    ApplyIdle(t, Connected(d), CallQuery("", [7]));
    ClosingAfterDisconnect(q, 0);
    var e := Disconnect(q).driver;
    RunCons(t, e, CallCloseQuery(7), []);
    RunCons(t, q, CallDisconnect, [CallCloseQuery(7)]);
    RunCons(t, Connected(d), CallQuery("", [7]), [CallDisconnect, CallCloseQuery(7)]);
    RunCons(t, d, CallConnect("", "", ""), [CallQuery("", [7]), CallDisconnect, CallCloseQuery(7)]);
  }
}
