/**
 The transaction flag of the MySQL driver, and what it is for: a beginTrans inside a transaction
 commits what the transaction has written so far.
 */
module MysqlTransactions {
  import opened NativeServer
  import opened Journals
  import opened MysqlSpec
  import opened MysqlJournal
  import R = MysqlRuns

  // ---------------------------------------------------------------- the flag

  /** checkConStatus finds the connection lost, and one of its attempts succeeds. */
  predicate Reconnects(t: Tape, d: Driver, maxRetryTimes: int) {
    R.Lost(t, d) && exists k :: 0 <= k < maxRetryTimes && R.Attempt(t, d.server.clock, k) == 0
  }

  /**
   What a call does to the flag, if anything: beginTrans raises it; commit, rollback, a write that is
   refused or commits, and a new session lower it.
   */
  function Mark(t: Tape, d: Driver, call: Call): Option<bool>
    requires Allowed(t, d, call)
  {
    if IsWrite(call) then
      var at := ExecuteAt(t, d, call);
      if at.Some? && (t(at.value).code != 0 || CommitsAtOnce(call)) then Some(false) else None
    else match call
      case CallBeginTrans => Some(true)
      case CallCommitTrans => Some(false)
      case CallRollbackTrans => Some(false)
      case CallConnect(user, password, host) =>
        if |user| <= 63 && |password| <= 127 && |host| <= 63 && !d.connected && t(d.server.clock).code == 0
        then Some(false) else None
      case CallCheckConStatus(n) => if Reconnects(t, d, n) then Some(false) else None
      case _ => None
  }

  lemma {:induction false} RetryFlag(t: Tape, d: Driver, attempt: nat, maxRetryTimes: int)
    ensures var r := Retry(t, d, attempt, maxRetryTimes); r.driver.trans == (d.trans && r.rc < 0)
    decreases maxRetryTimes - attempt
  {
    hide DestroyAll, Settle;
    if attempt < maxRetryTimes {
      RetryFlag(t, FreeTable(ConnectNative(t, d.(connected := false)).driver), attempt + 1, maxRetryTimes);
    }
  }

  lemma CheckFlag(t: Tape, d: Driver, n: int)
    ensures CheckConStatus(t, d, n).driver.trans == (d.trans && !Reconnects(t, d, n))
  {
    hide Retry, R.FirstSuccess;
    R.CheckConStatusResult(t, d, n);
    RetryFlag(t, d.(server := AskConnection(t, d.server).0), 0, n);
  }

  lemma QueriesKeepFlag(t: Tape, d: Driver, text: Option<string>, handle: int)
    ensures Query(t, d, text).driver.trans == CloseQuery(d, handle).driver.trans == d.trans
    ensures FetchQuery(t, d, handle).driver.trans == GetCurRec(t, d, handle).driver.trans == d.trans
    ensures PhSetSql(d, text).driver.trans == d.trans
  {
    hide OpenQuery, Discard, Find;
  }

  lemma QuietCallsKeepFlag(t: Tape, d: Driver, call: Call)
    requires Allowed(t, d, call) && IsQuiet(call)
    ensures Apply(t, d, call).driver.trans == d.trans
  {
    hide BeginLong, InSetSql, GetRec, TransferBinData, CloseScratch, Query, CloseQuery, FetchQuery, GetCurRec, PhSetSql,
      RoomForSlots, Fits, ShowTables, Begins;
    match call
    case CallBeginLoad(text, colType) => BeginLongText(t, d, text, LoadBind(colType));
    case CallTransfer(data) => SentText(t, d, data);
    case CallPhSetSql(text) => QueriesKeepFlag(t, d, text, 0);
    case CallQuery(text) => QueriesKeepFlag(t, d, text, 0);
    case CallFetch(handle) => QueriesKeepFlag(t, d, None, handle);
    case CallGetCurRec(handle) => QueriesKeepFlag(t, d, None, handle);
    case CallCloseQuery(handle) => QueriesKeepFlag(t, d, None, handle);
    case _ =>
  }

  lemma CallSetsFlag(t: Tape, d: Driver, call: Call)
    requires Allowed(t, d, call)
    ensures var mark := Mark(t, d, call);
            Apply(t, d, call).driver.trans == if mark.Some? then mark.value else d.trans
  {
    hide ExecuteAt, WriteOf, Reconnects, CheckConStatus, CloseScratch, RoomForSlots, Settle;
    if IsWrite(call) {
      hide Apply;
      WriteCallTrace(t, d, call);
    } else if IsQuiet(call) {
      hide Apply;
      QuietCallsKeepFlag(t, d, call);
    } else if call.CallCheckConStatus? {
      CheckFlag(t, d, call.maxRetryTimes);
    }
  }

  /** The last mark of a run. */
  function LastMark(t: Tape, d: Driver, calls: seq<Call>): Option<bool>
    requires RunAllowed(t, d, calls)
    decreases calls
  {
    if calls == [] then None
    else
      var later := LastMark(t, Apply(t, d, calls[0]).driver, calls[1..]);
      if later.Some? then later else Mark(t, d, calls[0])
  }

  /**
   After any run the flag is up exactly when the last of its begins, commits, rollbacks, refused and
   committing writes and new sessions was a begin; if it has none of these, the flag is as it was.
   */
  lemma {:induction false} RunFlag(t: Tape, d: Driver, calls: seq<Call>)
    requires RunAllowed(t, d, calls)
    ensures var mark := LastMark(t, d, calls);
            Run(t, d, calls).trans == if mark.Some? then mark.value else d.trans
    decreases calls
  {
    hide Apply, Mark;
    if calls != [] {
      CallSetsFlag(t, d, calls[0]);
      RunFlag(t, Apply(t, d, calls[0]).driver, calls[1..]);
    }
  }

  // ---------------------------------------------------------------- what it is for

  /**
   A write that is pending at a beginTrans is committed there exactly when the last mark before it was a
   begin, or there was none and the flag was up to begin with; otherwise it stays pending.
   */
  lemma BeginCommitsIff(t: Tape, d: Driver, calls: seq<Call>, i: nat)
    requires RunAllowed(t, d, calls)
    requires var j := Run(t, d, calls).server.journal; i < |j| && j[i].fate.Pending?
    ensures var d1 := Run(t, d, calls);
            var j := Apply(t, d1, CallBeginTrans).driver.server.journal;
            && i < |j| && j[i].write == d1.server.journal[i].write
            && var mark := LastMark(t, d, calls);
            j[i].fate == if (if mark.Some? then mark.value else d.trans) then Committed else Pending
  {
    hide Run, LastMark, Settle;
    RunFlag(t, d, calls);
  }

  /** Once a write is committed or rolled back, it is so for ever. */
  lemma SettledForEver(t: Tape, d: Driver, calls: seq<Call>, i: nat)
    requires RunAllowed(t, d, calls) && i < |d.server.journal| && !d.server.journal[i].fate.Pending?
    ensures var j := Run(t, d, calls).server.journal; i < |j| && j[i] == d.server.journal[i]
  {
    hide Run, RunTrace, FateAfter, WritesOf;
    RunJournal(t, d, calls);
  }

  /**
   Nested transactions.  What is pending at a beginTrans inside a transaction is committed, whatever
   follows.
   */
  lemma NestedBegin(t: Tape, d: Driver, before: seq<Call>, after: seq<Call>, i: nat)
    requires RunAllowed(t, d, before) && LastMark(t, d, before) == Some(true)
    requires var d1 := Run(t, d, before);
             && i < |d1.server.journal| && d1.server.journal[i].fate.Pending?
             && RunAllowed(t, Apply(t, d1, CallBeginTrans).driver, after)
    ensures var d1 := Run(t, d, before);
            var j := Run(t, Apply(t, d1, CallBeginTrans).driver, after).server.journal;
            i < |j| && j[i] == Entry(d1.server.journal[i].write, Committed)
  {
    hide Run, LastMark, Settle, Apply;
    BeginCommitsIff(t, d, before, i);
    SettledForEver(t, Apply(t, Run(t, d, before), CallBeginTrans).driver, after, i);
  }

  /** A library that grants everything. */
  function Granting(): Tape {
    _ => Reply(0, Field("", 0, 0, false))
  }

  function Outer(sql: string): seq<Call> {
    [CallBeginTrans, CallExecuteSql(sql, false, false)]
  }

  /** Begin, write, begin, roll back: the write is committed. */
  lemma RollbackOfTheInner(d: Driver, sql: string)
    requires d.connected && !d.scratch.isOpen && d.server.journal == []
    ensures var t, calls := Granting(), Outer(sql);
            && RunAllowed(t, d, calls)
            && var d2 := Apply(t, Run(t, d, calls), CallBeginTrans).driver;
            Apply(t, d2, CallRollbackTrans).driver.server.journal == [Entry(Statement(sql, map[], ""), Committed)]
  {
    hide Apply, Mark, Replay, Trace;
    var t, calls := Granting(), Outer(sql);
    var write := CallExecuteSql(sql, false, false);
    var d1 := Begun(t, d);
    var d2 := Apply(t, d1, write).driver;
    var rest := calls[1..];
    assert rest == [write] && rest[1..] == [];
    assert RunAllowed(t, d2, rest[1..]) && RunAllowed(t, d1, rest);
    assert Run(t, d1, rest) == Run(t, d2, rest[1..]) == d2;
    ApplyJournal(t, d1, write);
    ExecuteMarks(t, d1, sql);
    ReplayShort(LogOf(d1.server), Wrote(Statement(sql, map[], "")), Failed);
    CallSetsFlag(t, d1, write);
    assert d2.server.journal == [Entry(Statement(sql, map[], ""), Pending)];
    var d3 := Again(t, d2);
    RolledBackInner(t, d3);
  }

  /** A write without commit that the library accepts leaves the flag alone. */
  lemma ExecuteMarks(t: Tape, d: Driver, sql: string)
    requires t == Granting() && d.connected && !d.scratch.isOpen
    ensures var write := CallExecuteSql(sql, false, false);
            Mark(t, d, write) == None && Trace(t, d, write) == [Wrote(Statement(sql, map[], ""))]
  {
  }

  lemma Begun(t: Tape, d: Driver) returns (d1: Driver)
    ensures d1 == Apply(t, d, CallBeginTrans).driver && d1.trans
    ensures d1.connected == d.connected && d1.scratch == d.scratch
    ensures d.server.journal == [] ==> d1.server.journal == []
  {
    d1 := Apply(t, d, CallBeginTrans).driver;
  }

  lemma Again(t: Tape, d: Driver) returns (d1: Driver)
    requires d.trans
    ensures d1 == Apply(t, d, CallBeginTrans).driver && |d1.server.journal| == |d.server.journal|
    ensures forall i :: 0 <= i < |d.server.journal| && d.server.journal[i].fate.Pending? ==>
              d1.server.journal[i] == Entry(d.server.journal[i].write, Committed)
  {
    d1 := Apply(t, d, CallBeginTrans).driver;
  }

  lemma RolledBackInner(t: Tape, d: Driver)
    ensures var j := Apply(t, d, CallRollbackTrans).driver.server.journal;
            && |j| == |d.server.journal|
            && forall i :: 0 <= i < |j| && d.server.journal[i].fate.Committed? ==> j[i] == d.server.journal[i]
  {
  }
}
