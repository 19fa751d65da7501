/**
 The transaction flag of the Oracle driver, and what it is for: a beginTrans inside a transaction
 commits what the transaction has written so far.  Unlike the MySQL driver's, the flag also goes down
 when a statement cannot be prepared, and when the error 25402 is asked for.
 */
module OracleTransactions {
  import opened NativeServer
  import opened Journals
  import opened OracleSpec
  import opened OracleJournal

  // ---------------------------------------------------------------- the flag

  /** Where checkConStatus makes its first attempt: behind the error number, and the rollback it may ask for. */
  function FirstAttempt(t: Tape, clock: nat): nat {
    if t(clock).code == 25402 then clock + 2 else clock + 1
  }

  /** The error numbers by which the driver knows that the connection is lost, and the code it makes of them. */
  predicate IsLoss(code: int) {
    code in {1012, 3113, 3114, 12541, 28547, -99999}
  }

  /** checkConStatus finds the connection lost, and one of its attempts succeeds. */
  predicate Reconnects(t: Tape, d: Driver, maxRetryTimes: int) {
    && (!d.connected || IsLoss(t(d.server.clock).code))
    && exists k :: 0 <= k < maxRetryTimes && AttemptAt(t, FirstAttempt(t, d.server.clock), k) == 0
  }

  function AttemptAt(t: Tape, first: nat, k: nat): int {
    t(first + k).code
  }

  /** A call that asks for the error number, and is told that the transaction must roll back. */
  predicate ToldToRollBack(t: Tape, d: Driver, call: Call) {
    var at := ErrorAskedAt(t, d, call);
    at.Some? && t(at.value).code == 25402
  }

  /**
   What a call does to the flag, if anything: beginTrans raises it; commit, rollback, a write that cannot
   be prepared, is refused or commits, the error 25402, and a new session lower it.
   */
  function Mark(t: Tape, d: Driver, call: Call): Option<bool>
    requires Allowed(d, call)
  {
    if IsWrite(call) then
      match CourseOf(t, d, call)
      case Stopped => None
      case Unprepared => Some(false)
      case Asked(at) => if t(at).code == 0 && !CommitsAtOnce(call) then None else Some(false)
    else if ToldToRollBack(t, d, call) then Some(false)
    else match call
      case CallBeginTrans => Some(true)
      case CallCommitTrans => Some(false)
      case CallRollbackTrans => Some(false)
      case CallConnect(user, password, host) =>
        if |user| <= 63 && |password| <= 127 && |host| <= 63 && !d.connected && t(d.server.clock).code == 0
        then Some(false) else None
      case CallCheckConStatus(n) => if Reconnects(t, d, n) then Some(false) else None
      case _ => None
  }

  lemma AttemptAnswer(t: Tape, d: Driver, hasEnv: bool)
    ensures var (r, code) := (Attempt(t, d, hasEnv), AttemptAt(t, d.server.clock, 0));
            && r.rc == (if code == 0 then 0 else -1) && r.driver.trans == (d.trans && code != 0)
            && r.driver.server.clock == d.server.clock + 1 && (r.driver.connected <==> code == 0)
    ensures var f := FreeTable(Attempt(t, d, hasEnv).driver);
            f == Attempt(t, d, hasEnv).driver.(server := f.server, table := []) && f.server.clock == d.server.clock + 1
  {
    hide DestroyAll, Settle, FreeEnvironment, Numbered;
  }

  /** The attempts from one on: which of them succeeds decides the code and the flag. */
  lemma {:induction false} RetryAnswer(t: Tape, d: Driver, attempt: nat, maxRetryTimes: int)
    ensures var r := Retry(t, d, attempt, maxRetryTimes);
            var some := exists k :: 0 <= k < maxRetryTimes - attempt && AttemptAt(t, d.server.clock, k) == 0;
            && r.rc == (if some then 1 else -99999) && r.driver.trans == (d.trans && !some)
            && (r.driver.connected <==> some || (d.connected && attempt >= maxRetryTimes))
    decreases maxRetryTimes - attempt
  {
    hide FreeTable, Attempt;
    if attempt < maxRetryTimes {
      var r := Attempt(t, d, d.connected);
      AttemptAnswer(t, d, d.connected);
      var next := FreeTable(r.driver);
      if r.rc != 0 {
        RetryAnswer(t, next, attempt + 1, maxRetryTimes);
        assert forall k :: 0 <= k < maxRetryTimes - attempt - 1 ==>
                 AttemptAt(t, next.server.clock, k) == AttemptAt(t, d.server.clock, k + 1);
        assert forall k :: 1 <= k < maxRetryTimes - attempt ==>
                 AttemptAt(t, d.server.clock, k) == AttemptAt(t, next.server.clock, k - 1);
      }
    }
  }

  /** getErr: the loss of the connection is one code, and 25402 rolls back. */
  lemma GetErrAnswer(t: Tape, d: Driver)
    ensures var (r, code) := (GetErr(t, d), t(d.server.clock).code);
            && r.rc == (if IsLoss(code) then -99999 else code)
            && r.driver.trans == (d.trans && code != 25402)
            && r.driver.server.clock == FirstAttempt(t, d.server.clock) && r.driver.connected == d.connected
    ensures FailoverCleanup(t, d).trans == (d.trans && t(d.server.clock).code != 25402)
  {
    hide Settle;
  }

  /** checkConStatus: -1 for a connection that is not lost, 1 for a new one, -99999 for none. */
  lemma CheckConStatusAnswer(t: Tape, d: Driver, n: int)
    ensures var r := CheckConStatus(t, d, n);
            && r.rc == (if d.connected && !IsLoss(t(d.server.clock).code) then -1
                        else if Reconnects(t, d, n) then 1 else -99999)
            && r.driver.trans == (d.trans && t(d.server.clock).code != 25402 && !Reconnects(t, d, n))
            && (r.driver.connected <==> r.rc == 1 || r.rc == -1 || (d.connected && n <= 0))
  {
    hide GetErr, Retry;
    GetErrAnswer(t, d);
    RetryAnswer(t, GetErr(t, d).driver, 0, n);
  }

  lemma QueryFlag(t: Tape, d: Driver, sql: string, draws: seq<int>)
    requires draws != [] && !HasHandle(d.table, draws[|draws| - 1])
    ensures Query(t, d, sql, draws).driver.trans == (d.trans && !ToldToRollBack(t, d, CallQuery(sql, draws)))
  {
    hide OpenCur, PrepareCur, AskCur, Discard, Destroy, FailoverCleanup, HasHandle, FirstFresh, Numbered, Silent;
    CursorCodes(t, d.server, d.connected, sql);
    var o := OpenCur(t, d.server, NEW_CURSOR, d.connected);
    var p := PrepareCur(t, o.server, o.cursor, sql);
    var e := AskCur(t, p.server, p.cursor);
    DiscardKeepsClock(e.server, e.cursor);
    GetErrAnswer(t, d.(server := Discard(e.server, e.cursor)));
  }

  lemma PhSetFlag(d: Driver, setter: Setter, n: nat, value: Pointer)
    requires |d.slots| == SLOTS
    ensures PhSet(d, setter, n, value).driver.trans == d.trans
  {
  }

  lemma ReadingFlag(t: Tape, d: Driver, text: string)
    ensures var asks := !d.scratch.isOpen && ReadFails(t, d.server.clock);
            var told := asks && t(d.server.clock + 3).code == 25402;
            && GetRec(t, d, text).driver.trans == (d.trans && !told)
            && CheckSql(t, d, Some(text), true).driver.trans == (d.trans && !told)
  {
    hide OpenScratch, CloseScratch, PrepareScratch, AskScratch, FailoverCleanup, Numbered, Silent;
    AskedFlag(t, d, text);
  }

  lemma IsTableFlag(t: Tape, d: Driver, name: string)
    ensures var asks := !d.scratch.isOpen && ReadFails(t, d.server.clock);
            IsTable(t, d, name).driver.trans == (d.trans && !(asks && t(d.server.clock + 3).code == 25402))
  {
    hide OpenScratch, CloseScratch, PrepareScratch, AskScratch, FailoverCleanup, Numbered, Silent, TableQuery;
    AskedFlag(t, d, TableQuery(name));
  }

  /** After opening, preparing and executing for reading, the question for the error. */
  lemma AskedFlag(t: Tape, d: Driver, text: string)
    ensures var (o, k) := (OpenScratch(t, d), d.server.clock);
            && (o.rc == 0 <==> !d.scratch.isOpen && t(k).code == 0)
            && (o.rc == 0 ==>
                  var p := PrepareScratch(t, o.driver, text);
                  && (p.rc == 0 <==> t(k + 1).code == 0)
                  && (p.rc == 0 ==>
                        var e := AskScratch(t, p.driver);
                        && e.rc == t(k + 2).code
                        && FailoverCleanup(t, CloseScratch(e.driver)).trans == (d.trans && t(k + 3).code != 25402)))
  {
    hide OpenScratch, CloseScratch, PrepareScratch, AskScratch, FailoverCleanup, Numbered, Silent, StatementOf;
    OpenedScratch(t, d);
    var o := OpenScratch(t, d);
    if o.rc == 0 {
      PreparedText(t, o.driver, text);
      var p := PrepareScratch(t, o.driver, text);
      AskedScratch(t, p.driver);
      var e := AskScratch(t, p.driver);
      ClosedScratch(e.driver);
      GetErrAnswer(t, CloseScratch(e.driver));
    }
  }

  lemma CheckFlag(t: Tape, d: Driver, text: Option<string>)
    ensures CheckSql(t, d, text, false).driver.trans == d.trans
    ensures CheckSql(t, d, None, true).driver.trans == d.trans
  {
    hide OpenScratch, CloseScratch, PrepareScratch, WriteScratch;
  }

  lemma CallSetsFlag(t: Tape, d: Driver, call: Call)
    requires Allowed(d, call)
    ensures var mark := Mark(t, d, call);
            Apply(t, d, call).driver.trans == if mark.Some? then mark.value else d.trans
  {
    hide CourseOf, WriteOf, Reconnects, CheckConStatus, CloseScratch, Settle, GetRec, IsTable, CheckSql, Query, GetErr,
      FetchQuery, GetCurRec, CloseQuery, PhSet, PhSetSql, PhFree, FreeEnvironment, TableQuery;
    if IsWrite(call) {
      hide Apply;
      WriteCallTrace(t, d, call);
    } else {
      match call
      case CallGetErr => GetErrAnswer(t, d);
      case CallCheckConStatus(n) => CheckConStatusAnswer(t, d, n);
      case CallGetRec(sql) => ReadingFlag(t, d, sql);
      case CallIsTable(name) => IsTableFlag(t, d, name);
      case CallCheckSql(text, isSelect) =>
        CheckFlag(t, d, text);
        if text.Some? {
          ReadingFlag(t, d, text.value);
        }
      case CallQuery(sql, draws) => QueryFlag(t, d, sql, draws);
      case CallPhSet(setter, n, value) => PhSetFlag(d, setter, n, value);
      case _ => PlainFlag(t, d, call);
    }
  }

  /** Calls that ask nothing, or only about an open query, and those about transactions and sessions. */
  lemma PlainFlag(t: Tape, d: Driver, call: Call)
    requires Allowed(d, call) && !IsWrite(call) && !call.CallGetErr? && !call.CallCheckConStatus? && !call.CallGetRec?
    requires !call.CallIsTable? && !call.CallCheckSql? && !call.CallQuery? && !call.CallPhSet?
    ensures var mark := Mark(t, d, call);
            Apply(t, d, call).driver.trans == if mark.Some? then mark.value else d.trans
  {
    hide CloseScratch, Settle, FreeEnvironment, Discard, Find;
  }

  /** The last mark of a run. */
  function LastMark(t: Tape, d: Driver, calls: seq<Call>): Option<bool>
    requires RunAllowed(t, d, calls)
    decreases calls
  {
    if calls == [] then None
    else
      var later := LastMark(t, Apply(t, d, calls[0]).driver, calls[1..]);
      if later.Some? then later else Mark(t, d, calls[0])
  }

  /** After any run the flag is up exactly when its last mark was a begin; if it has none, the flag is as it was. */
  lemma {:induction false} RunFlag(t: Tape, d: Driver, calls: seq<Call>)
    requires RunAllowed(t, d, calls)
    ensures var mark := LastMark(t, d, calls);
            Run(t, d, calls).trans == if mark.Some? then mark.value else d.trans
    decreases calls
  {
    hide Apply, Mark;
    if calls != [] {
      CallSetsFlag(t, d, calls[0]);
      RunFlag(t, Apply(t, d, calls[0]).driver, calls[1..]);
    }
  }

  // ---------------------------------------------------------------- what it is for

  /**
   A write that is pending at a beginTrans is committed there exactly when the last mark before it was a
   begin, or there was none and the flag was up to begin with; otherwise it stays pending.
   */
  lemma BeginCommitsIff(t: Tape, d: Driver, calls: seq<Call>, i: nat)
    requires RunAllowed(t, d, calls)
    requires var j := Run(t, d, calls).server.journal; i < |j| && j[i].fate.Pending?
    ensures var d1 := Run(t, d, calls);
            var j := Apply(t, d1, CallBeginTrans).driver.server.journal;
            && i < |j| && j[i].write == d1.server.journal[i].write
            && var mark := LastMark(t, d, calls);
            j[i].fate == if (if mark.Some? then mark.value else d.trans) then Committed else Pending
  {
    hide Run, LastMark, Settle;
    RunFlag(t, d, calls);
  }

  /** Once a write is committed or rolled back, it is so for ever. */
  lemma SettledForEver(t: Tape, d: Driver, calls: seq<Call>, i: nat)
    requires RunAllowed(t, d, calls) && i < |d.server.journal| && !d.server.journal[i].fate.Pending?
    ensures var j := Run(t, d, calls).server.journal; i < |j| && j[i] == d.server.journal[i]
  {
    hide Run, RunTrace, FateAfter, WritesOf;
    RunJournal(t, d, calls);
  }

  /**
   Nested transactions.  What is pending at a beginTrans inside a transaction is committed, whatever
   follows.
   */
  lemma NestedBegin(t: Tape, d: Driver, before: seq<Call>, after: seq<Call>, i: nat)
    requires RunAllowed(t, d, before) && LastMark(t, d, before) == Some(true)
    requires var d1 := Run(t, d, before);
             && i < |d1.server.journal| && d1.server.journal[i].fate.Pending?
             && RunAllowed(t, Apply(t, d1, CallBeginTrans).driver, after)
    ensures var d1 := Run(t, d, before);
            var j := Run(t, Apply(t, d1, CallBeginTrans).driver, after).server.journal;
            i < |j| && j[i] == Entry(d1.server.journal[i].write, Committed)
  {
    hide Run, LastMark, Settle, Apply;
    BeginCommitsIff(t, d, before, i);
    SettledForEver(t, Apply(t, Run(t, d, before), CallBeginTrans).driver, after, i);
  }
}
