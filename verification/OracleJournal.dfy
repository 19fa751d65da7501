/**
 What runs of the Oracle driver do to the journal of writes.  It differs from the MySQL driver in four
 places: a statement that cannot be prepared rolls back what is pending, the error number 25402 rolls
 back whoever asks for it, a write that is executed with information counts as refused, and checkSql
 executes a statement that is no select without rolling back when that fails.
 */
module OracleJournal {
  import opened NativeServer
  import opened Journals
  import opened OracleSpec
  import R = OracleRuns
  import E = OracleEnvironment

  /** How far a write call gets: to an answer to executing its statement, or not to preparing it, or nowhere. */
  datatype Course = Stopped | Unprepared | Asked(at: nat)

  /**
   A write that got as far as being executed.  The driver takes every status but 0 for a failure and
   rolls back, also when the server has executed the statement and only has something to say about it.
   */
  function AskedTrace(t: Tape, at: nat, write: Statement, isCommit: bool): seq<Event> {
    if t(at).code == SUCCESS_WITH_INFO then [Wrote(write), RollBackAll] else WriteTrace(t, Some(at), write, isCommit)
  }

  lemma AskedTraceReplays(t: Tape, l: Log, at: nat, write: Statement, isCommit: bool)
    ensures Replay(l, AskedTrace(t, at, write, isCommit)) ==
            if t(at).code == SUCCESS_WITH_INFO then Note(Note(l, Wrote(write)), RollBackAll)
            else if t(at).code != 0 then Note(Note(l, Failed), RollBackAll)
            else if isCommit then Note(Note(l, Wrote(write)), CommitAll)
            else Note(l, Wrote(write))
  {
    hide Note;
    WriteTraceReplays(t, l, at, write, isCommit);
    ReplayShort(l, Wrote(write), RollBackAll);
  }

  function CourseTrace(t: Tape, course: Course, write: Statement, isCommit: bool): seq<Event> {
    match course
    case Stopped => []
    case Unprepared => [RollBackAll]
    case Asked(at) => AskedTrace(t, at, write, isCommit)
  }

  predicate Accepted(t: Tape, course: Course) {
    course.Asked? && t(course.at).code == 0
  }

  /**
   The outcome of a call that was to execute `write`.  Accepted, it joins the journal, and all is
   committed if asked.  Unprepared or refused, all that is pending is rolled back.  Stopped before,
   the call changes nothing.
   */
  predicate WriteOutcome(t: Tape, d: Driver, r: Result, course: Course, write: Statement, isCommit: bool) {
    && LogOf(r.driver.server) == Replay(LogOf(d.server), CourseTrace(t, course, write, isCommit))
    && r.rc == (if Accepted(t, course) then 0 else -1)
    && r.driver.trans == (d.trans && (course.Stopped? || (Accepted(t, course) && !isCommit)))
  }

  // ---------------------------------------------------------------- the write calls

  lemma PreparedText(t: Tape, d: Driver, sql: string)
    ensures var r := PrepareScratch(t, d, sql);
            && r.driver.scratch == d.scratch && (r.rc == 0 || r.rc == -1) && (r.rc == 0 <==> Code(t, d.server) == 0)
            && r.driver.server.clock == d.server.clock + 1
            && (r.rc == 0 ==> StatementOf(r.driver.server, d.scratch.stmt) == Statement(sql, map[], ""))
  {
  }

  lemma OpenedScratch(t: Tape, d: Driver)
    ensures var r := OpenScratch(t, d);
            && (r.rc == 0 || r.rc == -1) && (r.rc == 0 <==> !d.scratch.isOpen && Code(t, d.server) == 0)
            && (r.rc == 0 ==> r.driver.server.clock == d.server.clock + 1)
  {
  }

  lemma ClosedScratch(d: Driver)
    ensures var c := CloseScratch(d); !c.scratch.isOpen && c.server.clock == d.server.clock
  {
  }

  /** A prepared statement given up: closed, after a rollback. */
  lemma GivenUp(d: Driver, d1: Driver)
    requires ScratchSilent(d, d1)
    ensures var d' := CloseScratch(RollbackTrans(d1));
            LogOf(d'.server) == Replay(LogOf(d.server), [RollBackAll]) && !d'.trans
  {
    hide CloseScratch, Settle, Replay;
    ReplayShort(LogOf(d.server), RollBackAll, RollBackAll);
  }

  /** What comes after steps that no one but the scratch cursor notices, comes after all. */
  lemma AfterSilence(t: Tape, d: Driver, d1: Driver)
    requires LogOf(d1.server) == LogOf(d.server) && d1.trans == d.trans
    ensures forall r, course, write, isCommit {:trigger WriteOutcome(t, d1, r, course, write, isCommit)} ::
              WriteOutcome(t, d1, r, course, write, isCommit) ==> WriteOutcome(t, d, r, course, write, isCommit)
  {
    hide Replay, CourseTrace;
  }

  lemma StoppedOutcome(t: Tape, d: Driver, d1: Driver, write: Statement, isCommit: bool)
    requires LogOf(d1.server) == LogOf(d.server) && d1.trans == d.trans
    ensures WriteOutcome(t, d, Fail(CloseScratch(d1)), Stopped, write, isCommit)
    ensures WriteOutcome(t, d, Fail(d1), Stopped, write, isCommit)
  {
    hide CloseScratch;
  }

  lemma UnpreparedOutcome(t: Tape, d: Driver, d1: Driver, write: Statement, isCommit: bool)
    requires ScratchSilent(d, d1)
    ensures WriteOutcome(t, d, Fail(CloseScratch(RollbackTrans(d1))), Unprepared, write, isCommit)
  {
    hide CloseScratch, RollbackTrans, Replay;
    GivenUp(d, d1);
  }

  /** inExec: a write that succeeds joins the journal; one that fails takes all that is pending with it. */
  lemma InExecWrites(t: Tape, d: Driver, isCommit: bool)
    ensures WriteOutcome(t, d, InExec(t, d, isCommit), Asked(d.server.clock), StatementOf(d.server, d.scratch.stmt),
                         isCommit)
  {
    hide CloseScratch, Settle, Replay;
    AskedTraceReplays(t, LogOf(d.server), d.server.clock, StatementOf(d.server, d.scratch.stmt), isCommit);
  }

  /** What happens to a prepared statement: executed, counted if the caller wants to know, and closed. */
  lemma ExecutedAndClosed(t: Tape, d: Driver, wantCount: bool, isCommit: bool)
    ensures var e := WriteScratch(t, d);
            var course, write := Asked(d.server.clock), StatementOf(d.server, d.scratch.stmt);
            if e.rc != 0 then WriteOutcome(t, d, Fail(CloseScratch(RollbackTrans(e.driver))), course, write, isCommit)
            else
              var a := if wantCount then AskScratch(t, e.driver) else e;
              var c := CloseScratch(a.driver);
              var value := if wantCount then Some(a.rc) else None;
              WriteOutcome(t, d, Result(if isCommit then CommitTrans(c) else c, 0, value), course, write, isCommit)
  {
    hide CloseScratch, AskScratch, Settle, Replay;
    AskedTraceReplays(t, LogOf(d.server), d.server.clock, StatementOf(d.server, d.scratch.stmt), isCommit);
  }

  /** Opening takes the first answer and preparing the second; `next` is what comes then. */
  function AfterPrepare(t: Tape, clock: nat, next: Course): Course {
    if t(clock).code != 0 then Stopped else if t(clock + 1).code != 0 then Unprepared else next
  }

  function ExecuteSqlCourse(t: Tape, d: Driver): Course {
    if d.scratch.isOpen then Stopped else AfterPrepare(t, d.server.clock, Asked(d.server.clock + 2))
  }

  lemma ExecuteSqlWrites(t: Tape, d: Driver, sql: string, wantCount: bool, isCommit: bool)
    ensures WriteOutcome(t, d, ExecuteSql(t, d, sql, wantCount, isCommit), ExecuteSqlCourse(t, d),
                         Statement(sql, map[], ""), isCommit)
  {
    hide OpenScratch, CloseScratch, PrepareScratch, AskScratch, WriteScratch, CommitTrans, RollbackTrans,
      StatementOf, AskedTrace;
    OpenedScratch(t, d);
    var o := OpenScratch(t, d);
    if o.rc == 0 {
      PreparedText(t, o.driver, sql);
      var p := PrepareScratch(t, o.driver, sql);
      GivenUp(d, p.driver);
      if p.rc == 0 {
        ExecutedAndClosed(t, p.driver, wantCount, isCommit);
      }
    }
  }

  lemma InSetSqlPrepares(t: Tape, d: Driver, sql: string)
    ensures var (r, k) := (InSetSql(t, d, sql), d.server.clock);
            && r.driver.slots == d.slots && r.driver.connected == d.connected && r.driver.sql == d.sql
            && r.rc == (if t(k).code == 0 && t(k + 1).code == 0 then 0 else -1)
            && (if t(k).code == 0 && t(k + 1).code != 0 then
                  LogOf(r.driver.server) == Replay(LogOf(d.server), [RollBackAll]) && !r.driver.trans
                else LogOf(r.driver.server) == LogOf(d.server) && r.driver.trans == d.trans)
            && (r.rc == 0 ==> StatementOf(r.driver.server, r.driver.scratch.stmt) == Statement(sql, map[], "")
                              && r.driver.server.clock == k + 2)
  {
    hide OpenScratch, CloseScratch, PrepareScratch, RollbackTrans, Replay;
    var c := CloseScratch(d);
    ClosedScratch(d);
    OpenedScratch(t, c);
    var o := OpenScratch(t, c);
    PreparedText(t, o.driver, sql);
    var p := PrepareScratch(t, o.driver, sql).driver;
    GivenUp(d, p);
    assert CloseScratch(RollbackTrans(p)).slots == d.slots by { RollbackKeeps(p); }
    RollbackKeeps(p);
  }

  lemma RollbackKeeps(d: Driver)
    ensures RollbackTrans(d) == d.(server := RollbackTrans(d).server, trans := false)
  {
  }

  /** Number of slots set without a gap from the first. */
  function SetPrefix(slots: seq<Slot>): (k: nat)
    ensures k <= |slots|
    ensures forall i :: 0 <= i < k ==> slots[i].data.To?
    ensures k < |slots| ==> slots[k].data.Null?
  {
    if slots == [] || slots[0].data.Null? then 0 else 1 + SetPrefix(slots[1..])
  }

  /** The first `k` slots, slot i bound at position i + 1. */
  function BoundUpTo(slots: seq<Slot>, k: nat): map<int, Bind>
    requires k <= SetPrefix(slots)
  {
    if k == 0 then map[] else BoundUpTo(slots, k - 1)[k := BindOf(slots[k - 1])]
  }

  /** All slots up to the first gap. */
  function BoundSlots(slots: seq<Slot>): map<int, Bind> {
    BoundUpTo(slots, SetPrefix(slots))
  }

  lemma {:induction false} BoundUpToMeans(slots: seq<Slot>, k: nat)
    requires k <= SetPrefix(slots)
    ensures forall p :: p in BoundUpTo(slots, k) <==> 1 <= p <= k
    ensures forall p :: 1 <= p <= k ==> BoundUpTo(slots, k)[p] == BindOf(slots[p - 1])
  {
    if k > 0 {
      BoundUpToMeans(slots, k - 1);
    }
  }

  lemma BindScratchText(t: Tape, d: Driver, position: int, bind: Bind)
    ensures var r := BindScratch(t, d, position, bind);
            var text := StatementOf(d.server, d.scratch.stmt);
            && r.driver.scratch == d.scratch && r.rc == Code(t, d.server) && r.driver.server.clock == d.server.clock + 1
            && (r.rc >= 0 ==>
                  StatementOf(r.driver.server, d.scratch.stmt) == text.(binds := text.binds[position := bind]))
  {
  }

  /** From slot `i` on, every slot up to the gap has a type that can be bound, and its binding is granted. */
  predicate BindsFrom(t: Tape, clock: nat, slots: seq<Slot>, i: nat)
    requires i <= SetPrefix(slots)
    decreases SetPrefix(slots) - i
  {
    i == SetPrefix(slots) || (Supported(slots[i].ty) && t(clock).code >= 0 && BindsFrom(t, clock + 1, slots, i + 1))
  }

  lemma {:induction false} BindSlotsBinds(t: Tape, d: Driver, i: nat)
    requires i <= SetPrefix(d.slots)
    requires StatementOf(d.server, d.scratch.stmt).binds == BoundUpTo(d.slots, i)
    ensures var r := BindSlots(t, d, i);
            var text := StatementOf(d.server, d.scratch.stmt);
            && r.rc == (if BindsFrom(t, d.server.clock, d.slots, i) then 0 else -1) && r.value == None
            && (r.rc == 0 ==>
                  && r.driver.scratch == d.scratch
                  && r.driver.server.clock == d.server.clock + SetPrefix(d.slots) - i
                  && StatementOf(r.driver.server, d.scratch.stmt) == text.(binds := BoundSlots(d.slots)))
    decreases |d.slots| - i
  {
    hide BindScratch, CloseScratch, BindOf, StatementOf;
    if i == |d.slots| || d.slots[i].data.Null? {
      assert i == SetPrefix(d.slots);
    } else if Supported(d.slots[i].ty) {
      var bind := BindOf(d.slots[i]);
      BindScratchText(t, d, i + 1, bind);
      var b := BindScratch(t, d, i + 1, bind);
      if b.rc >= 0 {
        BindSlotsBinds(t, b.driver, i + 1);
      }
    }
  }

  function PhExecuteCourse(t: Tape, d: Driver): Course {
    var k := d.server.clock;
    if !d.connected then Stopped
    else AfterPrepare(t, k, if BindsFrom(t, k + 2, d.slots, 0) then Asked(k + 2 + SetPrefix(d.slots)) else Stopped)
  }

  lemma FailedCourse(t: Tape, d: Driver, d1: Driver, course: Course, write: Statement, isCommit: bool)
    requires !course.Asked?
    requires LogOf(d1.server) == Replay(LogOf(d.server), if course.Unprepared? then [RollBackAll] else [])
    requires d1.trans == (d.trans && course.Stopped?)
    ensures WriteOutcome(t, d, Fail(d1), course, write, isCommit)
  {
    hide Replay;
  }

  /** Forgetting the parameters does not change the outcome. */
  lemma Freed(t: Tape, d: Driver, r: Result, course: Course, write: Statement, isCommit: bool)
    requires WriteOutcome(t, d, r, course, write, isCommit)
    ensures r.rc < 0 ==> WriteOutcome(t, d, Fail(r.driver), course, write, isCommit)
    ensures r.rc == 0 ==> WriteOutcome(t, d, Ok(PhFree(r.driver)), course, write, isCommit)
    ensures (r.rc == 0 || r.rc == -1) && SetPrefix(PhFree(r.driver).slots) == 0
  {
    hide Replay, CourseTrace;
  }

  lemma InExecCode(t: Tape, d: Driver, isCommit: bool)
    ensures InExec(t, d, isCommit).rc == if Code(t, d.server) == 0 then 0 else -1
  {
    hide CloseScratch, CommitTrans, RollbackTrans;
  }

  lemma BoundNothing(slots: seq<Slot>)
    ensures BoundUpTo(slots, 0) == map[]
  {
  }

  /** phExecute hands the server the statement as the caller wrote it, slot i bound at position i + 1. */
  lemma PhExecuteWrites(t: Tape, d: Driver, isCommit: bool)
    ensures var r := PhExecute(t, d, isCommit);
            && WriteOutcome(t, d, r, PhExecuteCourse(t, d), Statement(d.sql, BoundSlots(d.slots), ""), isCommit)
            && (r.rc == 0 ==> d.connected && r.driver.sql == "" && SetPrefix(r.driver.slots) == 0)
  {
    hide InSetSql, BindSlots, InExec, BindOf, StatementOf, WriteOutcome, BindsFrom, BoundSlots, Replay,
      CourseTrace, Numbered, AskedTrace;
    BoundNothing(d.slots);
    var write := Statement(d.sql, BoundSlots(d.slots), "");
    StoppedOutcome(t, d, d, write, isCommit);
    if d.connected {
      InSetSqlPrepares(t, d, d.sql);
      var s := InSetSql(t, d, d.sql);
      if s.rc != 0 {
        ReplayShort(LogOf(d.server), RollBackAll, RollBackAll);
        FailedCourse(t, d, s.driver, if t(d.server.clock).code == 0 then Unprepared else Stopped, write, isCommit);
      } else {
        BindSlotsBinds(t, s.driver, 0);
        var b := BindSlots(t, s.driver, 0);
        StoppedOutcome(t, d, b.driver, write, isCommit);
        if b.rc == 0 {
          InExecWrites(t, b.driver, isCommit);
          AfterSilence(t, d, b.driver);
          InExecCode(t, b.driver, isCommit);
          Freed(t, d, InExec(t, b.driver, isCommit), Asked(b.driver.server.clock), write, isCommit);
        }
      }
    }
  }

  /** A null message to setLongFld writes nothing and is no error. */
  function SetLongFldCourse(t: Tape, d: Driver): Course {
    var k := d.server.clock;
    if d.scratch.isOpen then Stopped else AfterPrepare(t, k, if t(k + 2).code == 0 then Asked(k + 3) else Stopped)
  }

  lemma SetLongFldWrites(t: Tape, d: Driver, sql: string, msg: Pointer, longType: int, isCommit: bool)
    requires msg.To?
    ensures WriteOutcome(t, d, SetLongFld(t, d, sql, msg, longType, isCommit), SetLongFldCourse(t, d),
                         Statement(sql, map[1 := LongBind(msg, longType)], ""), isCommit)
  {
    hide OpenScratch, CloseScratch, PrepareScratch, BindScratch, WriteScratch, CommitTrans, RollbackTrans,
      StatementOf, InExec, LongBind, WriteOutcome;
    var write := Statement(sql, map[1 := LongBind(msg, longType)], "");
    OpenedScratch(t, d);
    var o := OpenScratch(t, d);
    AfterSilence(t, d, o.driver);
    if o.rc != 0 {
      assert WriteOutcome(t, d, Fail(o.driver), Stopped, write, isCommit)
        by { StoppedOutcome(t, d, o.driver, write, isCommit); }
    } else {
      PreparedText(t, o.driver, sql);
      var p := PrepareScratch(t, o.driver, sql);
      if p.rc != 0 {
        UnpreparedOutcome(t, d, p.driver, write, isCommit);
      } else {
        var b := BindScratch(t, p.driver, 1, LongBind(msg, longType));
        BindScratchText(t, p.driver, 1, LongBind(msg, longType));
        StoppedOutcome(t, d, b.driver, write, isCommit);
        ExecutedAndClosed(t, b.driver, false, isCommit);
        AfterSilence(t, d, b.driver);
      }
    }
  }

  // ---------------------------------------------------------------- every call

  predicate IsWrite(call: Call) {
    call.CallExecuteSql? || call.CallPhExecute? || (call.CallSetLongFld? && call.msg.To?)
  }

  function CommitsAtOnce(call: Call): bool
    requires IsWrite(call)
  {
    match call
    case CallExecuteSql(_, _, isCommit) => isCommit
    case CallSetLongFld(_, _, _, isCommit) => isCommit
    case CallPhExecute(isCommit) => isCommit
  }

  function WriteOf(d: Driver, call: Call): Statement
    requires IsWrite(call)
  {
    match call
    case CallExecuteSql(sql, _, _) => Statement(sql, map[], "")
    case CallSetLongFld(sql, msg, longType, _) => Statement(sql, map[1 := LongBind(msg, longType)], "")
    case CallPhExecute(_) => Statement(d.sql, BoundSlots(d.slots), "")
  }

  function CourseOf(t: Tape, d: Driver, call: Call): Course
    requires IsWrite(call)
  {
    match call
    case CallExecuteSql(_, _, _) => ExecuteSqlCourse(t, d)
    case CallSetLongFld(_, _, _, _) => SetLongFldCourse(t, d)
    case CallPhExecute(_) => PhExecuteCourse(t, d)
  }

  /** A statement for reading is opened and prepared, and executing it fails. */
  predicate ReadFails(t: Tape, clock: nat) {
    t(clock).code == 0 && t(clock + 1).code == 0 && t(clock + 2).code != 0
  }

  /** Where a call gets the answer to its question for the error number, if it asks. */
  function ErrorAskedAt(t: Tape, d: Driver, call: Call): Option<nat> {
    var k := d.server.clock;
    if call.CallGetErr? || call.CallCheckConStatus? then Some(k)
    else if (call.CallGetRec? || call.CallIsTable? || (call.CallCheckSql? && call.isSelect && call.text.Some?))
            && !d.scratch.isOpen && ReadFails(t, k) then Some(k + 3)
    else if call.CallQuery? && ReadFails(t, k) then Some(k + 3)
    else None
  }

  predicate MustRollBack(t: Tape, d: Driver, call: Call) {
    var at := ErrorAskedAt(t, d, call);
    at.Some? && t(at.value).code == MUST_ROLL_BACK
  }

  /** checkConStatus finds the connection alive. */
  predicate Alive(t: Tape, d: Driver) {
    d.connected && Code(t, d.server) !in LOST_CODES && Code(t, d.server) != LOST_CONNECTION
  }

  /** checkSql executes a statement that is no select. */
  predicate ChecksByExecuting(t: Tape, d: Driver, call: Call) {
    var k := d.server.clock;
    call.CallCheckSql? && !call.isSelect && call.text.Some? && !d.scratch.isOpen && t(k).code == 0 && t(k + 1).code == 0
  }

  /** And the server refuses: nobody rolls back. */
  predicate LeavesFailure(t: Tape, d: Driver, call: Call) {
    ChecksByExecuting(t, d, call) && !IsDone(t(d.server.clock + 2).code)
  }

  /** What a call does to the journal, from its arguments, the state it finds and the answers it gets. */
  function Trace(t: Tape, d: Driver, call: Call): seq<Event> {
    if IsWrite(call) then CourseTrace(t, CourseOf(t, d, call), WriteOf(d, call), CommitsAtOnce(call))
    else if MustRollBack(t, d, call) then [RollBackAll]
    else if ChecksByExecuting(t, d, call) then
      [if IsDone(t(d.server.clock + 2).code) then Wrote(Statement(call.text.value, map[], "")) else Failed]
    else match call
      // a nested unit commits the earlier one first
      case CallBeginTrans => if d.trans then [CommitAll] else []
      case CallCommitTrans => [CommitAll]
      case CallRollbackTrans => [RollBackAll]
      // the end of a session rolls back what it left pending
      case CallConnect(user, password, host) =>
        if d.connected || |user| > 63 || |password| > 127 || |host| > 63 then [] else [RollBackAll]
      case CallDisconnect => if d.connected then [RollBackAll] else []
      case CallCheckConStatus(n) => if Alive(t, d) || n <= 0 then [] else [RollBackAll]
      case _ => []
  }

  /** A call that asks for the error number rolls back exactly when the number is 25402. */
  lemma GetErrRollsBack(t: Tape, d: Driver)
    ensures var (e, f, code) := (GetErr(t, d).driver, FailoverCleanup(t, d), Code(t, d.server));
            && LogOf(e.server) == (if code == MUST_ROLL_BACK then Note(LogOf(d.server), RollBackAll)
                                   else LogOf(d.server))
            && LogOf(f.server) == LogOf(e.server)
            && (GetErr(t, d).rc == LOST_CONNECTION <==> code in LOST_CODES || code == LOST_CONNECTION)
            && e.connected == d.connected
  {
    hide Settle;
    RollBackTwice(LogOf(d.server));
  }

  lemma AskedScratch(t: Tape, d: Driver)
    ensures var r := AskScratch(t, d); r.rc == Code(t, d.server) && r.driver.server.clock == d.server.clock + 1
  {
  }

  /** Opened, prepared and executed for reading; what comes after does not touch the journal, but for the question. */
  predicate ReadThrough(t: Tape, d: Driver, r: Driver) {
    var l, k := LogOf(d.server), d.server.clock;
    var asks := !d.scratch.isOpen && ReadFails(t, k);
    LogOf(r.server) == if asks && t(k + 3).code == MUST_ROLL_BACK then Note(l, RollBackAll) else l
  }

  lemma ReadingSteps(t: Tape, d: Driver, text: string)
    ensures var (o, k) := (OpenScratch(t, d), d.server.clock);
            && (o.rc == 0 <==> !d.scratch.isOpen && t(k).code == 0) && LogOf(o.driver.server) == LogOf(d.server)
            && (o.rc == 0 ==>
                  var p := PrepareScratch(t, o.driver, text);
                  && (p.rc == 0 <==> t(k + 1).code == 0) && LogOf(CloseScratch(p.driver).server) == LogOf(d.server)
                  && (p.rc == 0 ==>
                        var e := AskScratch(t, p.driver);
                        && e.rc == t(k + 2).code && LogOf(e.driver.server) == LogOf(d.server)
                        && (e.rc != 0 ==> ReadThrough(t, d, FailoverCleanup(t, CloseScratch(e.driver))))))
  {
    hide OpenScratch, CloseScratch, PrepareScratch, AskScratch, FailoverCleanup, Numbered, GetErr, Note, StatementOf;
    OpenedScratch(t, d);
    var o := OpenScratch(t, d);
    if o.rc == 0 {
      PreparedText(t, o.driver, text);
      var p := PrepareScratch(t, o.driver, text);
      AskedScratch(t, p.driver);
      var e := AskScratch(t, p.driver);
      ClosedScratch(e.driver);
      GetErrRollsBack(t, CloseScratch(e.driver));
    }
  }

  lemma GetRecReads(t: Tape, d: Driver, text: string)
    ensures ReadThrough(t, d, GetRec(t, d, text).driver)
  {
    hide OpenScratch, CloseScratch, PrepareScratch, AskScratch, FailoverCleanup, Numbered, Note;
    ReadingSteps(t, d, text);
  }

  lemma IsTableReads(t: Tape, d: Driver, name: string)
    ensures ReadThrough(t, d, IsTable(t, d, name).driver)
  {
    hide OpenScratch, CloseScratch, PrepareScratch, AskScratch, FailoverCleanup, Numbered, Note, TableQuery;
    ReadingSteps(t, d, TableQuery(name));
  }

  lemma CheckSelectReads(t: Tape, d: Driver, text: string)
    ensures ReadThrough(t, d, CheckSql(t, d, Some(text), true).driver)
  {
    hide OpenScratch, CloseScratch, PrepareScratch, AskScratch, FailoverCleanup, Numbered, Note;
    ReadingSteps(t, d, text);
  }

  /** getRec, isTable, and checkSql of a select. */
  lemma ReadingRollsBack(t: Tape, d: Driver, call: Call, text: string)
    requires Allowed(d, call)
    requires call == CallGetRec(text) || (call.CallIsTable? && text == TableQuery(call.name))
             || call == CallCheckSql(Some(text), true)
    ensures var l := LogOf(d.server);
            LogOf(Apply(t, d, call).driver.server) == if MustRollBack(t, d, call) then Note(l, RollBackAll) else l
  {
    hide GetRec, IsTable, CheckSql, TableQuery, Note;
    match call
    case CallGetRec(_) => GetRecReads(t, d, text);
    case CallIsTable(name) => IsTableReads(t, d, name);
    case _ => CheckSelectReads(t, d, text);
  }

  lemma QueryRollsBack(t: Tape, d: Driver, sql: string, draws: seq<int>)
    requires draws != [] && !HasHandle(d.table, draws[|draws| - 1])
    ensures var l := LogOf(d.server);
            LogOf(Query(t, d, sql, draws).driver.server) ==
              if MustRollBack(t, d, CallQuery(sql, draws)) then Note(l, RollBackAll) else l
  {
    hide OpenCur, PrepareCur, AskCur, Discard, Destroy, FailoverCleanup, HasHandle, FirstFresh, Numbered, GetErr, Note;
    CursorCodes(t, d.server, d.connected, sql);
    var o := OpenCur(t, d.server, NEW_CURSOR, d.connected);
    var p := PrepareCur(t, o.server, o.cursor, sql);
    var e := AskCur(t, p.server, p.cursor);
    DiscardKeepsClock(e.server, e.cursor);
    GetErrRollsBack(t, d.(server := Discard(e.server, e.cursor)));
  }

  /** Opening, preparing and executing a new cursor take an answer each. */
  lemma CursorCodes(t: Tape, s: Server, hasEnv: bool, sql: string)
    ensures var o := OpenCur(t, s, NEW_CURSOR, hasEnv);
            var p := PrepareCur(t, o.server, o.cursor, sql);
            var e := AskCur(t, p.server, p.cursor);
            && (o.rc == 0 <==> Code(t, s) == 0) && o.server.clock == s.clock + 1
            && (p.rc == 0 <==> t(s.clock + 1).code == 0) && p.server.clock == s.clock + 2
            && e.rc == t(s.clock + 2).code && e.server.clock == s.clock + 3
  {
    hide Numbered, Silent;
  }

  lemma DiscardKeepsClock(s: Server, c: Cursor)
    ensures Discard(s, c).clock == s.clock
  {
  }

  lemma {:induction false} RetryTrace(t: Tape, d: Driver, attempt: nat, maxRetryTimes: int)
    ensures var r := Retry(t, d, attempt, maxRetryTimes);
            LogOf(r.driver.server) == if attempt < maxRetryTimes then Note(LogOf(d.server), RollBackAll)
              else LogOf(d.server)
    decreases maxRetryTimes - attempt
  {
    hide DestroyAll, Settle;
    if attempt < maxRetryTimes {
      var r := Attempt(t, d, d.connected);
      if r.rc != 0 {
        RetryTrace(t, FreeTable(r.driver), attempt + 1, maxRetryTimes);
        RollBackTwice(LogOf(d.server));
      }
    }
  }

  lemma CheckConStatusTrace(t: Tape, d: Driver, n: int)
    ensures LogOf(CheckConStatus(t, d, n).driver.server) == Replay(LogOf(d.server), Trace(t, d, CallCheckConStatus(n)))
  {
    hide GetErr, Retry, Replay, Note;
    GetErrRollsBack(t, d);
    RetryTrace(t, GetErr(t, d).driver, 0, n);
    RollBackTwice(LogOf(d.server));
    ReplayShort(LogOf(d.server), RollBackAll, RollBackAll);
  }

  lemma CheckSqlTrace(t: Tape, d: Driver, text: string)
    ensures var call := CallCheckSql(Some(text), false);
            LogOf(CheckSql(t, d, Some(text), false).driver.server) == Replay(LogOf(d.server), Trace(t, d, call))
  {
    hide OpenScratch, CloseScratch, PrepareScratch, Replay;
    var l := LogOf(d.server);
    ReplayShort(l, Wrote(Statement(text, map[], "")), Failed);
    ReplayShort(l, Failed, Failed);
    OpenedScratch(t, d);
    var o := OpenScratch(t, d);
    PreparedText(t, o.driver, text);
  }

  /** A write call's code, and the journal after it. */
  lemma WriteCallTrace(t: Tape, d: Driver, call: Call)
    requires Allowed(d, call) && IsWrite(call)
    ensures WriteOutcome(t, d, Apply(t, d, call), CourseOf(t, d, call), WriteOf(d, call), CommitsAtOnce(call))
  {
    hide WriteOutcome, ExecuteSql, PhExecute, SetLongFld, BoundSlots, LongBind, ExecuteSqlCourse,
      PhExecuteCourse, SetLongFldCourse;
    match call
    case CallExecuteSql(sql, wantCount, isCommit) => ExecuteSqlWrites(t, d, sql, wantCount, isCommit);
    case CallPhExecute(isCommit) => PhExecuteWrites(t, d, isCommit);
    case CallSetLongFld(sql, msg, longType, isCommit) => SetLongFldWrites(t, d, sql, msg, longType, isCommit);
  }

  lemma OtherCallTrace(t: Tape, d: Driver, call: Call)
    requires Allowed(d, call) && !IsWrite(call)
    ensures LogOf(Apply(t, d, call).driver.server) == Replay(LogOf(d.server), Trace(t, d, call))
  {
    hide CheckSql, GetRec, IsTable, Query, GetErr, CheckConStatus, ConnectNative, Disconnect, BeginTrans,
      CommitTrans, RollbackTrans, FetchQuery, GetCurRec, CloseQuery, PhSet, PhSetSql, PhFree, HasHandle, Replay,
      ReadFails, CourseTrace;
    var l := LogOf(d.server);
    ReplayShort(l, CommitAll, CommitAll);
    ReplayShort(l, RollBackAll, RollBackAll);
    match call
    case CallGetErr => GetErrRollsBack(t, d);
    case CallGetRec(sql) => ReadingRollsBack(t, d, call, sql);
    case CallIsTable(name) => ReadingRollsBack(t, d, call, TableQuery(name));
    case CallCheckSql(text, isSelect) =>
      if text.None? {
        CheckNothing(t, d, isSelect);
      } else if isSelect {
        ReadingRollsBack(t, d, call, text.value);
      } else {
        CheckSqlTrace(t, d, text.value);
      }
    case CallQuery(sql, draws) => QueryRollsBack(t, d, sql, draws);
    case CallCheckConStatus(n) => CheckConStatusTrace(t, d, n);
    case CallSetLongFld(sql, _, longType, isCommit) => NullMessage(t, d, sql, longType, isCommit);
    case _ => PlainCallTrace(t, d, call);
  }

  /** Calls that ask the server nothing, or end a transaction or a session. */
  lemma PlainCallTrace(t: Tape, d: Driver, call: Call)
    requires Allowed(d, call) && !IsWrite(call)
    requires !call.CallGetErr? && !call.CallGetRec? && !call.CallIsTable? && !call.CallCheckSql? && !call.CallQuery?
    requires !call.CallCheckConStatus? && !call.CallSetLongFld?
    ensures LogOf(Apply(t, d, call).driver.server) == Replay(LogOf(d.server), Trace(t, d, call))
  {
    hide CloseScratch, Discard, Find, Settle, HasHandle, Replay, ReadFails, Numbered, BindOf, CourseTrace;
    ReplayShort(LogOf(d.server), CommitAll, CommitAll);
    ReplayShort(LogOf(d.server), RollBackAll, RollBackAll);
  }

  lemma CheckNothing(t: Tape, d: Driver, isSelect: bool)
    ensures CheckSql(t, d, None, isSelect) == Fail(d)
  {
  }

  lemma NullMessage(t: Tape, d: Driver, sql: string, longType: int, isCommit: bool)
    ensures SetLongFld(t, d, sql, Null, longType, isCommit) == Ok(d)
  {
  }

  /** Every call changes the journal as its trace says, and a write call returns 0 exactly when it wrote. */
  lemma ApplyJournal(t: Tape, d: Driver, call: Call)
    requires Allowed(d, call)
    ensures var r := Apply(t, d, call);
            && LogOf(r.driver.server) == Replay(LogOf(d.server), Trace(t, d, call))
            && (IsWrite(call) ==> r.rc == if Accepted(t, CourseOf(t, d, call)) then 0 else -1)
  {
    hide Apply, Replay, CourseTrace, CourseOf, WriteOf;
    if IsWrite(call) {
      WriteCallTrace(t, d, call);
    } else {
      OtherCallTrace(t, d, call);
    }
  }

  /**
   A write call takes pending work with it exactly when its statement cannot be prepared, or is
   executed and refused.
   */
  lemma PendingWorkIsLostIff(t: Tape, d: Driver, call: Call, i: nat)
    requires Allowed(d, call) && IsWrite(call) && i < |d.server.journal| && d.server.journal[i].fate.Pending?
    ensures var (r, course) := (Apply(t, d, call), CourseOf(t, d, call));
            && i < |r.driver.server.journal|
            && (r.driver.server.journal[i].fate.RolledBack? <==>
                  course.Unprepared? || (course.Asked? && t(course.at).code != 0))
  {
    hide Apply, Replay, CourseOf, WriteOf, Settle;
    ApplyJournal(t, d, call);
    var l, course := LogOf(d.server), CourseOf(t, d, call);
    ReplayShort(l, RollBackAll, RollBackAll);
    if course.Asked? {
      AskedTraceReplays(t, l, course.at, WriteOf(d, call), CommitsAtOnce(call));
    }
  }

  /** A write call that commits and returns 0 leaves nothing pending, whatever was pending before. */
  lemma CommittingWriteLeavesNothingPending(t: Tape, d: Driver, call: Call)
    requires Allowed(d, call) && IsWrite(call) && CommitsAtOnce(call)
    ensures var r := Apply(t, d, call); r.rc == 0 ==> NothingPending(r.driver.server.journal) && !r.driver.trans
  {
    hide Apply, Replay, CourseOf, WriteOf;
    WriteCallTrace(t, d, call);
    CommittedAtOnce(LogOf(d.server), WriteOf(d, call));
  }

  // ---------------------------------------------------------------- every run

  /** The traces of the calls of a run, one after the other. */
  function RunTrace(t: Tape, d: Driver, calls: seq<Call>): seq<Event>
    requires RunAllowed(t, d, calls)
    decreases calls
  {
    if calls == [] then [] else Trace(t, d, calls[0]) + RunTrace(t, Apply(t, d, calls[0]).driver, calls[1..])
  }

  /**
   Over any run the journal is what the traces of the calls make of it: the writes before the run, and
   then the writes that the calls got executed, in order, each with the fate that the first commit or
   rollback after it gives it, or pending.
   */
  lemma {:induction false} RunJournal(t: Tape, d: Driver, calls: seq<Call>)
    requires RunAllowed(t, d, calls)
    ensures LogOf(Run(t, d, calls).server) == Replay(LogOf(d.server), RunTrace(t, d, calls))
    ensures var trace := RunTrace(t, d, calls);
            Run(t, d, calls).server.journal == Settle(d.server.journal, FateAfter(trace)) + WritesOf(trace)
    decreases calls
  {
    hide Apply, Trace, Replay, Settle;
    if calls == [] {
      ReplayShort(LogOf(d.server), CommitAll, CommitAll);
    } else {
      var r := Apply(t, d, calls[0]);
      ApplyJournal(t, d, calls[0]);
      RunJournal(t, r.driver, calls[1..]);
      ReplayConcat(LogOf(d.server), Trace(t, d, calls[0]), RunTrace(t, r.driver, calls[1..]));
    }
    ReplayJournal(LogOf(d.server), RunTrace(t, d, calls));
  }

  /** The call had the server execute its statement: a write call, or checkSql of what is no select. */
  predicate GetsExecuted(t: Tape, d: Driver, call: Call) {
    if IsWrite(call) then CourseOf(t, d, call).Asked? && IsDone(t(CourseOf(t, d, call).at).code)
    else ChecksByExecuting(t, d, call) && IsDone(t(d.server.clock + 2).code)
  }

  function Executed(t: Tape, d: Driver, call: Call): seq<Statement> {
    if !GetsExecuted(t, d, call) then []
    else if IsWrite(call) then [WriteOf(d, call)]
    else [Statement(call.text.value, map[], "")]
  }

  function AllExecuted(t: Tape, d: Driver, calls: seq<Call>): seq<Statement>
    requires RunAllowed(t, d, calls)
    decreases calls
  {
    if calls == [] then [] else Executed(t, d, calls[0]) + AllExecuted(t, Apply(t, d, calls[0]).driver, calls[1..])
  }

  lemma AskedTraceThen(t: Tape, at: nat, write: Statement, isCommit: bool, rest: seq<Event>)
    ensures Statements(WritesOf(AskedTrace(t, at, write, isCommit) + rest)) ==
              (if IsDone(t(at).code) then [write] else []) + Statements(WritesOf(rest))
  {
    hide WritesOf, FateAfter, WriteTrace;
    WriteTraceThen(t, at, write, isCommit, rest);
    EventThen(Wrote(write), [RollBackAll] + rest);
    EventThen(RollBackAll, rest);
    assert [Wrote(write), RollBackAll] + rest == [Wrote(write)] + ([RollBackAll] + rest);
  }

  lemma TraceWrites(t: Tape, d: Driver, call: Call, rest: seq<Event>)
    requires Allowed(d, call)
    ensures Statements(WritesOf(Trace(t, d, call) + rest)) == Executed(t, d, call) + Statements(WritesOf(rest))
  {
    hide CourseOf, WriteOf, WritesOf, Alive, Statements, MustRollBack, AskedTrace;
    EventThen(CommitAll, rest);
    EventThen(RollBackAll, rest);
    EventThen(Failed, rest);
    assert [] + rest == rest && [] + WritesOf(rest) == WritesOf(rest)
      && [] + Statements(WritesOf(rest)) == Statements(WritesOf(rest));
    if IsWrite(call) {
      if CourseOf(t, d, call).Asked? {
        AskedTraceThen(t, CourseOf(t, d, call).at, WriteOf(d, call), CommitsAtOnce(call), rest);
      }
    } else if ChecksByExecuting(t, d, call) {
      CheckAsksNoError(t, d, call);
      EventThen(Wrote(Statement(call.text.value, map[], "")), rest);
      OneStatement(Statement(call.text.value, map[], ""), FateAfter(rest), WritesOf(rest));
    }
  }

  lemma CheckAsksNoError(t: Tape, d: Driver, call: Call)
    requires call.CallCheckSql? && !call.isSelect
    ensures !MustRollBack(t, d, call)
  {
  }

  /**
   checkSql of a statement that is no select writes it exactly when the scratch cursor is closed, the
   statement is created and prepared, and executing is answered 0 or with information; but it is called
   right only in the first case.
   */
  lemma CheckSqlWritesIff(t: Tape, d: Driver, text: string)
    ensures var r := CheckSql(t, d, Some(text), false);
            var k := d.server.clock;
            var asked := !d.scratch.isOpen && t(k).code == 0 && t(k + 1).code == 0;
            && (r.rc == 0 <==> asked && t(k + 2).code == 0)
            && r.driver.server.journal == d.server.journal
                 + if asked && IsDone(t(k + 2).code) then [Entry(Statement(text, map[], ""), Pending)] else []
  {
    hide CheckSql, Replay;
    CheckSqlTrace(t, d, text);
    CheckSqlCode(t, d, text);
    ReplayShort(LogOf(d.server), Wrote(Statement(text, map[], "")), Failed);
    ReplayShort(LogOf(d.server), Failed, Failed);
    assert d.server.journal + [] == d.server.journal;
  }

  lemma CheckSqlCode(t: Tape, d: Driver, text: string)
    ensures CheckSql(t, d, Some(text), false).rc == 0 <==>
              ChecksByExecuting(t, d, CallCheckSql(Some(text), false)) && t(d.server.clock + 2).code == 0
  {
    hide OpenScratch, CloseScratch, PrepareScratch;
    OpenedScratch(t, d);
    PreparedText(t, OpenScratch(t, d).driver, text);
  }

  /** The writes that a run adds to the journal are those that its calls got executed, in order, and no others. */
  lemma RunWrites(t: Tape, d: Driver, calls: seq<Call>)
    requires RunAllowed(t, d, calls)
    ensures Statements(Run(t, d, calls).server.journal) == Statements(d.server.journal) + AllExecuted(t, d, calls)
  {
    hide Run, Settle;
    RunJournal(t, d, calls);
    TraceExecuted(t, d, calls);
    StatementsOfRun(d.server.journal, RunTrace(t, d, calls));
  }

  lemma {:induction false} TraceExecuted(t: Tape, d: Driver, calls: seq<Call>)
    requires RunAllowed(t, d, calls)
    ensures Statements(WritesOf(RunTrace(t, d, calls))) == AllExecuted(t, d, calls)
    decreases calls
  {
    hide Apply, Trace, Executed;
    if calls != [] {
      var next := Apply(t, d, calls[0]).driver;
      TraceExecuted(t, next, calls[1..]);
      TraceWrites(t, d, calls[0], RunTrace(t, next, calls[1..]));
    }
  }

  // ---------------------------------------------------------------- checkSql

  /**
   With k the position of the next answer, checkSql of a statement that is no select leaves a failure
   behind exactly when the scratch cursor is closed, the statement is created and prepared, and the
   server refuses to execute it.
   */
  lemma CheckSqlLeavesFailure(t: Tape, d: Driver, text: string)
    requires Clean(d.server)
    ensures var k := d.server.clock;
            Clean(CheckSql(t, d, Some(text), false).driver.server) <==>
              !(!d.scratch.isOpen && t(k).code == 0 && t(k + 1).code == 0 && !IsDone(t(k + 2).code))
  {
    hide CheckSql, Replay;
    CheckSqlTrace(t, d, text);
    ReplayShort(LogOf(d.server), Wrote(Statement(text, map[], "")), Failed);
    ReplayShort(LogOf(d.server), Failed, Failed);
  }

  /** What one call does about a failure that was left behind. */
  lemma CallFlags(t: Tape, d: Driver, call: Call)
    requires Allowed(d, call)
    ensures var (s, s', trace) := (d.server, Apply(t, d, call).driver.server, Trace(t, d, call));
            && (s'.commitAfterFailure <==> s.commitAfterFailure || (s.failing && CommitAll in trace))
            && (s'.failing <==> RollBackAll !in trace && (s.failing || LeavesFailure(t, d, call)))
  {
    hide Apply, Replay, CourseOf, WriteOf, Settle, MustRollBack, Alive;
    ApplyJournal(t, d, call);
    var l := LogOf(d.server);
    ReplayShort(l, CommitAll, CommitAll);
    ReplayShort(l, RollBackAll, RollBackAll);
    ReplayShort(l, Failed, Failed);
    if IsWrite(call) {
      if CourseOf(t, d, call).Asked? {
        AskedTraceReplays(t, l, CourseOf(t, d, call).at, WriteOf(d, call), CommitsAtOnce(call));
      }
    } else if ChecksByExecuting(t, d, call) {
      CheckAsksNoError(t, d, call);
      ReplayShort(l, Wrote(Statement(call.text.value, map[], "")), Failed);
    }
  }

  /**
   Some checkSql of the run leaves a failure behind, and a later call commits with no rollback in
   between; `failing` if one has been left behind before the run.
   */
  predicate CommitsOverFailure(t: Tape, d: Driver, calls: seq<Call>, failing: bool)
    requires RunAllowed(t, d, calls)
    decreases calls
  {
    calls != []
    && var trace := Trace(t, d, calls[0]);
       (failing && CommitAll in trace)
       || CommitsOverFailure(t, Apply(t, d, calls[0]).driver, calls[1..],
                             RollBackAll !in trace && (failing || LeavesFailure(t, d, calls[0])))
  }

  /** A run commits over a failed write exactly when a checkSql fails and a commit follows before any rollback. */
  lemma {:induction false} RunCommitsOverFailureIff(t: Tape, d: Driver, calls: seq<Call>)
    requires RunAllowed(t, d, calls)
    ensures Run(t, d, calls).server.commitAfterFailure <==>
              d.server.commitAfterFailure || CommitsOverFailure(t, d, calls, d.server.failing)
    decreases calls
  {
    hide Apply, Trace, LeavesFailure;
    if calls != [] {
      CallFlags(t, d, calls[0]);
      RunCommitsOverFailureIff(t, Apply(t, d, calls[0]).driver, calls[1..]);
    }
  }

  /** A caller who has only selects checked never leaves a failure behind. */
  lemma {:induction false} CheckingSelectsIsClean(t: Tape, d: Driver, calls: seq<Call>)
    requires RunAllowed(t, d, calls) && Clean(d.server)
    requires forall i :: 0 <= i < |calls| ==> !(calls[i].CallCheckSql? && !calls[i].isSelect)
    ensures Clean(Run(t, d, calls).server)
    decreases calls
  {
    hide Apply, Trace;
    if calls != [] {
      CallFlags(t, d, calls[0]);
      CheckingSelectsIsClean(t, Apply(t, d, calls[0]).driver, calls[1..]);
    }
  }

  /** A library that answers the fourth thing it is asked with `code`, and grants all else. */
  function AnsweringFourth(code: int): Tape {
    i => Reply(if i == 3 then code else 0, Field("", 0, 0, false))
  }

  function CheckAndCommit(text: string): seq<Call> {
    [CallConnect("", "", ""), CallCheckSql(Some(text), false), CallCommitTrans]
  }

  /** Connects, checks and commits, one call after the other. */
  lemma ThreeCalls(t: Tape, d: Driver, text: string) returns (d1: Driver, d2: Driver)
    requires R.Unused(d) && t(0).code == 0
    ensures d1 == E.Connected(d) && d2 == CheckSql(t, d1, Some(text), false).driver
    ensures RunAllowed(t, d, CheckAndCommit(text))
    ensures Run(t, d, CheckAndCommit(text)) == Apply(t, d2, CallCommitTrans).driver
  {
    d1 := E.Connected(d);
    hide Apply;
    var check := CallCheckSql(Some(text), false);
    E.ConnectGranted(t, d);
    d2 := Apply(t, d1, check).driver;
    ApplyChecks(t, d1, check);
    E.RunCons(t, d2, CallCommitTrans, []);
    E.RunCons(t, d1, check, [CallCommitTrans]);
    E.RunCons(t, d, CallConnect("", "", ""), [check, CallCommitTrans]);
    assert CheckAndCommit(text) == [CallConnect("", "", "")] + ([check] + ([CallCommitTrans] + []));
  }

  lemma ApplyChecks(t: Tape, d: Driver, call: Call)
    requires call.CallCheckSql?
    ensures Apply(t, d, call) == CheckSql(t, d, call.text, call.isSelect)
  {
  }

  /** Connect, checkSql, commit, where the server refuses to execute: the run commits over the failure. */
  lemma CheckThenCommit(d: Driver, text: string)
    requires R.Unused(d)
    ensures var (t, calls) := (AnsweringFourth(-1), CheckAndCommit(text));
            RunAllowed(t, d, calls) && Run(t, d, calls).server.commitAfterFailure
  {
    hide Apply, Trace, CheckSql;
    var t, check := AnsweringFourth(-1), CallCheckSql(Some(text), false);
    var d1, d2 := ThreeCalls(t, d, text);
    assert LeavesFailure(t, d1, check);
    ApplyChecks(t, d1, check);
    CallFlags(t, d1, check);
    TwoTraces(t, d1, d2, text);
    CallFlags(t, d2, CallCommitTrans);
  }

  lemma TwoTraces(t: Tape, d: Driver, d1: Driver, text: string)
    requires LeavesFailure(t, d, CallCheckSql(Some(text), false))
    ensures Trace(t, d, CallCheckSql(Some(text), false)) == [Failed] && Trace(t, d1, CallCommitTrans) == [CommitAll]
  {
  }

  /** The same run, where the server executes with information: checkSql says no, and its statement is committed. */
  lemma RefusedCheckIsCommitted(d: Driver, text: string)
    requires R.Unused(d)
    ensures var (t, calls) := (AnsweringFourth(SUCCESS_WITH_INFO), CheckAndCommit(text));
            && CheckSql(t, E.Connected(d), Some(text), false).rc != 0
            && RunAllowed(t, d, calls) && Run(t, d, calls).server.journal
              == [Entry(Statement(text, map[], ""), Committed)]
  {
    hide Apply, CheckSql, Replay, Trace;
    var t := AnsweringFourth(SUCCESS_WITH_INFO);
    var d1, d2 := ThreeCalls(t, d, text);
    CheckSqlWritesIff(t, d1, text);
    assert d2.server.journal == [Entry(Statement(text, map[], ""), Pending)];
    ApplyJournal(t, d2, CallCommitTrans);
    CommitTrace(t, d2);
    ReplayShort(LogOf(d2.server), CommitAll, CommitAll);
  }

  lemma CommitTrace(t: Tape, d: Driver)
    ensures Trace(t, d, CallCommitTrans) == [CommitAll] && !IsWrite(CallCommitTrans)
  {
  }
}
