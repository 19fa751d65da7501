/**
 What the calls of the Oracle driver return, told from what the library answers, answer by answer; what
 statement the library was given, and what it reads through the bindings.  The codes are the numbers
 that callers see.
 */
module OracleAnswers {
  import opened NativeServer
  import opened Basics
  import opened Journals
  import opened OracleSpec
  import opened OracleJournal
  import opened Wire
  import R = OracleRuns

  // ---------------------------------------------------------------- members of a cursor

  lemma OpenAnswer(t: Tape, s: Server, c: Cursor, hasEnv: bool)
    ensures var (o, k) := (OpenCur(t, s, c, hasEnv), s.clock);
            && o.rc == (if !c.isOpen && t(k).code == 0 then 0 else -1)
            && o.server.stmts == s.stmts && (!c.isOpen ==> o.server.clock == k + 1)
            && (o.rc == 0 ==> o.cursor == Cursor(true, k + 1))
  {
  }

  /** A cursor that could not be opened, or was closed, has no statement. */
  lemma ShutAnswer(t: Tape, s: Server, c: Cursor, hasEnv: bool)
    ensures OpenCur(t, s, c, hasEnv).rc != 0 && !c.isOpen ==> OpenCur(t, s, c, hasEnv).cursor == Cursor(false, 0)
    ensures var o := CloseCur(s, c);
            && o.rc == (if c.isOpen then 0 else -1)
            && (c.isOpen ==> o.cursor == Cursor(false, 0)) && o.server.clock == s.clock
  {
  }

  lemma PrepareAnswer(t: Tape, s: Server, c: Cursor, sql: string)
    ensures var (o, k) := (PrepareCur(t, s, c, sql), s.clock);
            && o.rc == (if t(k).code == 0 then 0 else -1) && o.cursor == c && o.server.clock == k + 1
            && (o.rc == 0 ==> o.server.stmts == s.stmts[c.stmt := Statement(sql, map[], "")])
  {
  }

  lemma AskAnswer(t: Tape, s: Server, c: Cursor)
    ensures var o := AskCur(t, s, c);
            o.rc == t(s.clock).code && o.cursor == c && o.server.clock == s.clock + 1 && o.server.stmts == s.stmts
  {
  }

  lemma CloseStmts(t: Tape, d: Driver)
    ensures CloseScratch(d).server.stmts == d.server.stmts && CloseScratch(d).server.clock == d.server.clock
    ensures FailoverCleanup(t, d).server.stmts == d.server.stmts
  {
  }

  // ---------------------------------------------------------------- queries

  /** What a fetch is told: a row or one with a long column to come, the end of the data, or an error. */
  function FetchAnswer(code: int): int {
    if code == 0 || code == 99 then 0 else if code == 100 then -3 else -1
  }

  /** A request about an open query asks its statement, once; about any other handle it asks nothing and answers 1. */
  lemma FetchQueryAnswer(t: Tape, d: Driver, handle: int)
    ensures var (r, k) := (FetchQuery(t, d, handle), Find(d.table, handle));
            if !HasHandle(d.table, handle) then r == Result(d, 1, None)
            else
              && r.rc == FetchAnswer(t(d.server.clock).code)
              && k < |d.table| && r.driver == d.(server := Use(d.server, d.table[k].cursor.stmt))
    ensures var (r, k) := (GetCurRec(t, d, handle), Find(d.table, handle));
            if !HasHandle(d.table, handle) then r == Result(d, 1, None)
            else
              && r.rc == 0 && r.value == Some(t(d.server.clock).code)
              && k < |d.table| && r.driver == d.(server := Use(d.server, d.table[k].cursor.stmt))
    ensures CloseQuery(d, handle).rc == if HasHandle(d.table, handle) then 0 else 1
  {
    hide Discard, Numbered, Silent;
    if HasHandle(d.table, handle) {
      var i :| 0 <= i < |d.table| && d.table[i].handle == handle;
      assert Find(d.table, handle) <= i;
    }
  }

  /** The open query is the statement with the text of the query. */
  lemma QueryText(t: Tape, d: Driver, sql: string, draws: seq<int>)
    requires draws != [] && !HasHandle(d.table, draws[|draws| - 1])
    ensures var (r, k) := (Query(t, d, sql, draws), d.server.clock);
            && r.rc == (if t(k).code == 0 && t(k + 1).code == 0 && t(k + 2).code == 0 && t(k + 3).code == 0
                        then 0 else -1)
            && (r.rc != 0 ==> r.value == None)
            && (t(k).code != 0 ==> r.driver.server.clock == k + 1)
            && (t(k).code == 0 && t(k + 1).code != 0 ==> r.driver.server.clock == k + 2)
            && (t(k).code == 0 && t(k + 1).code == 0 && t(k + 2).code == 0 ==> r.driver.server.clock == k + 4)
            && (r.rc == 0 ==>
                  && |r.driver.table| == |d.table| + 1 && r.driver.table[|d.table|].cursor == Cursor(true, k + 1)
                  && StatementOf(r.driver.server, k + 1) == Statement(sql, map[], ""))
  {
    hide OpenCur, PrepareCur, AskCur, Discard, Destroy, FailoverCleanup, HasHandle, FirstFresh, Numbered, Silent;
    OpenAnswer(t, d.server, NEW_CURSOR, d.connected);
    var o := OpenCur(t, d.server, NEW_CURSOR, d.connected);
    PrepareAnswer(t, o.server, o.cursor, sql);
    var p := PrepareCur(t, o.server, o.cursor, sql);
    DiscardKeepsClock(p.server, p.cursor);
    AskAnswer(t, p.server, p.cursor);
    var e := AskCur(t, p.server, p.cursor);
    AskAnswer(t, e.server, e.cursor);
    var b := AskCur(t, e.server, e.cursor);
    DiscardKeepsClock(b.server, b.cursor);
  }

  // ---------------------------------------------------------------- getRec, isTable, checkSql

  /** Created and prepared on the scratch cursor. */
  predicate Prepared(t: Tape, d: Driver) {
    !d.scratch.isOpen && t(d.server.clock).code == 0 && t(d.server.clock + 1).code == 0
  }

  /** getRec: executed, defined, fetched; the end of the data can be told by executing and by fetching. */
  lemma GetRecAnswer(t: Tape, d: Driver, sql: string)
    ensures var (r, k) := (GetRec(t, d, sql), d.server.clock);
            && r.rc == (if !Prepared(t, d) then -1
                        else if t(k + 2).code != 0 then if t(k + 2).code == 100 then -3 else -1
                        else if t(k + 3).code != 0 then -1
                        else FetchAnswer(t(k + 4).code))
            && (Prepared(t, d) ==> StatementOf(r.driver.server, k + 1) == Statement(sql, map[], ""))
  {
    hide OpenCur, PrepareCur, AskCur, CloseScratch, FailoverCleanup, Numbered, Silent;
    ThroughFetch(t, d, sql);
  }

  /** The steps of a statement that is read, as far as they are granted. */
  lemma ThroughFetch(t: Tape, d: Driver, sql: string)
    ensures var o := OpenScratch(t, d);
            && (o.rc == 0 <==> !d.scratch.isOpen && t(d.server.clock).code == 0) && (o.rc == 0 || o.rc == -1)
            && o.driver.connected == d.connected
            && (o.rc == 0 ==>
                  var p := PrepareScratch(t, o.driver, sql);
                  && (p.rc == 0 <==> t(d.server.clock + 1).code == 0)
                  && (p.rc == 0 ==>
                        var e := AskScratch(t, p.driver);
                        var b := AskScratch(t, e.driver);
                        var f := AskScratch(t, b.driver);
                        && e.rc == t(d.server.clock + 2).code && b.rc == t(d.server.clock + 3).code
                        && f.rc == t(d.server.clock + 4).code
                        && Holds(CloseScratch(e.driver), d.server.clock + 1, sql)
                        && Holds(FailoverCleanup(t, CloseScratch(e.driver)), d.server.clock + 1, sql)
                        && Holds(CloseScratch(b.driver), d.server.clock + 1, sql)
                        && Holds(CloseScratch(f.driver), d.server.clock + 1, sql)))
  {
    hide OpenCur, PrepareCur, AskCur, CloseScratch, FailoverCleanup, Numbered, Silent;
    OpenAnswer(t, d.server, d.scratch, d.connected);
    var o := OpenScratch(t, d).driver;
    PrepareAnswer(t, o.server, o.scratch, sql);
    var p := PrepareScratch(t, o, sql).driver;
    AskAnswer(t, p.server, p.scratch);
    var e := AskScratch(t, p).driver;
    AskAnswer(t, e.server, e.scratch);
    var b := AskScratch(t, e).driver;
    AskAnswer(t, b.server, b.scratch);
    var f := AskScratch(t, b).driver;
    CloseStmts(t, e);
    CloseStmts(t, CloseScratch(e));
    CloseStmts(t, b);
    CloseStmts(t, f);
  }

  /** The library was given that text for that statement. */
  predicate Holds(d: Driver, stmt: nat, sql: string) {
    StatementOf(d.server, stmt) == Statement(sql, map[], "")
  }

  /** isTable says yes exactly when the catalogue's row for the name can be fetched; it does not define columns. */
  lemma IsTableAnswer(t: Tape, d: Driver, name: string)
    ensures var (r, k) := (IsTable(t, d, name), d.server.clock);
            && r.rc == (if Prepared(t, d) && t(k + 2).code == 0 && t(k + 3).code == 0 then 0 else -1)
            && (Prepared(t, d) ==>
                  Holds(r.driver, k + 1, "SELECT * FROM TAB WHERE TNAME='" + name + "' AND TABTYPE='TABLE'"))
  {
    hide OpenScratch, PrepareScratch, AskScratch, CloseScratch, FailoverCleanup, Numbered, Silent, Holds;
    ThroughFetch(t, d, TableQuery(name));
  }

  /** checkSql of a select says yes exactly when it is created, prepared and executed; without a text it says no. */
  lemma CheckSelectAnswer(t: Tape, d: Driver, text: string)
    ensures var (r, k) := (CheckSql(t, d, Some(text), true), d.server.clock);
            && r.rc == (if Prepared(t, d) && t(k + 2).code == 0 then 0 else -1)
            && (Prepared(t, d) ==> Holds(r.driver, k + 1, text))
    ensures forall isSelect :: CheckSql(t, d, None, isSelect) == Result(d, -1, None)
  {
    hide OpenScratch, PrepareScratch, AskScratch, CloseScratch, FailoverCleanup, Numbered, Silent, Holds;
    ThroughFetch(t, d, text);
  }

  // ---------------------------------------------------------------- writes

  /** executeSql: created, prepared, executed; the count, if it is asked for, is the library's next answer. */
  lemma ExecuteSqlAnswer(t: Tape, d: Driver, sql: string, wantCount: bool, isCommit: bool)
    ensures var (r, k) := (ExecuteSql(t, d, sql, wantCount, isCommit), d.server.clock);
            && r.rc == (if Prepared(t, d) && t(k + 2).code == 0 then 0 else -1)
            && r.value == if r.rc == 0 && wantCount then Some(t(k + 3).code) else None
  {
    hide OpenCur, PrepareCur, CloseScratch, CommitTrans, RollbackTrans, Numbered, Silent;
    OpenAnswer(t, d.server, d.scratch, d.connected);
    var o := OpenCur(t, d.server, d.scratch, d.connected);
    PrepareAnswer(t, o.server, o.cursor, sql);
  }

  /** What the four setters mean by a value: an int, a long long, a text with its NUL, or so many bytes. */
  function MeantBy(setter: Setter, data: Pointer): string
    requires data.To?
  {
    match setter
    case SetInt => Front(data.text, 4)
    case SetLonglong => Front(data.text, 8)
    case SetString => TextIn(data.text) + [NUL]
    case SetLongbyte(len) => Front(data.text, len)
  }

  /** OCI's number for what a setter binds. */
  function OciTypeBy(setter: Setter): int {
    match setter
    case SetInt => 3
    case SetLonglong => 3
    case SetString => 1
    case SetLongbyte(_) => 23
  }

  /** The binding is to the value, and through it the server reads what the setter was given. */
  predicate Carries(bind: Bind, setter: Setter, data: Pointer) {
    && data.To? && bind.buffer == data && bind.ty == OciTypeBy(setter) && bind.length == None
    && OciReads(bind) == Some(MeantBy(setter, data))
  }

  /** A text must have its NUL. */
  predicate IsGiven(setter: Setter, data: Pointer) {
    data.To? && (setter.SetString? ==> Terminated(data.text))
  }

  datatype Param = Param(setter: Setter, data: Pointer)

  /** The driver once a statement is set, and then its first parameters, one after the other. */
  function WithParameters(d: Driver, sql: string, params: seq<Param>): (d': Driver)
    requires |params| <= SLOTS && |d.slots| == SLOTS
    ensures |d'.slots| == SLOTS
  {
    if params == [] then PhSetSql(d, Some(sql)).driver
    else
      var n := |params| - 1;
      PhSet(WithParameters(d, sql, params[..n]), params[n].setter, n + 1, params[n].data).driver
  }

  /** Slot and parameter agree. */
  predicate Filled(slot: Slot, p: Param) {
    slot.data == p.data && slot.ty == TypeOf(p.setter) && (p.setter.SetLongbyte? ==> slot.len == p.setter.len)
  }

  lemma {:induction false} ParametersAreSet(d: Driver, sql: string, params: seq<Param>)
    requires |params| <= SLOTS && |d.slots| == SLOTS && |sql| < BUFFER_LENGTH
    requires forall i :: 0 <= i < |params| ==> params[i].data.To?
    ensures var d' := WithParameters(d, sql, params);
            && d' == d.(sql := sql, slots := d'.slots)
            && (forall i :: 0 <= i < |params| ==> Filled(d'.slots[i], params[i]))
            && forall i :: |params| <= i < SLOTS ==> d'.slots[i].data.Null?
  {
    hide TypeOf;
    if params != [] {
      ParametersAreSet(d, sql, params[..|params| - 1]);
    }
  }

  lemma BindCarries(slot: Slot, p: Param)
    requires Filled(slot, p) && IsGiven(p.setter, p.data)
    ensures Supported(slot.ty) && Carries(BindOf(slot), p.setter, p.data)
  {
    FrontIsText(p.data.text);
  }

  lemma {:induction false} PrefixIs(slots: seq<Slot>, k: nat)
    requires k <= |slots|
    requires forall i :: 0 <= i < k ==> slots[i].data.To?
    requires k < |slots| ==> slots[k].data.Null?
    ensures SetPrefix(slots) == k
  {
    if k > 0 {
      PrefixIs(slots[1..], k - 1);
    }
  }

  /** The answer to binding number `j` of those that begin at `first`. */
  function BindAnswer(t: Tape, first: nat, j: nat): int {
    t(first + j).code
  }

  predicate AllBound(t: Tape, first: nat, n: nat) {
    forall j :: 0 <= j < n ==> BindAnswer(t, first, j) >= 0
  }

  lemma {:induction false} BindsGranted(t: Tape, first: nat, slots: seq<Slot>, i: nat)
    requires i <= SetPrefix(slots) && forall j :: 0 <= j < SetPrefix(slots) ==> Supported(slots[j].ty)
    ensures BindsFrom(t, first + i, slots, i) <==>
              forall j :: i <= j < SetPrefix(slots) ==> BindAnswer(t, first, j) >= 0
    decreases SetPrefix(slots) - i
  {
    if i < SetPrefix(slots) {
      BindsGranted(t, first, slots, i + 1);
      assert t(first + i).code == BindAnswer(t, first, i);
    }
  }

  /**
   Parameters end to end.  A statement is set, then its first k parameters, and it is executed with commit:
   that returns 0 exactly when the library creates and prepares the statement, grants k bindings and executes
   it; then the server has committed the statement as the caller wrote it, and reads through the binding at
   position i what the i-th setter was given.
   */
  lemma ParametersReachTheServer(t: Tape, d: Driver, sql: string, params: seq<Param>)
    requires |d.slots| == SLOTS && |params| <= 32 && |sql| < 2048
    requires forall i :: 0 <= i < |params| ==> IsGiven(params[i].setter, params[i].data)
    ensures var (r, k) := (PhExecute(t, WithParameters(d, sql, params), true), d.server.clock);
            && r.rc == (if d.connected && t(k).code == 0 && t(k + 1).code == 0
                           && AllBound(t, k + 2, |params|)
                           && t(k + 2 + |params|).code == 0
                        then 0 else -1)
            && (r.rc == 0 ==>
                  && |r.driver.server.journal| == |d.server.journal| + 1
                  && NothingPending(r.driver.server.journal) && Extends(d.server.journal, r.driver.server.journal)
                  && var last := r.driver.server.journal[|d.server.journal|];
                  && last.fate == Committed && last.write.sql == sql && last.write.long == ""
                  && (forall i :: i in last.write.binds <==> 1 <= i <= |params|)
                  && forall i :: 0 <= i < |params| ==>
                       Carries(last.write.binds[i + 1], params[i].setter, params[i].data))
  {
    hide PhExecute, WithParameters, Supported, BindOf, Carries, BindsFrom, Replay, IsGiven, TypeOf, AskedTrace;
    var d', k := WithParameters(d, sql, params), d.server.clock;
    forall i | 0 <= i < |params|
      ensures params[i].data.To?
    {
      GivenIsThere(params[i]);
    }
    ParametersAreSet(d, sql, params);
    PrefixIs(d'.slots, |params|);
    forall i | 0 <= i < |params|
      ensures Supported(d'.slots[i].ty) && Carries(BindOf(d'.slots[i]), params[i].setter, params[i].data)
    {
      BindCarries(d'.slots[i], params[i]);
    }
    PhExecuteWrites(t, d', true);
    BindsGranted(t, k + 2, d'.slots, 0);
    BoundUpToMeans(d'.slots, |params|);
    AskedAtOnce(t, LogOf(d.server), k + 2 + |params|, Statement(sql, BoundSlots(d'.slots), ""));
  }

  lemma GivenIsThere(p: Param)
    requires IsGiven(p.setter, p.data)
    ensures p.data.To?
  {
  }

  /** An accepted write with commit. */
  lemma AskedAtOnce(t: Tape, l: Log, at: nat, write: Statement)
    ensures t(at).code == 0 ==>
              var j := Replay(l, AskedTrace(t, at, write, true)).journal;
              && |j| == |l.journal| + 1 && Extends(l.journal, j) && NothingPending(j)
              && j[|l.journal|] == Entry(write, Committed)
  {
    hide Replay;
    CommittedAtOnce(l, write);
  }

  /** setLongFld binds the message, under the type that it is given, and the server reads it up to its NUL. */
  lemma LongBindIs(msg: Pointer, longType: int)
    requires msg.To?
    ensures var bind := LongBind(msg, longType);
            bind.buffer == msg && bind.ty == longType && bind.length == None && OciReads(bind) == Some(TextIn(msg.text))
  {
    FrontIsText(msg.text);
  }

  /** setLongFld: 0 without a message, or when created, prepared, bound and executed. */
  lemma SetLongFldAnswer(t: Tape, d: Driver, sql: string, msg: Pointer, longType: int, isCommit: bool)
    ensures var (r, k) := (SetLongFld(t, d, sql, msg, longType, isCommit), d.server.clock);
            && r.rc == (if msg.Null? || (Prepared(t, d) && t(k + 2).code == 0 && t(k + 3).code == 0) then 0 else -1)
            && (msg.Null? ==> r.driver == d)
  {
    hide SetLongFld, LongBind, CourseTrace;
    if msg.To? {
      SetLongFldWrites(t, d, sql, msg, longType, isCommit);
    } else {
      NoMessage(t, d, sql, longType, isCommit);
    }
  }

  lemma NoMessage(t: Tape, d: Driver, sql: string, longType: int, isCommit: bool)
    ensures SetLongFld(t, d, sql, Null, longType, isCommit) == Result(d, 0, None)
  {
  }

  // ---------------------------------------------------------------- connection and parameters

  /** connect: names of at most 63, 127 and 63 characters, no connection yet, and the library grants it. */
  lemma ConnectAnswer(t: Tape, d: Driver, user: string, password: string, host: string)
    ensures var r := OracleSpec.Connect(t, d, user, password, host);
            var asks := |user| <= 63 && |password| <= 127 && |host| <= 63 && !d.connected;
            && r.rc == (if asks && t(d.server.clock).code == 0 then 0 else -1)
            && (r.driver.connected <==> d.connected || r.rc == 0)
            && (!asks ==> r.driver == d)
            && r.driver.server.clock == d.server.clock + (if asks then 1 else 0)
            && r.driver.server.gone == d.server.gone
  {
    hide FreeEnvironment;
  }

  /** disconnect: the scratch cursor is closed in any case; the session ends, and what was pending with it. */
  lemma DisconnectAnswer(d: Driver)
    ensures var r := Disconnect(d);
            && r.rc == (if d.connected then 0 else -1) && !r.driver.connected && !r.driver.scratch.isOpen
            && (d.connected ==> NothingPending(r.driver.server.journal)) && r.driver.table == d.table
  {
  }

  /** The destructor ends the session, if there is one. */
  lemma DestroyEndsSession(d: Driver)
    ensures d.connected ==> NothingPending(DestroyDriver(d).journal) && DestroyDriver(d).children == {}
    ensures !d.connected ==> DestroyDriver(d).journal == d.server.journal
  {
    hide Destroy, DestroyAll;
  }

  /** What cannot fail does not: the three calls about transactions, and the one that empties the slots. */
  lemma NeverFails(t: Tape, d: Driver, call: Call)
    requires call in {CallBeginTrans, CallCommitTrans, CallRollbackTrans, CallPhFree}
    ensures Apply(t, d, call).rc == 0
    ensures var d' := Apply(t, d, CallPhFree).driver;
            && d' == d.(sql := "", slots := d'.slots) && |d'.slots| == |d.slots|
            && forall i :: 0 <= i < |d.slots| ==> d'.slots[i].data.Null?
  {
  }

  /** phSetSql takes statements of less than 2048 characters, as they are, and empties all the slots. */
  lemma PhSetSqlAnswer(d: Driver, sql: Option<string>)
    ensures var r := PhSetSql(d, sql);
            && r.rc == (if sql.Some? && |sql.value| < 2048 then 0 else -1)
            && (r.rc != 0 ==> r.driver == d)
            && (r.rc == 0 ==> r.driver.sql == sql.value && |r.driver.slots| == |d.slots|
                              && forall i :: 0 <= i < |d.slots| ==> r.driver.slots[i].data.Null?)
  {
  }
}
