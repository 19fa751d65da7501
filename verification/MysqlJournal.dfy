/**
 What runs of the MySQL driver do to the journal of writes: which calls write, when a write is
 committed or rolled back, and what the server is handed with each write.
 */
module MysqlJournal {
  import opened NativeServer
  import opened Journals
  import opened MysqlCursorSpec
  import opened MysqlSpec
  import opened PlaceholderRewriter
  import opened Wire
  import opened Basics

  // ---------------------------------------------------------------- executing the scratch statement

  /**
   The outcome of a call that was to execute `write`.  `at` is the position of the server's answer to
   executing, if the call gets that far.  Accepted, the write joins the journal, and all is committed
   if asked; refused, all that is pending is rolled back; and if not asked, nothing changes.
   */
  predicate WriteOutcome(t: Tape, d: Driver, r: Result, at: Option<nat>, write: Statement, isCommit: bool) {
    && LogOf(r.driver.server) == Replay(LogOf(d.server), WriteTrace(t, at, write, isCommit))
    && r.rc == (if at.Some? && t(at.value).code == 0 then 0 else -1)
    && r.driver.trans == (d.trans && (at.None? || (t(at.value).code == 0 && !isCommit)))
  }

  /** inExec: a write that succeeds joins the journal; one that fails takes all that is pending with it. */
  lemma InExecWrites(t: Tape, d: Driver, isCommit: bool)
    ensures WriteOutcome(t, d, InExec(t, d, isCommit), Some(d.server.clock), StatementOf(d.server, d.scratch.stmt),
                         isCommit)
    ensures var d' := InExec(t, d, isCommit).driver; d'.sql == d.sql && d'.slots == d.slots
  {
    hide CloseScratch, Settle, Replay;
    WriteTraceReplays(t, LogOf(d.server), d.server.clock, StatementOf(d.server, d.scratch.stmt), isCommit);
  }

  /** A statement is created and prepared by two answers. */
  predicate Granted(t: Tape, clock: nat) {
    t(clock).code == 0 && t(clock + 1).code == 0
  }

  lemma PreparedText(t: Tape, d: Driver, sql: string)
    ensures var r := PrepareScratch(t, d, sql);
            && r.driver.scratch == d.scratch && (r.rc == 0 || r.rc == -1) && (r.rc == 0 <==> Code(t, d.server) == 0)
            && r.driver.server.clock == d.server.clock + 1
            && (r.rc == 0 ==> StatementOf(r.driver.server, d.scratch.stmt) == Statement(sql, map[], ""))
  {
  }

  lemma OpenedScratch(t: Tape, d: Driver)
    ensures var r := OpenScratch(t, d);
            && (r.rc == 0 || r.rc == -1) && (r.rc == 0 <==> !d.scratch.isOpen && d.connected && Code(t, d.server) == 0)
            && (r.rc == 0 ==> r.driver.server.clock == d.server.clock + 1 && r.driver.scratch.stmt != 0)
  {
  }

  lemma InSetSqlText(t: Tape, d: Driver, sql: string)
    ensures var r := InSetSql(t, d, sql);
            && (r.rc == 0 || r.rc == -1) && (r.rc == 0 <==> d.connected && Granted(t, d.server.clock))
            && (r.rc == 0 ==> StatementOf(r.driver.server, r.driver.scratch.stmt) == Statement(sql, map[], "")
                              && r.driver.server.clock == d.server.clock + 2 && r.driver.scratch.stmt != 0)
  {
    hide OpenScratch, CloseScratch, PrepareScratch;
    var c := CloseScratch(d);
    ClosedScratch(d);
    OpenedScratch(t, c);
    var o := OpenScratch(t, c);
    PreparedText(t, o.driver, sql);
  }

  lemma ClosedScratch(d: Driver)
    ensures var c := CloseScratch(d); !c.scratch.isOpen && c.server.clock == d.server.clock
  {
  }

  /** Where the server answers executing executeSql's statement. */
  function ExecuteSqlAt(t: Tape, d: Driver): Option<nat> {
    if !d.scratch.isOpen && d.connected && Granted(t, d.server.clock) then Some(d.server.clock + 2) else None
  }

  /** What happens to a prepared statement: executed, counted if the caller wants to know, and closed. */
  lemma ExecutedAndClosed(t: Tape, d: Driver, wantCount: bool, isCommit: bool)
    ensures var e := WriteScratch(t, d);
            var at, write := Some(d.server.clock), StatementOf(d.server, d.scratch.stmt);
            if e.rc < 0 then WriteOutcome(t, d, Fail(CloseScratch(RollbackTrans(e.driver))), at, write, isCommit)
            else
              var a := if wantCount then CountScratch(t, e.driver) else e;
              var c := if isCommit then CommitTrans(a.driver) else a.driver;
              var value := if wantCount then Some(a.rc) else None;
              WriteOutcome(t, d, Result(CloseScratch(c), 0, value), at, write, isCommit)
  {
    hide CloseScratch, CountScratch, Settle, Replay;
    WriteTraceReplays(t, LogOf(d.server), d.server.clock, StatementOf(d.server, d.scratch.stmt), isCommit);
  }

  lemma ExecuteSqlWrites(t: Tape, d: Driver, sql: string, wantCount: bool, isCommit: bool)
    ensures WriteOutcome(t, d, ExecuteSql(t, d, sql, wantCount, isCommit), ExecuteSqlAt(t, d),
                         Statement(sql, map[], ""), isCommit)
  {
    hide OpenScratch, CloseScratch, PrepareScratch, CountScratch, WriteScratch, CommitTrans, RollbackTrans, StatementOf;
    OpenedScratch(t, d);
    var o := OpenScratch(t, d);
    if o.rc == 0 {
      PreparedText(t, o.driver, sql);
      var p := PrepareScratch(t, o.driver, sql);
      if p.rc == 0 {
        ExecutedAndClosed(t, p.driver, wantCount, isCommit);
      }
    }
  }

  // ---------------------------------------------------------------- bound parameters

  lemma AllocatedParms(t: Tape, d: Driver)
    ensures var r := AllocateParms(t, d);
            && (r.rc == 0 || r.rc == -1)
            && r.driver.scratch.stmt == d.scratch.stmt && r.driver.server.stmts == d.server.stmts
            && (d.scratch.stmt == 0 ==> r.rc == -1 && r.driver == d)
            && (d.scratch.stmt != 0 ==>
                  r.driver.server.clock == d.server.clock + 1 && (r.rc == 0 <==> Code(t, d.server) > 0))
            && (r.rc == 0 ==>
                  Code(t, d.server) > 0 && r.driver.scratch.parms == Some(seq(Code(t, d.server), _ => BLANK_BIND)))
  {
  }

  lemma BoundText(t: Tape, d: Driver)
    requires d.scratch.parms.Some?
    ensures var r := BindParms(t, d);
            && r.driver.scratch == d.scratch
            && r.driver.server.clock == d.server.clock + 1 && (r.rc == 0 <==> Code(t, d.server) == 0)
            && (r.rc == 0 ==> StatementOf(r.driver.server, d.scratch.stmt)
                              == StatementOf(d.server, d.scratch.stmt).(binds := AsMap(d.scratch.parms.value)))
  {
  }

  /** The types that a parameter can have: int, long long, string and binary. */
  lemma SupportedIff(ty: int)
    ensures Supported(ty) <==> ty == 2 || ty == 4 || ty == 9 || ty == 10
  {
  }

  /** The binding is to the slot: its pointer, and through it the server reads exactly what the caller stored. */
  predicate Carries(bind: Bind, slot: Slot) {
    && slot.data.To? && bind.buffer == slot.data && bind.ty == MysqlType(slot.ty)
    && bind.size == (if slot.ty == 2 then 4 else if slot.ty == 4 then 8 else slot.len)
    && MysqlReads(bind) == Some(Meant(slot.ty, slot.len, slot.data))
  }

  lemma BindCarries(slot: Slot)
    requires slot.data.To? && Supported(slot.ty)
    ensures Carries(BindOf(slot), slot)
  {
    FrontIsText(slot.data.text);
  }

  /** What the server is bound to: the slots set without a gap from the first, and blanks after them. */
  function BoundSlots(slots: seq<Slot>, count: nat): (binds: seq<Bind>)
    requires SetPrefix(slots) <= count
    ensures |binds| == count
    ensures forall i :: 0 <= i < count ==> binds[i] == if i < SetPrefix(slots) then BindOf(slots[i]) else BLANK_BIND
  {
    seq(count, (i: nat) => if i < SetPrefix(slots) then BindOf(slots[i]) else BLANK_BIND)
  }

  predicate PrefixSupported(slots: seq<Slot>) {
    forall i :: 0 <= i < SetPrefix(slots) ==> Supported(slots[i].ty)
  }

  /** The binding loop fills exactly the maximal prefix of set slots, and fails iff one of them has no type it knows. */
  lemma {:induction false} BindSlotsFills(c: CursorState, slots: seq<Slot>, i: nat)
    requires i <= |slots|
    requires c.parms.Some? && i <= SetPrefix(slots) <= |c.parms.value|
    requires forall j :: 0 <= j < i ==> Supported(slots[j].ty)
    ensures var (c', ok) := BindSlots(c, slots, i);
            && (ok <==> PrefixSupported(slots))
            && c' == c.(parms := c'.parms) && c'.parms.Some? && |c'.parms.value| == |c.parms.value|
            && (ok ==> forall j :: 0 <= j < |c.parms.value| ==>
                  c'.parms.value[j] == if i <= j < SetPrefix(slots) then BindOf(slots[j]) else c.parms.value[j])
    decreases |slots| - i
  {
    if i == |slots| || slots[i].data.Null? {
      assert i == SetPrefix(slots);
    } else if Supported(slots[i].ty) {
      BindSlotsFills(BindPos(c, i, BindOf(slots[i])), slots, i + 1);
    }
  }

  lemma FilledParms(c: CursorState, slots: seq<Slot>, count: nat)
    requires SetPrefix(slots) <= count && PrefixSupported(slots)
    requires c.parms == Some(seq(count, _ => BLANK_BIND))
    ensures BindSlots(c, slots, 0).1
    ensures BindSlots(c, slots, 0).0 == c.(parms := Some(BoundSlots(slots, count)))
  {
    BindSlotsFills(c, slots, 0);
    assert BindSlots(c, slots, 0).0.parms.value == BoundSlots(slots, count);
  }

  /** Where the server answers executing phExecute's statement: created, prepared, counted, bound, executed. */
  function PhExecuteAt(t: Tape, d: Driver): Option<nat> {
    var k := d.server.clock;
    if d.connected && Granted(t, k) && t(k + 2).code > 0 && PrefixSupported(d.slots)
      && t(k + 3).code == 0 then Some(k + 4)
    else None
  }

  /** The statement that phSetSql left, bound to the slots set without a gap from the first. */
  function PhStatement(t: Tape, d: Driver): Statement
    requires SetPrefix(d.slots) <= t(d.server.clock + 2).code
  {
    Statement(d.sql, AsMap(BoundSlots(d.slots, t(d.server.clock + 2).code)), "")
  }

  lemma ParamCountIs(t: Tape, d: Driver)
    requires RoomForSlots(t, d) && d.connected && Granted(t, d.server.clock)
    ensures ParamCount(t, d) == t(d.server.clock + 2).code
    ensures t(d.server.clock + 2).code > 0 ==> SetPrefix(d.slots) <= t(d.server.clock + 2).code
  {
    hide InSetSql;
    InSetSqlText(t, d, d.sql);
  }

  /** Statement and slots stay when there is no connection, or preparing or executing fails; else they are forgotten. */
  predicate KeepsParameters(t: Tape, d: Driver, rc: int) {
    !(d.connected && Granted(t, d.server.clock)) || (PhExecuteAt(t, d).Some? && rc != 0)
  }

  /**
   phExecute hands the server the statement that phSetSql left, bound to exactly the slots set
   without a gap from the first; bindings that no slot fills are blank, whatever was bound before.
   */
  lemma PhExecuteWrites(t: Tape, d: Driver, isCommit: bool)
    requires RoomForSlots(t, d)
    ensures var (r, at) := (PhExecute(t, d, isCommit), PhExecuteAt(t, d));
            && (at.Some? ==> SetPrefix(d.slots) <= t(d.server.clock + 2).code)
            && WriteOutcome(t, d, r, at, if at.Some? then PhStatement(t, d) else Statement("", map[], ""), isCommit)
  {
    hide InSetSql, AllocateParms, BindSlots, BindParms, InExec, CloseScratch, WriteTrace, Replay, AsMap,
      BoundSlots, Numbered, BindOf, PrefixSupported;
    if d.connected {
      InSetSqlText(t, d, d.sql);
      var s := InSetSql(t, d, d.sql);
      if s.rc == 0 {
        ParamCountIs(t, d);
        AllocatedParms(t, s.driver);
        var a := AllocateParms(t, s.driver);
        if a.rc == 0 {
          BindSlotsFills(a.driver.scratch, d.slots, 0);
          var (c, ok) := BindSlots(a.driver.scratch, d.slots, 0);
          if ok {
            FilledParms(a.driver.scratch, d.slots, ParamCount(t, d));
            var filled := a.driver.(scratch := c);
            BoundText(t, filled);
            InExecWrites(t, BindParms(t, filled).driver, isCommit);
          }
        }
      }
    }
    NotAsked(t, LogOf(d.server), isCommit);
  }

  lemma PhExecuteForgets(t: Tape, d: Driver, isCommit: bool)
    requires RoomForSlots(t, d)
    ensures var r := PhExecute(t, d, isCommit);
            && r.driver.sql == (if KeepsParameters(t, d, r.rc) then d.sql else "")
            && r.driver.slots == if KeepsParameters(t, d, r.rc) then d.slots else BlankSlots()
  {
    hide InSetSql, AllocateParms, BindSlots, BindParms, InExec, CloseScratch, WriteTrace, Replay, Numbered, Silent,
      BindOf, PrefixSupported;
    if d.connected {
      InSetSqlText(t, d, d.sql);
      var s := InSetSql(t, d, d.sql);
      if s.rc == 0 {
        ParamCountIs(t, d);
        AllocatedParms(t, s.driver);
        var a := AllocateParms(t, s.driver);
        if a.rc == 0 {
          BindSlotsFills(a.driver.scratch, d.slots, 0);
          var filled := a.driver.(scratch := BindSlots(a.driver.scratch, d.slots, 0).0);
          BoundText(t, filled);
          InExecWrites(t, BindParms(t, filled).driver, isCommit);
        }
      }
    }
  }

  lemma NotAsked(t: Tape, l: Log, isCommit: bool)
    ensures forall write :: Replay(l, WriteTrace(t, None, write, isCommit)) == l
  {
  }

  // ---------------------------------------------------------------- named parameters, end to end

  /** The pointer, type and length that slot i was last set to. */
  function SetSlots(d: Driver, params: seq<Slot>): (d': Driver)
    requires |params| <= SLOTS && |d.slots| == SLOTS
    ensures |d'.slots| == SLOTS
  {
    if params == [] then d
    else
      var n := |params| - 1;
      var p := params[n];
      PhSetParm(SetSlots(d, params[..n]), n, p.ty, p.data, p.len).driver
  }

  lemma {:induction false} SetSlotsFills(d: Driver, params: seq<Slot>)
    requires |params| <= SLOTS && d.slots == BlankSlots()
    requires forall i :: 0 <= i < |params| ==> params[i].data.To?
    ensures var d' := SetSlots(d, params);
            && d' == d.(slots := d'.slots) && |d'.slots| == SLOTS
            && d'.slots[..|params|] == params
            && (forall i :: |params| <= i < SLOTS ==> d'.slots[i] == BLANK_SLOT)
  {
    if params != [] {
      SetSlotsFills(d, params[..|params| - 1]);
    }
  }

  lemma {:induction false} PrefixIs(slots: seq<Slot>, k: nat)
    requires k <= |slots|
    requires forall i :: 0 <= i < k ==> slots[i].data.To?
    requires k < |slots| ==> slots[k].data.Null?
    ensures SetPrefix(slots) == k
  {
    if k > 0 {
      PrefixIs(slots[1..], k - 1);
    }
  }

  /** The journal has one more write, committed, and nothing is pending. */
  predicate CommittedOneMore(j: seq<Entry>, j': seq<Entry>) {
    |j'| == |j| + 1 && Extends(j, j') && NothingPending(j') && j'[|j|].fate == Committed
  }

  /** One question mark per name; through the i-th the server reads the i-th parameter set, and the rest are blank. */
  ghost predicate BoundInOrder(write: Statement, tokens: seq<Token>, params: seq<Slot>) {
    && write.sql == Erase(tokens)
    && Count(write.sql, '?') == |ParamNames(tokens)|
    && (forall i :: i in write.binds <==> 0 <= i < |ParamNames(tokens)|)
    && (forall i :: 0 <= i < |ParamNames(tokens)| ==>
          if i < |params| then Carries(write.binds[i], params[i])
          else write.binds[i].buffer.Null? && write.binds[i].ty == 0 && write.binds[i].length.None?)
  }

  /** The driver once a template is set and its first slots are set. */
  function WithParameters(d: Driver, tokens: seq<Token>, params: seq<Slot>): Driver
    requires |params| <= SLOTS && |d.slots| == SLOTS
  {
    SetSlots(PhSetSql(d, Some(Render(tokens))).driver, params)
  }

  lemma ParametersAreSet(d: Driver, tokens: seq<Token>, params: seq<Slot>)
    requires |d.slots| == SLOTS && WellFormed(tokens) && |Render(tokens)| < BUFFER_LENGTH && |params| <= SLOTS
    requires forall i :: 0 <= i < |params| ==> params[i].data.To?
    ensures var d' := WithParameters(d, tokens, params);
            && d'.sql == Erase(tokens) && d'.slots[..|params|] == params && SetPrefix(d'.slots) == |params|
            && d'.server == d.server && d'.trans == d.trans
  {
    hide Erase, Render, WellFormed, Rewrite;
    RewriteErasesNames(tokens);
    var d0 := PhSetSql(d, Some(Render(tokens))).driver;
    SetSlotsFills(d0, params);
    var d1 := SetSlots(d0, params);
    forall i | 0 <= i < |params|
      ensures d1.slots[i].data.To?
    {
      assert d1.slots[i] == d1.slots[..|params|][i];
    }
    PrefixIs(d1.slots, |params|);
  }

  lemma FilledInOrder(d: Driver, tokens: seq<Token>, params: seq<Slot>)
    requires WellFormed(tokens) && d.sql == Erase(tokens)
    requires forall i :: 0 <= i < |tokens| && tokens[i].Text? ==> '?' !in tokens[i].text
    requires SetPrefix(d.slots) == |params| <= |ParamNames(tokens)| && d.slots[..|params|] == params
    requires forall i :: 0 <= i < |params| ==> params[i].data.To? && Supported(params[i].ty)
    ensures BoundInOrder(Statement(d.sql, AsMap(BoundSlots(d.slots, |ParamNames(tokens)|)), ""), tokens, params)
  {
    hide Erase, WellFormed, BindOf, Carries, Supported;
    OneMarkPerName(tokens);
    forall i | 0 <= i < |params|
      ensures Carries(BindOf(params[i]), params[i])
    {
      BindCarries(params[i]);
    }
    assert forall i :: 0 <= i < |params| ==> d.slots[i] == d.slots[..|params|][i];
  }

  /**
   Named parameters end to end.  A template with p named parameters and no literal question mark is
   set, its first k slots are set, and it is executed with commit: if that returns 0, the server has
   committed the template with one question mark per name, reads through the i-th what the caller
   stored in the i-th slot, and through every later one nothing.  The server is assumed to count one parameter per
   question mark.
   */
  lemma NamedParametersReachTheServer(t: Tape, d: Driver, tokens: seq<Token>, params: seq<Slot>)
    requires |d.slots| == SLOTS && WellFormed(tokens) && |Render(tokens)| < BUFFER_LENGTH
    requires forall i :: 0 <= i < |tokens| && tokens[i].Text? ==> '?' !in tokens[i].text
    requires |params| <= |ParamNames(tokens)| && |params| <= SLOTS
    requires forall i :: 0 <= i < |params| ==> params[i].data.To? && params[i].ty in {2, 4, 9, 10}
    requires var d' := WithParameters(d, tokens, params);
             InSetSql(t, d', d'.sql).rc == 0 ==> ParamCount(t, d') == |ParamNames(tokens)|
    ensures var d' := WithParameters(d, tokens, params);
            && RoomForSlots(t, d')
            && (var r := PhExecute(t, d', true);
                r.rc == 0 ==>
                  && CommittedOneMore(d.server.journal, r.driver.server.journal)
                  && BoundInOrder(r.driver.server.journal[|d.server.journal|].write, tokens, params))
  {
    hide InSetSql, PhExecute, Erase, Render, WellFormed, WithParameters, BoundInOrder, AsMap, Replay, BindOf;
    ParametersAreSet(d, tokens, params);
    var d' := WithParameters(d, tokens, params);
    PhExecuteWrites(t, d', true);
    var r := PhExecute(t, d', true);
    if r.rc == 0 {
      InSetSqlText(t, d', d'.sql);
      ParamCountIs(t, d');
      FilledInOrder(d', tokens, params);
      CommittedAtOnce(LogOf(d.server), PhStatement(t, d'));
    }
  }

  // ---------------------------------------------------------------- long columns

  lemma SentText(t: Tape, d: Driver, data: string)
    ensures var r := TransferBinData(t, d, data);
            && (r.rc == 0 || r.rc == -1) && (r.rc == 0 <==> Code(t, d.server) == 0)
            && (r.rc == 0 ==>
                  && r.driver.server.clock == d.server.clock + 1
                  && r.driver.scratch == d.scratch
                  && StatementOf(r.driver.server, d.scratch.stmt)
                     == StatementOf(d.server, d.scratch.stmt).(long := StatementOf(d.server, d.scratch.stmt).long
                                                               + data))
            && ScratchSilent(d, r.driver)
  {
    hide CloseScratch;
  }

  /** The statement a load begins with: rewritten, its first parameter to be sent in pieces. */
  function LongStatement(sql: string, bind: Bind, count: int, long: string): Statement
    requires count > 0
  {
    Statement(Rewrite(sql), AsMap(seq(count, _ => BLANK_BIND)[0 := bind]), long)
  }

  predicate Fits(sql: Option<string>) {
    sql.Some? && |sql.value| < BUFFER_LENGTH
  }

  /** A load is begun by four answers: created, prepared, counted, bound. */
  predicate Begins(t: Tape, d: Driver, sql: Option<string>, bind: Option<Bind>) {
    var k := d.server.clock;
    Fits(sql) && d.connected && Granted(t, k) && t(k + 2).code > 0 && bind.Some? && t(k + 3).code == 0
  }

  lemma BeginLongText(t: Tape, d: Driver, sql: Option<string>, bind: Option<Bind>)
    ensures var r := BeginLong(t, d, sql, bind);
            && r.rc == (if Begins(t, d, sql, bind) then 0 else -1)
            && r.driver.trans == d.trans && Silent(d.server, r.driver.server)
            && (r.rc == 0 ==>
                  && r.driver.server.clock == d.server.clock + 4
                  && StatementOf(r.driver.server, r.driver.scratch.stmt)
                     == LongStatement(sql.value, bind.value, t(d.server.clock + 2).code, ""))
  {
    hide InSetSql, AllocateParms, BindParms, CloseScratch, Rewrite, AsMap;
    var p := PhSetSql(d, sql);
    if p.rc == 0 {
      InSetSqlText(t, p.driver, p.driver.sql);
      var r := InSetSql(t, p.driver, p.driver.sql);
      if r.rc == 0 {
        AllocatedParms(t, r.driver);
        var a := AllocateParms(t, r.driver);
        if a.rc == 0 && bind.Some? {
          BoundText(t, a.driver.(scratch := BindPos(a.driver.scratch, 0, bind.value)));
        }
      }
    }
  }

  function Concat(pieces: seq<string>): string {
    if pieces == [] then "" else pieces[0] + Concat(pieces[1..])
  }

  /** Transfers one piece after the other, as long as none fails. */
  function TransferAll(t: Tape, d: Driver, pieces: seq<string>): Result
    decreases pieces
  {
    if pieces == [] then Ok(d)
    else
      var r := TransferBinData(t, d, pieces[0]);
      if r.rc != 0 then r else TransferAll(t, r.driver, pieces[1..])
  }

  lemma {:induction false} TransferAllText(t: Tape, d: Driver, pieces: seq<string>)
    ensures var r := TransferAll(t, d, pieces);
            && ScratchSilent(d, r.driver)
            && (r.rc == 0 ==>
                  && r.driver.scratch == d.scratch
                  && StatementOf(r.driver.server, d.scratch.stmt)
                     == StatementOf(d.server, d.scratch.stmt).(long := StatementOf(d.server, d.scratch.stmt).long
                                                               + Concat(pieces)))
    decreases pieces
  {
    hide TransferBinData;
    if pieces == [] {
      assert StatementOf(d.server, d.scratch.stmt).long + "" == StatementOf(d.server, d.scratch.stmt).long;
    } else {
      SentText(t, d, pieces[0]);
      var r := TransferBinData(t, d, pieces[0]);
      if r.rc == 0 {
        TransferAllText(t, r.driver, pieces[1..]);
        var long := StatementOf(d.server, d.scratch.stmt).long;
        assert (long + pieces[0]) + Concat(pieces[1..]) == long + Concat(pieces);
      }
    }
  }

  /** The number that MySQL has for the type of a long column: BLOB for a binary, STRING for a text. */
  function LongType(longType: int): int {
    if longType == 10 then 252 else 254
  }

  /** The rewritten statement with one long value of that type; its other parameters are blank. */
  predicate LongWritten(write: Statement, sql: string, ty: int, data: string) {
    && write.sql == Rewrite(sql) && write.long == data
    && 0 in write.binds && write.binds[0].ty == ty && write.binds[0].length == Some(0)
    && forall i :: i in write.binds && i != 0 ==> write.binds[i] == Bind(0, Null, 0, None)
  }

  lemma LoadBindIs(colType: int)
    ensures LoadBind(colType).Some? <==> colType == 10 || colType == 11
    ensures LoadBind(colType).Some? ==> LoadBind(colType).value == Bind(LongType(colType), Null, 0, Some(0))
  {
  }

  lemma LongStatementIs(sql: string, bind: Bind, count: int, data: string)
    requires count > 0 && bind.length == Some(0)
    ensures LongWritten(LongStatement(sql, bind, count, data), sql, bind.ty, data)
    ensures LongStatement(sql, bind, count, data).binds[0] == bind
  {
    hide Rewrite;
  }

  /**
   The load protocol.  Begin, any number of transfers and end, each returning 0 and the last with
   commit, commit one write: the rewritten statement with all the pieces, in the order sent.
   */
  lemma LoadWritesAllPieces(t: Tape, d: Driver, sql: string, colType: int, pieces: seq<string>)
    ensures var b := BeginLoadBinaryData(t, d, Some(sql), colType);
            b.rc == 0 ==>
              && t(d.server.clock + 2).code > 0 && LoadBind(colType).Some?
              && var s := TransferAll(t, b.driver, pieces);
              s.rc == 0 ==>
                var e := EndLoadBinaryData(t, s.driver, true);
                e.rc == 0 ==>
                  && CommittedOneMore(d.server.journal, e.driver.server.journal)
                  && var write := e.driver.server.journal[|d.server.journal|].write;
                  LongWritten(write, sql, LongType(colType), Concat(pieces))
                  && (colType == 10 || colType == 11)
  {
    hide BeginLong, TransferAll, InExec, Rewrite, Concat, AsMap, Replay, LoadBind, LongWritten, LongStatement;
    LoadBindIs(colType);
    if t(d.server.clock + 2).code > 0 && LoadBind(colType).Some? {
      LongStatementIs(sql, LoadBind(colType).value, t(d.server.clock + 2).code, Concat(pieces));
      LongPieces(sql, LoadBind(colType).value, t(d.server.clock + 2).code, Concat(pieces));
    }
    BeginLongText(t, d, Some(sql), LoadBind(colType));
    var b := BeginLoadBinaryData(t, d, Some(sql), colType);
    if b.rc == 0 {
      TransferAllText(t, b.driver, pieces);
      var s := TransferAll(t, b.driver, pieces);
      if s.rc == 0 {
        InExecWrites(t, s.driver, true);
        CommittedAtOnce(LogOf(d.server), StatementOf(s.driver.server, s.driver.scratch.stmt));
      }
    }
  }

  lemma LongPieces(sql: string, bind: Bind, count: int, data: string)
    requires count > 0
    ensures LongStatement(sql, bind, count, "").(long := LongStatement(sql, bind, count, "").long + data)
            == LongStatement(sql, bind, count, data)
  {
    assert "" + data == data;
  }

  /** Where the server answers executing setLongFld's statement: begun, sent, executed. */
  function SetLongFldAt(t: Tape, d: Driver, sql: Option<string>, msg: Pointer, length: nat,
                        longType: int): (at: Option<nat>)
    requires msg.To? && longType == SQL_BINARY ==> length <= |msg.text|
    ensures at.Some? ==> sql.Some? && msg.To? && LongBind(msg, length, longType).Some? && t(d.server.clock + 2).code > 0
  {
    var k := d.server.clock;
    if msg.To? && Begins(t, d, sql, LongBind(msg, length, longType)) && t(k + 4).code == 0 then Some(k + 5) else None
  }

  /** What setLongFld asks the server to execute. */
  function LongWrite(t: Tape, d: Driver, sql: Option<string>, msg: Pointer, length: nat, longType: int): Statement
    requires msg.To? && longType == SQL_BINARY ==> length <= |msg.text|
    requires SetLongFldAt(t, d, sql, msg, length, longType).Some?
  {
    LongStatement(sql.value, LongBind(msg, length, longType).value, t(d.server.clock + 2).code,
                  LongData(msg, length, longType))
  }

  /** What setLongFld sends is the message: as many bytes as it is told, or the text up to its NUL. */
  lemma LongWriteIs(t: Tape, d: Driver, sql: Option<string>, msg: Pointer, length: nat, longType: int)
    requires msg.To? && longType == SQL_BINARY ==> length <= |msg.text|
    requires SetLongFldAt(t, d, sql, msg, length, longType).Some?
    ensures longType == 10 || longType == 11
    ensures var write := LongWrite(t, d, sql, msg, length, longType);
            var data := if longType == 10 then Front(msg.text, length) else TextIn(msg.text);
            && LongWritten(write, sql.value, LongType(longType), data)
            && write.binds[0].buffer == msg && write.binds[0].size == |data|
  {
    hide Rewrite, LongStatement, LongWritten;
    var bind := LongBind(msg, length, longType).value;
    LongStatementIs(sql.value, bind, t(d.server.clock + 2).code, LongData(msg, length, longType));
  }

  /** setLongFld writes what a load of one piece writes. */
  lemma SetLongFldWrites(t: Tape, d: Driver, sql: Option<string>, msg: Pointer, length: nat, longType: int,
                         isCommit: bool)
    requires msg.To? && longType == SQL_BINARY ==> length <= |msg.text|
    ensures var r := SetLongFld(t, d, sql, msg, length, longType, isCommit);
            var at := SetLongFldAt(t, d, sql, msg, length, longType);
            WriteOutcome(t, d, r, at,
                         if at.None? then Statement("", map[], "")
                           else LongWrite(t, d, sql, msg, length, longType), isCommit)
  {
    hide BeginLong, TransferBinData, InExec, Rewrite, LongBind, LongData, AsMap, Replay, WriteTrace;
    NotAsked(t, LogOf(d.server), isCommit);
    if msg.To? {
      BeginLongText(t, d, sql, LongBind(msg, length, longType));
      var b := BeginLong(t, d, sql, LongBind(msg, length, longType));
      if b.rc == 0 {
        var data := LongData(msg, length, longType);
        SentText(t, b.driver, data);
        assert "" + data == data;
        InExecWrites(t, TransferBinData(t, b.driver, data).driver, isCommit);
      }
    }
  }

  // ---------------------------------------------------------------- every call, every run

  predicate IsWrite(call: Call) {
    call.CallExecuteSql? || call.CallSetLongFld? || call.CallEndLoad? || call.CallPhExecute?
  }

  function CommitsAtOnce(call: Call): bool
    requires IsWrite(call)
  {
    match call
    case CallExecuteSql(_, _, isCommit) => isCommit
    case CallSetLongFld(_, _, _, _, isCommit) => isCommit
    case CallEndLoad(isCommit) => isCommit
    case CallPhExecute(isCommit) => isCommit
  }

  /** Where the server answers executing the call's statement, if the call gets that far. */
  function ExecuteAt(t: Tape, d: Driver, call: Call): Option<nat>
    requires IsWrite(call) && Allowed(t, d, call)
  {
    match call
    case CallExecuteSql(_, _, _) => ExecuteSqlAt(t, d)
    case CallSetLongFld(text, msg, length, longType, _) => SetLongFldAt(t, d, text, msg, length, longType)
    case CallEndLoad(_) => Some(d.server.clock)
    case CallPhExecute(_) => PhExecuteAt(t, d)
  }

  lemma RoomAt(t: Tape, d: Driver)
    requires RoomForSlots(t, d) && PhExecuteAt(t, d).Some?
    ensures SetPrefix(d.slots) <= t(d.server.clock + 2).code
  {
    hide InSetSql, RoomForSlots;
    ParamCountIs(t, d);
  }

  /** What the call asks the server to execute. */
  function WriteOf(t: Tape, d: Driver, call: Call): Statement
    requires IsWrite(call) && Allowed(t, d, call) && ExecuteAt(t, d, call).Some?
  {
    match call
    case CallExecuteSql(sql, _, _) => Statement(sql, map[], "")
    case CallSetLongFld(text, msg, length, longType, _) => LongWrite(t, d, text, msg, length, longType)
    case CallEndLoad(_) => StatementOf(d.server, d.scratch.stmt)
    case CallPhExecute(_) => RoomAt(t, d); PhStatement(t, d)
  }

  /** checkConStatus finds the connection alive. */
  predicate Alive(t: Tape, d: Driver) {
    d.connected && Code(t, d.server) !in LOST_CODES
  }

  /** What a call does to the journal, from its arguments, the state it finds and the answers it gets. */
  function Trace(t: Tape, d: Driver, call: Call): seq<Event>
    requires Allowed(t, d, call)
  {
    if IsWrite(call) then
      var at := ExecuteAt(t, d, call);
      WriteTrace(t, at, if at.Some? then WriteOf(t, d, call) else Statement("", map[], ""), CommitsAtOnce(call))
    else match call
      // a nested unit commits the earlier one first
      case CallBeginTrans => if d.trans then [CommitAll] else []
      case CallCommitTrans => [CommitAll]
      case CallRollbackTrans => [RollBackAll]
      // the end of a session rolls back what it left pending
      case CallConnect(user, password, host) =>
        if d.connected || |user| > 63 || |password| > 127 || |host| > 63 then [] else [RollBackAll]
      case CallDisconnect => if d.connected then [RollBackAll] else []
      case CallCheckConStatus(n) => if Alive(t, d) || n <= 0 then [] else [RollBackAll]
      case _ => []
  }

  /** The traces of the calls of a run, one after the other. */
  function RunTrace(t: Tape, d: Driver, calls: seq<Call>): seq<Event>
    requires RunAllowed(t, d, calls)
    decreases calls
  {
    if calls == [] then [] else Trace(t, d, calls[0]) + RunTrace(t, Apply(t, d, calls[0]).driver, calls[1..])
  }

  lemma {:induction false} RetryTrace(t: Tape, d: Driver, attempt: nat, maxRetryTimes: int)
    ensures var r := Retry(t, d, attempt, maxRetryTimes);
            LogOf(r.driver.server) == if attempt < maxRetryTimes then Note(LogOf(d.server), RollBackAll)
              else LogOf(d.server)
    decreases maxRetryTimes - attempt
  {
    hide DestroyAll, Settle;
    if attempt < maxRetryTimes {
      var r := ConnectNative(t, d.(connected := false));
      if r.rc != 0 {
        RetryTrace(t, FreeTable(r.driver), attempt + 1, maxRetryTimes);
        RollBackTwice(LogOf(d.server));
      }
    }
  }

  /** A write call's code, and the journal after it. */
  lemma WriteCallTrace(t: Tape, d: Driver, call: Call)
    requires Allowed(t, d, call) && IsWrite(call)
    ensures var (r, at) := (Apply(t, d, call), ExecuteAt(t, d, call));
            WriteOutcome(t, d, r, at, if at.Some? then WriteOf(t, d, call)
                         else Statement("", map[], ""), CommitsAtOnce(call))
  {
    hide WriteOutcome, ExecuteSql, PhExecute, SetLongFld, InExec, RoomForSlots, AsMap, LongWrite, PhStatement, LongBind,
      LongData, ExecuteSqlAt, SetLongFldAt, PhExecuteAt;
    match call
    case CallExecuteSql(sql, wantCount, isCommit) =>
      ExecuteSqlWrites(t, d, sql, wantCount, isCommit);
      AnyStatement(t, d, Apply(t, d, call), isCommit);
    case CallSetLongFld(text, msg, length, longType, isCommit) =>
      SetLongFldWrites(t, d, text, msg, length, longType, isCommit);
    case CallEndLoad(isCommit) => InExecWrites(t, d, isCommit);
    case CallPhExecute(isCommit) => PhExecuteWrites(t, d, isCommit);
  }

  /** When the server is not asked, it does not matter for what. */
  lemma AnyStatement(t: Tape, d: Driver, r: Result, isCommit: bool)
    ensures forall a, b {:trigger WriteOutcome(t, d, r, None, a, isCommit), WriteOutcome(t, d, r, None, b, isCommit)} ::
              WriteOutcome(t, d, r, None, a, isCommit) ==> WriteOutcome(t, d, r, None, b, isCommit)
  {
  }

  /** Neither writes, nor has anything to do with transactions and sessions. */
  predicate IsQuiet(call: Call) {
    !IsWrite(call) && !call.CallBeginTrans? && !call.CallCommitTrans? && !call.CallRollbackTrans?
    && !call.CallConnect? && !call.CallDisconnect? && !call.CallCheckConStatus?
  }

  lemma QuietCallsAreSilent(t: Tape, d: Driver, call: Call)
    requires Allowed(t, d, call) && IsQuiet(call)
    ensures Silent(d.server, Apply(t, d, call).driver.server)
  {
    hide BeginLong, InSetSql, GetRec, TransferBinData, CloseScratch, Query, CloseQuery, FetchQuery, GetCurRec, PhSetSql,
      RoomForSlots, Fits, Numbered, ShowTables, Begins;
    match call
    case CallBeginLoad(text, colType) => BeginLongText(t, d, text, LoadBind(colType));
    case CallTransfer(data) => SentText(t, d, data);
    case CallPhSetSql(text) => PhSetSqlSilent(d, text);
    case CallQuery(text) => QuerySilent(t, d, text, 0);
    case CallFetch(handle) => QuerySilent(t, d, None, handle);
    case CallGetCurRec(handle) => QuerySilent(t, d, None, handle);
    case CallCloseQuery(handle) => QuerySilent(t, d, None, handle);
    case _ =>
  }

  lemma OtherCallTrace(t: Tape, d: Driver, call: Call)
    requires Allowed(t, d, call) && !IsWrite(call)
    ensures LogOf(Apply(t, d, call).driver.server) == Replay(LogOf(d.server), Trace(t, d, call))
  {
    hide CloseScratch, Retry, RoomForSlots, Settle, Replay, Numbered;
    ReplayShort(LogOf(d.server), CommitAll, CommitAll);
    ReplayShort(LogOf(d.server), RollBackAll, RollBackAll);
    if IsQuiet(call) {
      hide Apply;
      QuietCallsAreSilent(t, d, call);
    } else if call.CallCheckConStatus? {
      RetryTrace(t, d.(server := AskConnection(t, d.server).0), 0, call.maxRetryTimes);
    }
  }

  lemma QuerySilent(t: Tape, d: Driver, text: Option<string>, handle: int)
    ensures Silent(d.server, Query(t, d, text).driver.server) && Silent(d.server, CloseQuery(d, handle).driver.server)
    ensures Silent(d.server, FetchQuery(t, d, handle).driver.server)
            && Silent(d.server, GetCurRec(t, d, handle).driver.server)
  {
    hide OpenQuery, Discard, Find;
  }

  lemma PhSetSqlSilent(d: Driver, text: Option<string>)
    ensures PhSetSql(d, text).driver.server == d.server
  {
  }

  /** Every call changes the journal as its trace says, and a write call returns 0 exactly when it wrote. */
  lemma ApplyJournal(t: Tape, d: Driver, call: Call)
    requires Allowed(t, d, call)
    ensures var r := Apply(t, d, call);
            && LogOf(r.driver.server) == Replay(LogOf(d.server), Trace(t, d, call))
            && (IsWrite(call) ==>
                  (r.rc == 0 <==> ExecuteAt(t, d, call).Some? && t(ExecuteAt(t, d, call).value).code == 0)
                  && (r.rc == 0 || r.rc == -1))
  {
    hide Apply, Replay, WriteTrace, ExecuteAt, WriteOf;
    if IsWrite(call) {
      WriteCallTrace(t, d, call);
    } else {
      OtherCallTrace(t, d, call);
    }
  }

  /**
   Over any run the journal is what the traces of the calls make of it: the writes before the run, and
   then the writes that the calls got executed, in order, each with the fate that the first commit or
   rollback after it gives it, or pending.
   */
  lemma {:induction false} RunJournal(t: Tape, d: Driver, calls: seq<Call>)
    requires RunAllowed(t, d, calls)
    ensures LogOf(Run(t, d, calls).server) == Replay(LogOf(d.server), RunTrace(t, d, calls))
    ensures var trace := RunTrace(t, d, calls);
            Run(t, d, calls).server.journal == Settle(d.server.journal, FateAfter(trace)) + WritesOf(trace)
    decreases calls
  {
    hide Apply, Trace, Replay, Settle;
    if calls == [] {
      ReplayShort(LogOf(d.server), CommitAll, CommitAll);
    } else {
      var r := Apply(t, d, calls[0]);
      ApplyJournal(t, d, calls[0]);
      RunJournal(t, r.driver, calls[1..]);
      ReplayConcat(LogOf(d.server), Trace(t, d, calls[0]), RunTrace(t, r.driver, calls[1..]));
    }
    ReplayJournal(LogOf(d.server), RunTrace(t, d, calls));
  }

  /** The statements of the write calls of a run that returned 0, in order. */
  function Succeeded(t: Tape, d: Driver, calls: seq<Call>): seq<Statement>
    requires RunAllowed(t, d, calls)
    decreases calls
  {
    if calls == [] then []
    else
      var (call, r) := (calls[0], Apply(t, d, calls[0]));
      (if IsWrite(call) && r.rc == 0 && ExecuteAt(t, d, call).Some? then [WriteOf(t, d, call)] else [])
      + Succeeded(t, r.driver, calls[1..])
  }

  lemma TraceWrites(t: Tape, d: Driver, call: Call, rest: seq<Event>)
    requires Allowed(t, d, call)
    ensures var wrote := IsWrite(call) && Apply(t, d, call).rc == 0 && ExecuteAt(t, d, call).Some?;
            Statements(WritesOf(Trace(t, d, call) + rest)) ==
              (if wrote then [WriteOf(t, d, call)] else []) + Statements(WritesOf(rest))
  {
    hide Apply, ExecuteAt, WriteOf, WritesOf, Alive, Statements, Replay;
    ApplyJournal(t, d, call);
    EventThen(CommitAll, rest);
    EventThen(RollBackAll, rest);
    assert [] + rest == rest;
    assert [] + Statements(WritesOf(rest)) == Statements(WritesOf(rest)) && [] + WritesOf(rest) == WritesOf(rest);
    if IsWrite(call) && ExecuteAt(t, d, call).Some? {
      WriteTraceThen(t, ExecuteAt(t, d, call).value, WriteOf(t, d, call), CommitsAtOnce(call), rest);
    }
  }

  /** The writes that a run adds to the journal are those of its calls that returned 0, in order, and no others. */
  lemma {:induction false} RunWrites(t: Tape, d: Driver, calls: seq<Call>)
    requires RunAllowed(t, d, calls)
    ensures Statements(Run(t, d, calls).server.journal) == Statements(d.server.journal) + Succeeded(t, d, calls)
  {
    hide Run, Settle;
    RunJournal(t, d, calls);
    TraceSucceeded(t, d, calls);
    var trace := RunTrace(t, d, calls);
    StatementsOfRun(d.server.journal, trace);
  }

  lemma {:induction false} TraceSucceeded(t: Tape, d: Driver, calls: seq<Call>)
    requires RunAllowed(t, d, calls)
    ensures Statements(WritesOf(RunTrace(t, d, calls))) == Succeeded(t, d, calls)
    decreases calls
  {
    hide Apply, Trace, ExecuteAt, WriteOf;
    if calls != [] {
      var next := Apply(t, d, calls[0]).driver;
      TraceSucceeded(t, next, calls[1..]);
      TraceWrites(t, d, calls[0], RunTrace(t, next, calls[1..]));
    }
  }

  /** In the trace of a call, a failure is rolled back at once, so no commit comes between. */
  lemma TraceStaysClean(t: Tape, d: Driver, call: Call)
    requires Allowed(t, d, call) && Clean(d.server)
    ensures Clean(Apply(t, d, call).driver.server)
  {
    hide Apply, ExecuteAt, WriteOf, Settle, Replay;
    ApplyJournal(t, d, call);
    var l := LogOf(d.server);
    ReplayShort(l, CommitAll, CommitAll);
    ReplayShort(l, RollBackAll, RollBackAll);
    if IsWrite(call) && ExecuteAt(t, d, call).Some? {
      WriteTraceReplays(t, l, ExecuteAt(t, d, call).value, WriteOf(t, d, call), CommitsAtOnce(call));
    }
  }

  /** No failed write of any run is committed over before it is rolled back. */
  lemma {:induction false} RunStaysClean(t: Tape, d: Driver, calls: seq<Call>)
    requires RunAllowed(t, d, calls) && Clean(d.server)
    ensures Clean(Run(t, d, calls).server)
    decreases calls
  {
    hide Apply, Clean;
    if calls != [] {
      TraceStaysClean(t, d, calls[0]);
      RunStaysClean(t, Apply(t, d, calls[0]).driver, calls[1..]);
    }
  }

  /** A write call that commits and returns 0 leaves nothing pending, whatever was pending before. */
  lemma CommittingWriteLeavesNothingPending(t: Tape, d: Driver, call: Call)
    requires Allowed(t, d, call) && IsWrite(call) && CommitsAtOnce(call)
    ensures var r := Apply(t, d, call); r.rc == 0 ==> NothingPending(r.driver.server.journal) && !r.driver.trans
  {
    hide Apply, ExecuteAt, WriteOf, Replay;
    WriteCallTrace(t, d, call);
    var at := ExecuteAt(t, d, call);
    if at.Some? && t(at.value).code == 0 {
      CommittedAtOnce(LogOf(d.server), WriteOf(t, d, call));
    }
  }
}
