/**
 What every run of the Oracle driver keeps: the books of statement handles, a scratch cursor that is
 closed between calls, slots of known types, and a table without repeated handles.
 */
module OracleRuns {
  import opened NativeServer
  import opened OracleSpec

  function Held(c: Cursor): multiset<nat> {
    if c.stmt == 0 then multiset{} else multiset{c.stmt}
  }

  function HeldAll(table: seq<Listed>): multiset<nat> {
    if table == [] then multiset{} else Held(table[0].cursor) + HeldAll(table[1..])
  }

  predicate CursorOk(c: Cursor) {
    c.isOpen <==> c.stmt != 0
  }

  /** Of what is held, live is all that has not gone with its environment. */
  ghost predicate LiveIs(s: Server, held: multiset<nat>) {
    forall id :: s.live[id] == if id in s.gone then 0 else held[id]
  }

  /** Live is what `c` and the others hold, but for the statements that have gone; if none has, none was misused. */
  ghost predicate Books(s: Server, c: Cursor, others: multiset<nat>) {
    CursorOk(c) && LiveIs(s, Held(c) + others) && (s.gone == {} ==> !s.misused)
  }

  /** Statements that have gone with their environment have been misused, or an open query still holds one. */
  predicate LossShows(s: Server, table: seq<Listed>) {
    s.gone == {} || s.misused || exists i :: 0 <= i < |table| && table[i].cursor.stmt in s.gone
  }

  predicate TableOk(table: seq<Listed>) {
    && (forall i :: 0 <= i < |table| ==> CursorOk(table[i].cursor) && table[i].cursor.isOpen)
    && (forall i, j :: 0 <= i < j < |table| ==> table[i].handle != table[j].handle)
  }

  /** A slot that is set has one of the four types that the setters give. */
  predicate SlotsOk(slots: seq<Slot>) {
    |slots| == SLOTS && forall i :: 0 <= i < |slots| && slots[i].data.To? ==> Supported(slots[i].ty)
  }

  /**
   Live statements are those the cursors hold, each handed out once, but for those that have gone with
   their environment; none was ever misused, or some have gone, and then that shows.
   */
  ghost predicate BooksOk(d: Driver) {
    && Numbered(d.server)
    && Books(d.server, d.scratch, HeldAll(d.table))
    && LossShows(d.server, d.table)
    && TableOk(d.table)
    && SlotsOk(d.slots)
  }

  /** What holds between any two calls. */
  ghost predicate Idle(d: Driver) {
    BooksOk(d) && !d.scratch.isOpen
  }

  // ---------------------------------------------------------------- members of a cursor

  ghost predicate Tidy(s: Server, c: Cursor, s': Server, c': Cursor) {
    forall others {:trigger Books(s, c, others)} :: Books(s, c, others) ==> Books(s', c', others)
  }

  lemma OpenCurTidy(t: Tape, s: Server, c: Cursor, hasEnv: bool)
    requires CursorOk(c) && Numbered(s)
    ensures var o := OpenCur(t, s, c, hasEnv);
            Tidy(s, c, o.server, o.cursor) && CursorOk(o.cursor) && (o.rc == 0 <==> !c.isOpen && o.cursor.isOpen)
  {
    var o := OpenCur(t, s, c, hasEnv);
    forall others {:trigger Books(s, c, others)} | Books(s, c, others)
      ensures Books(o.server, o.cursor, others)
    {
      if o.rc == 0 {
        assert o.server.live == s.live + multiset{o.cursor.stmt} && o.cursor.stmt !in s.gone;
        assert multiset{} + others == others;
      }
    }
  }

  lemma CloseCurTidy(s: Server, c: Cursor)
    requires CursorOk(c)
    ensures var o := CloseCur(s, c); Tidy(s, c, o.server, o.cursor) && !o.cursor.isOpen && CursorOk(o.cursor)
  {
    var o := CloseCur(s, c);
    forall others {:trigger Books(s, c, others)} | Books(s, c, others)
      ensures Books(o.server, o.cursor, others)
    {
      if c.isOpen {
        assert (multiset{c.stmt} + others) - multiset{c.stmt} == others;
        assert multiset{} + others == others;
      }
    }
  }

  lemma AskTidy(s: Server, c: Cursor, s': Server)
    requires CursorOk(c) && c.isOpen
    requires s'.live == s.live && s'.gone == s.gone && s'.misused == (s.misused || c.stmt !in s.live)
    ensures Tidy(s, c, s', c)
  {
    assert c.stmt in Held(c);
  }

  lemma DiscardTidy(s: Server, c: Cursor)
    requires CursorOk(c)
    ensures Tidy(s, c, Discard(s, c), NEW_CURSOR) && Tidy(s, c, Destroy(s, c), NEW_CURSOR)
  {
    CloseCurTidy(s, c);
    var o := CloseCur(s, c);
    CloseCurTidy(o.server, o.cursor);
  }

  // ---------------------------------------------------------------- members of the scratch cursor

  lemma OpenScratchBooks(t: Tape, d: Driver)
    requires BooksOk(d)
    ensures var r := OpenScratch(t, d);
            && BooksOk(r.driver)
            && (r.rc == 0 <==> !d.scratch.isOpen && r.driver.scratch.isOpen)
            && (r.rc != 0 && !d.scratch.isOpen ==> !r.driver.scratch.isOpen)
  {
    OpenCurTidy(t, d.server, d.scratch, d.connected);
  }

  lemma CloseScratchBooks(d: Driver)
    requires BooksOk(d)
    ensures Idle(CloseScratch(d))
  {
    CloseCurTidy(d.server, d.scratch);
  }

  lemma AskScratchBooks(d: Driver, o: Outcome)
    requires BooksOk(d) && d.scratch.isOpen && o.cursor == d.scratch && Numbered(o.server)
    requires o.server.live == d.server.live && o.server.gone == d.server.gone
    requires o.server.misused == (d.server.misused || d.scratch.stmt !in d.server.live)
    ensures BooksOk(OnScratch(d, o).driver) && OnScratch(d, o).driver.scratch.isOpen
  {
    AskTidy(d.server, d.scratch, o.server);
  }

  lemma MembersBooks(t: Tape, d: Driver, sql: string, position: int, bind: Bind)
    requires BooksOk(d) && d.scratch.isOpen
    ensures BooksOk(PrepareScratch(t, d, sql).driver) && PrepareScratch(t, d, sql).driver.scratch.isOpen
    ensures BooksOk(AskScratch(t, d).driver) && AskScratch(t, d).driver.scratch.isOpen
    ensures BooksOk(BindScratch(t, d, position, bind).driver) && BindScratch(t, d, position, bind).driver.scratch.isOpen
    ensures BooksOk(WriteScratch(t, d).driver) && WriteScratch(t, d).driver.scratch.isOpen
  {
    hide BooksOk;
    AskScratchBooks(d, PrepareCur(t, d.server, d.scratch, sql)) by {
      assert Numbered(d.server) by { BooksGiveNumbered(d); }
    }
    assert Numbered(d.server) by { BooksGiveNumbered(d); }
    AskScratchBooks(d, AskCur(t, d.server, d.scratch));
    AskScratchBooks(d, BindCur(t, d.server, d.scratch, position, bind));
    AskScratchBooks(d, WriteCur(t, d.server, d.scratch));
  }

  lemma BooksGiveNumbered(d: Driver)
    requires BooksOk(d)
    ensures Numbered(d.server)
  {
  }

  lemma TransactionBooks(d: Driver)
    requires BooksOk(d)
    ensures BooksOk(CommitTrans(d)) && BooksOk(RollbackTrans(d)) && BooksOk(BeginTrans(d))
    ensures CommitTrans(d).scratch == RollbackTrans(d).scratch == BeginTrans(d).scratch == d.scratch
  {
    hide Held, HeldAll, TableOk, SlotsOk, Settle;
  }

  lemma GetErrBooks(t: Tape, d: Driver)
    requires BooksOk(d)
    ensures BooksOk(GetErr(t, d).driver) && GetErr(t, d).driver.scratch == d.scratch
    ensures BooksOk(FailoverCleanup(t, d)) && FailoverCleanup(t, d).scratch == d.scratch
  {
    hide BooksOk, RollbackTrans;
    var d' := d.(server := Answer(d.server));
    AnswerBooks(d);
    TransactionBooks(d');
    TransactionBooks(RollbackTrans(d'));
    TransactionBooks(GetErr(t, d).driver);
  }

  lemma AnswerBooks(d: Driver)
    requires BooksOk(d)
    ensures BooksOk(d.(server := Answer(d.server)))
  {
    hide Held, HeldAll, TableOk, SlotsOk;
  }

  // ---------------------------------------------------------------- calls on the scratch cursor

  lemma InSetSqlBooks(t: Tape, d: Driver, sql: string)
    requires BooksOk(d)
    ensures var r := InSetSql(t, d, sql);
            BooksOk(r.driver) && (r.rc == 0 || r.rc == -1) && (r.rc == 0 <==> r.driver.scratch.isOpen)
  {
    hide BooksOk, OpenScratch, PrepareScratch, CloseScratch, RollbackTrans;
    CloseScratchBooks(d);
    var o := OpenScratch(t, CloseScratch(d));
    OpenScratchBooks(t, CloseScratch(d));
    if o.rc == 0 {
      MembersBooks(t, o.driver, sql, 0, Bind(0, Null, 0, None));
      var p := PrepareScratch(t, o.driver, sql);
      TransactionBooks(p.driver);
      CloseScratchBooks(RollbackTrans(p.driver));
    }
  }

  /** Executing as a write, and all that may follow: rolling back, counting, committing, closing. */
  lemma WrittenBooks(t: Tape, d: Driver, wantCount: bool)
    requires BooksOk(d) && d.scratch.isOpen
    ensures var e := WriteScratch(t, d);
            var a := if wantCount then AskScratch(t, e.driver) else e;
            && Idle(CloseScratch(RollbackTrans(e.driver))) && Idle(CloseScratch(e.driver))
            && Idle(CloseScratch(a.driver)) && Idle(CommitTrans(CloseScratch(a.driver)))
  {
    hide BooksOk, WriteScratch, AskScratch, CloseScratch, CommitTrans, RollbackTrans;
    var none := Bind(0, Null, 0, None);
    MembersBooks(t, d, "", 0, none);
    var e := WriteScratch(t, d);
    CloseScratchBooks(e.driver);
    TransactionBooks(e.driver);
    CloseScratchBooks(RollbackTrans(e.driver));
    MembersBooks(t, e.driver, "", 0, none);
    var a := if wantCount then AskScratch(t, e.driver) else e;
    CloseScratchBooks(a.driver);
    TransactionBooks(CloseScratch(a.driver));
  }

  lemma InExecBooks(t: Tape, d: Driver, isCommit: bool)
    requires BooksOk(d) && d.scratch.isOpen
    ensures var r := InExec(t, d, isCommit); Idle(r.driver) && (r.rc == 0 || r.rc == -1)
  {
    hide BooksOk, WriteScratch, CloseScratch, CommitTrans, RollbackTrans;
    WrittenBooks(t, d, false);
  }

  lemma ExecuteSqlBooks(t: Tape, d: Driver, sql: string, wantCount: bool, isCommit: bool)
    requires Idle(d)
    ensures var r := ExecuteSql(t, d, sql, wantCount, isCommit); Idle(r.driver) && (r.rc == 0 || r.rc == -1)
  {
    hide BooksOk, OpenScratch, PrepareScratch, WriteScratch, AskScratch, CloseScratch, CommitTrans, RollbackTrans;
    var o := OpenScratch(t, d);
    OpenScratchBooks(t, d);
    if o.rc == 0 {
      MembersBooks(t, o.driver, sql, 0, Bind(0, Null, 0, None));
      var p := PrepareScratch(t, o.driver, sql);
      TransactionBooks(p.driver);
      CloseScratchBooks(RollbackTrans(p.driver));
      WrittenBooks(t, p.driver, wantCount);
    }
  }

  /** A prepared statement asked twice at most, closed, and cleaned up after. */
  lemma AskedBooks(t: Tape, d: Driver)
    requires BooksOk(d) && d.scratch.isOpen
    ensures var e := AskScratch(t, d);
            && BooksOk(e.driver) && e.driver.scratch.isOpen
            && Idle(CloseScratch(e.driver)) && Idle(FailoverCleanup(t, CloseScratch(e.driver)))
  {
    hide BooksOk, AskScratch, CloseScratch, FailoverCleanup;
    MembersBooks(t, d, "", 0, Bind(0, Null, 0, None));
    var e := AskScratch(t, d);
    CloseScratchBooks(e.driver);
    GetErrBooks(t, CloseScratch(e.driver));
  }

  lemma GetRecBooks(t: Tape, d: Driver, sql: string)
    requires Idle(d)
    ensures Idle(GetRec(t, d, sql).driver)
  {
    hide BooksOk, OpenScratch, PrepareScratch, AskScratch, CloseScratch, FailoverCleanup;
    var o := OpenScratch(t, d);
    OpenScratchBooks(t, d);
    if o.rc == 0 {
      MembersBooks(t, o.driver, sql, 0, Bind(0, Null, 0, None));
      var p := PrepareScratch(t, o.driver, sql);
      CloseScratchBooks(p.driver);
      AskedBooks(t, p.driver);
      var e := AskScratch(t, p.driver);
      AskedBooks(t, e.driver);
      AskedBooks(t, AskScratch(t, e.driver).driver);
    }
  }

  lemma IsTableBooks(t: Tape, d: Driver, name: string)
    requires Idle(d)
    ensures Idle(IsTable(t, d, name).driver)
  {
    hide BooksOk, OpenScratch, PrepareScratch, AskScratch, CloseScratch, FailoverCleanup, TableQuery;
    var o := OpenScratch(t, d);
    OpenScratchBooks(t, d);
    if o.rc == 0 {
      MembersBooks(t, o.driver, TableQuery(name), 0, Bind(0, Null, 0, None));
      var p := PrepareScratch(t, o.driver, TableQuery(name));
      CloseScratchBooks(p.driver);
      AskedBooks(t, p.driver);
      AskedBooks(t, AskScratch(t, p.driver).driver);
    }
  }

  lemma CheckSqlBooks(t: Tape, d: Driver, text: Option<string>, isSelect: bool)
    requires Idle(d)
    ensures Idle(CheckSql(t, d, text, isSelect).driver)
  {
    hide BooksOk, OpenScratch, PrepareScratch, AskScratch, WriteScratch, CloseScratch, FailoverCleanup;
    if text.Some? {
      var o := OpenScratch(t, d);
      OpenScratchBooks(t, d);
      if o.rc == 0 {
        MembersBooks(t, o.driver, text.value, 0, Bind(0, Null, 0, None));
        var p := PrepareScratch(t, o.driver, text.value);
        CloseScratchBooks(p.driver);
        AskedBooks(t, p.driver);
        WrittenBooks(t, p.driver, false);
      }
    }
  }

  // ---------------------------------------------------------------- parameters

  /** The loop leaves the cursor open only when it succeeds: no slot has a type it does not know. */
  lemma {:induction false} BindSlotsBooks(t: Tape, d: Driver, i: nat)
    requires BooksOk(d) && d.scratch.isOpen && i <= |d.slots|
    ensures var r := BindSlots(t, d, i);
            BooksOk(r.driver) && (r.rc == 0 || r.rc == -1) && (r.rc == 0 <==> r.driver.scratch.isOpen)
    decreases |d.slots| - i
  {
    hide BooksOk, BindScratch, CloseScratch, BindOf;
    if i < |d.slots| && d.slots[i].data.To? {
      assert Supported(d.slots[i].ty) by { SlotsAreSupported(d, i); }
      var bind := BindOf(d.slots[i]);
      MembersBooks(t, d, "", i + 1, bind);
      var b := BindScratch(t, d, i + 1, bind);
      CloseScratchBooks(b.driver);
      if b.rc >= 0 {
        BindSlotsBooks(t, b.driver, i + 1);
      }
    }
  }

  lemma SlotsAreSupported(d: Driver, i: nat)
    requires BooksOk(d) && i < |d.slots| && d.slots[i].data.To?
    ensures Supported(d.slots[i].ty)
  {
  }

  lemma PhFreeBooks(d: Driver)
    requires BooksOk(d)
    ensures BooksOk(PhFree(d)) && PhFree(d).scratch == d.scratch
  {
    hide Held, HeldAll, TableOk;
  }

  lemma PhExecuteBooks(t: Tape, d: Driver, isCommit: bool)
    requires Idle(d)
    ensures var r := PhExecute(t, d, isCommit); Idle(r.driver) && (r.rc == 0 || r.rc == -1)
  {
    hide BooksOk, InSetSql, BindSlots, InExec, PhFree;
    if d.connected {
      InSetSqlBooks(t, d, d.sql);
      var r := InSetSql(t, d, d.sql);
      if r.rc == 0 {
        BindSlotsBooks(t, r.driver, 0);
        var b := BindSlots(t, r.driver, 0);
        if b.rc == 0 {
          InExecBooks(t, b.driver, isCommit);
          PhFreeBooks(InExec(t, b.driver, isCommit).driver);
        }
      }
    }
  }

  lemma SetLongFldBooks(t: Tape, d: Driver, sql: string, msg: Pointer, longType: int, isCommit: bool)
    requires Idle(d)
    ensures Idle(SetLongFld(t, d, sql, msg, longType, isCommit).driver)
  {
    hide BooksOk, OpenScratch, PrepareScratch, BindScratch, WriteScratch, CloseScratch, CommitTrans, RollbackTrans;
    if msg.To? {
      var o := OpenScratch(t, d);
      OpenScratchBooks(t, d);
      if o.rc == 0 {
        var bind := LongBind(msg, longType);
        MembersBooks(t, o.driver, sql, 1, bind);
        var p := PrepareScratch(t, o.driver, sql);
        TransactionBooks(p.driver);
        CloseScratchBooks(RollbackTrans(p.driver));
        MembersBooks(t, p.driver, sql, 1, bind);
        var b := BindScratch(t, p.driver, 1, bind);
        CloseScratchBooks(b.driver);
        WrittenBooks(t, b.driver, false);
      }
    }
  }

  // ---------------------------------------------------------------- the table

  lemma {:induction false} HeldAllAppend(table: seq<Listed>, e: Listed)
    ensures HeldAll(table + [e]) == HeldAll(table) + Held(e.cursor)
  {
    hide Held;
    if table == [] {
      assert HeldAll([e]) == Held(e.cursor);
    } else {
      HeldAllAppend(table[1..], e);
      assert (table + [e])[1..] == table[1..] + [e];
    }
  }

  function Without(table: seq<Listed>, k: nat): seq<Listed>
    requires k < |table|
  {
    table[..k] + table[k + 1..]
  }

  lemma {:induction false} HeldAllSplit(table: seq<Listed>, k: nat)
    requires k < |table|
    ensures HeldAll(table) == Held(table[k].cursor) + HeldAll(Without(table, k))
  {
    hide Held;
    if k == 0 {
      assert table[1..] == Without(table, 0);
    } else {
      HeldAllSplit(table[1..], k - 1);
      assert Without(table, k)[1..] == Without(table[1..], k - 1);
    }
  }

  lemma MoveBooks(s: Server, c: Cursor, c': Cursor, others: multiset<nat>)
    requires Books(s, c, Held(c') + others) && CursorOk(c')
    ensures Books(s, c', Held(c) + others)
    ensures c == NEW_CURSOR ==> Books(s, c', others)
  {
    assert Held(c) + (Held(c') + others) == Held(c') + (Held(c) + others);
    assert Held(NEW_CURSOR) == multiset{};
    assert multiset{} + others == others;
  }

  /** The books as the cursor at position `k` sees them. */
  lemma ListedBooks(d: Driver, k: nat)
    requires BooksOk(d) && k < |d.table|
    ensures Books(d.server, d.table[k].cursor, Held(d.scratch) + HeldAll(Without(d.table, k)))
    ensures CursorOk(d.table[k].cursor) && d.table[k].cursor.isOpen && CursorOk(d.scratch)
  {
    hide Held;
    HeldAllSplit(d.table, k);
  }

  lemma NewCursorBooks(d: Driver)
    requires BooksOk(d)
    ensures Books(d.server, NEW_CURSOR, Held(d.scratch) + HeldAll(d.table)) && CursorOk(d.scratch)
            && CursorOk(NEW_CURSOR)
  {
    hide HeldAll;
    assert Held(NEW_CURSOR) == multiset{};
    assert multiset{} + (Held(d.scratch) + HeldAll(d.table)) == Held(d.scratch) + HeldAll(d.table);
  }

  lemma TableOkAppend(table: seq<Listed>, e: Listed)
    requires TableOk(table) && CursorOk(e.cursor) && e.cursor.isOpen && !HasHandle(table, e.handle)
    ensures TableOk(table + [e])
  {
  }

  /** A query on its own cursor: prepared, executed, defined; or thrown away at any step. */
  lemma QueryTidy(t: Tape, s: Server, hasEnv: bool, sql: string)
    requires Numbered(s)
    ensures var o := OpenCur(t, s, NEW_CURSOR, hasEnv);
            && Tidy(s, NEW_CURSOR, Destroy(o.server, o.cursor), NEW_CURSOR)
            && (o.rc == 0 ==>
                  var p := PrepareCur(t, o.server, o.cursor, sql);
                  var e := AskCur(t, p.server, p.cursor);
                  var b := AskCur(t, e.server, e.cursor);
                  && Tidy(s, NEW_CURSOR, Discard(p.server, p.cursor), NEW_CURSOR)
                  && Tidy(s, NEW_CURSOR, Discard(e.server, e.cursor), NEW_CURSOR)
                  && Tidy(s, NEW_CURSOR, Discard(b.server, b.cursor), NEW_CURSOR)
                  && Tidy(s, NEW_CURSOR, b.server, b.cursor) && CursorOk(b.cursor) && b.cursor.isOpen)
  {
    hide OpenCur, Discard, Destroy, Books;
    var o := OpenCur(t, s, NEW_CURSOR, hasEnv);
    OpenCurTidy(t, s, NEW_CURSOR, hasEnv);
    DiscardTidy(o.server, o.cursor);
    if o.rc == 0 {
      var p := PrepareCur(t, o.server, o.cursor, sql);
      AskTidy(o.server, o.cursor, p.server);
      DiscardTidy(p.server, p.cursor);
      var e := AskCur(t, p.server, p.cursor);
      AskTidy(p.server, p.cursor, e.server);
      DiscardTidy(e.server, e.cursor);
      var b := AskCur(t, e.server, e.cursor);
      AskTidy(e.server, e.cursor, b.server);
      DiscardTidy(b.server, b.cursor);
    }
  }

  lemma DroppedQueryBooks(d: Driver, s': Server)
    requires Idle(d) && Numbered(s') && Silent(d.server, s') && Tidy(d.server, NEW_CURSOR, s', NEW_CURSOR)
    ensures Idle(d.(server := s'))
  {
    hide Held, HeldAll, TableOk, SlotsOk;
    NewCursorBooks(d);
    MoveBooks(s', NEW_CURSOR, d.scratch, HeldAll(d.table));
  }

  lemma ListedQueryBooks(d: Driver, s': Server, e: Listed)
    requires Idle(d) && Numbered(s') && Silent(d.server, s') && Tidy(d.server, NEW_CURSOR, s', e.cursor)
    requires CursorOk(e.cursor) && e.cursor.isOpen && !HasHandle(d.table, e.handle)
    ensures Idle(d.(server := s', table := d.table + [e]))
  {
    hide Held, HeldAll, TableOk, SlotsOk;
    NewCursorBooks(d);
    MoveBooks(s', e.cursor, d.scratch, HeldAll(d.table));
    HeldAllAppend(d.table, e);
    assert Held(e.cursor) + HeldAll(d.table) == HeldAll(d.table + [e]);
    TableOkAppend(d.table, e);
    assert forall i :: 0 <= i < |d.table| ==> (d.table + [e])[i] == d.table[i];
  }

  lemma QueryBooks(t: Tape, d: Driver, sql: string, draws: seq<int>)
    requires Idle(d) && draws != [] && !HasHandle(d.table, draws[|draws| - 1])
    ensures Idle(Query(t, d, sql, draws).driver)
  {
    hide BooksOk, OpenCur, PrepareCur, AskCur, Discard, Destroy, FailoverCleanup, Tidy, Numbered, HasHandle,
      CursorOk, FirstFresh;
    BooksGiveNumbered(d);
    QueryTidy(t, d.server, d.connected, sql);
    var o := OpenCur(t, d.server, NEW_CURSOR, d.connected);
    if o.rc != 0 {
      DroppedQueryBooks(d, Destroy(o.server, o.cursor));
    } else {
      var p := PrepareCur(t, o.server, o.cursor, sql);
      DroppedQueryBooks(d, Discard(p.server, p.cursor));
      var e := AskCur(t, p.server, p.cursor);
      var d' := d.(server := Discard(e.server, e.cursor));
      DroppedQueryBooks(d, d'.server);
      GetErrBooks(t, d');
      var b := AskCur(t, e.server, e.cursor);
      DroppedQueryBooks(d, Discard(b.server, b.cursor));
      ListedQueryBooks(d, b.server, Listed(draws[FirstFresh(d.table, draws)], b.cursor));
    }
  }

  lemma FetchQueryBooks(t: Tape, d: Driver, handle: int)
    requires Idle(d)
    ensures Idle(FetchQuery(t, d, handle).driver) && Idle(GetCurRec(t, d, handle).driver)
  {
    hide HeldAll, TableOk, SlotsOk, Find;
    var k := Find(d.table, handle);
    if k < |d.table| {
      ListedBooks(d, k);
      assert d.table[k].cursor.stmt in Held(d.table[k].cursor);
    }
  }

  /** A statement that has gone shows when its cursor is thrown away. */
  lemma DiscardShows(s: Server, table: seq<Listed>, k: nat)
    requires Numbered(s) && LossShows(s, table) && k < |table| && CursorOk(table[k].cursor) && table[k].cursor.isOpen
    ensures LossShows(Discard(s, table[k].cursor), Without(table, k))
    ensures LossShows(Destroy(s, table[k].cursor), Without(table, k))
  {
    if s.gone != {} && !s.misused && table[k].cursor.stmt !in s.gone {
      var i :| 0 <= i < |table| && table[i].cursor.stmt in s.gone;
      assert Without(table, k)[if i < k then i else i - 1] == table[i];
    }
  }

  lemma TableOkWithout(table: seq<Listed>, k: nat)
    requires TableOk(table) && k < |table|
    ensures TableOk(Without(table, k))
  {
  }

  lemma CloseQueryBooks(d: Driver, handle: int)
    requires Idle(d)
    ensures Idle(CloseQuery(d, handle).driver)
  {
    hide Discard, Held, HeldAll, TableOk, SlotsOk, Find;
    var k := Find(d.table, handle);
    if k < |d.table| {
      ListedBooks(d, k);
      DiscardTidy(d.server, d.table[k].cursor);
      MoveBooks(Discard(d.server, d.table[k].cursor), NEW_CURSOR, d.scratch, HeldAll(Without(d.table, k)));
      TableOkWithout(d.table, k);
      DiscardShows(d.server, d.table, k);
    }
  }

  lemma {:induction false} DestroyAllTidy(s: Server, table: seq<Listed>, others: multiset<nat>)
    requires forall i :: 0 <= i < |table| ==> CursorOk(table[i].cursor)
    requires Books(s, NEW_CURSOR, others + HeldAll(table))
    ensures Books(DestroyAll(s, table), NEW_CURSOR, others)
    decreases table
  {
    hide Destroy;
    assert Held(NEW_CURSOR) == multiset{};
    if table == [] {
      assert others + HeldAll([]) == others;
    } else {
      var c, rest := table[0].cursor, table[1..];
      assert Books(s, c, others + HeldAll(rest));
      DiscardTidy(s, c);
      DestroyAllTidy(Destroy(s, c), rest, others);
    }
  }

  lemma {:induction false} DestroyAllShows(s: Server, table: seq<Listed>)
    requires Numbered(s) && LossShows(s, table)
    requires forall i :: 0 <= i < |table| ==> CursorOk(table[i].cursor) && table[i].cursor.isOpen
    ensures LossShows(DestroyAll(s, table), [])
    decreases table
  {
    hide Destroy, Numbered;
    if table != [] {
      DiscardShows(s, table, 0);
      assert Without(table, 0) == table[1..];
      DestroyAllShows(Destroy(s, table[0].cursor), table[1..]);
    }
  }

  lemma FreeTableBooks(d: Driver)
    requires BooksOk(d)
    ensures BooksOk(FreeTable(d)) && FreeTable(d).scratch == d.scratch && FreeTable(d).table == []
  {
    hide DestroyAll, Numbered;
    DestroyAllShows(d.server, d.table);
    assert Held(NEW_CURSOR) == multiset{} && HeldAll([]) == multiset{};
    DestroyAllTidy(d.server, d.table, Held(d.scratch));
  }

  // ---------------------------------------------------------------- connection

  lemma {:induction false} HeldAllHas(table: seq<Listed>, id: nat)
    requires forall i :: 0 <= i < |table| ==> CursorOk(table[i].cursor) && table[i].cursor.isOpen
    ensures id in HeldAll(table) <==> exists i :: 0 <= i < |table| && table[i].cursor.stmt == id
  {
    if table != [] {
      HeldAllHas(table[1..], id);
      assert forall i :: 0 < i < |table| ==> table[i] == table[1..][i - 1];
    }
  }

  /** Statements of the connection's environment that are still live: they go when it is freed. */
  function Orphans(s: Server): set<nat> {
    set id | id in s.children && id in s.live
  }

  lemma FreeEnvironmentBooks(d: Driver)
    requires Idle(d)
    ensures Idle(d.(server := FreeEnvironment(d.server)))
  {
    hide HeldAll, TableOk, SlotsOk;
    var s := d.server;
    var s' := FreeEnvironment(s);
    if s.gone == {} {
      if Orphans(s) == {} {
        assert s'.live == s.live by {
          assert forall id :: id in s.live ==> id !in s.children by {
            forall id | id in s.live
              ensures id !in s.children
            {
              assert id in s.children ==> id in Orphans(s);
            }
          }
        }
      } else {
        var id :| id in Orphans(s);
        assert id in HeldAll(d.table) by {
          assert s.live == multiset{} + HeldAll(d.table);
        }
        ListedHolds(d, id);
        assert id in s'.gone;
      }
    }
  }

  lemma ListedHolds(d: Driver, id: nat)
    requires BooksOk(d) && id in HeldAll(d.table)
    ensures exists i :: 0 <= i < |d.table| && d.table[i].cursor.stmt == id
  {
    HeldAllHas(d.table, id);
  }

  lemma EndSessionBooks(d: Driver)
    requires Idle(d)
    ensures Idle(d.(server := EndSession(d.server))) && Idle(d.(server := Answer(EndSession(d.server))))
    ensures Idle(d.(server := Answer(EndSession(d.server)).(children := {})))
  {
    hide Held, HeldAll, TableOk, SlotsOk, Settle;
  }

  /** Whatever holds of a driver between calls does not depend on the connection and transaction flags. */
  lemma FlagsBooks(d: Driver, connected: bool, trans: bool)
    requires BooksOk(d)
    ensures BooksOk(d.(connected := connected, trans := trans)) && BooksOk(d.(connected := connected))
  {
    hide Held, HeldAll, TableOk, SlotsOk, Numbered;
  }

  lemma AttemptBooks(t: Tape, d: Driver, hasEnv: bool)
    requires Idle(d)
    ensures Idle(Attempt(t, d, hasEnv).driver)
  {
    hide BooksOk, EndSession, FreeEnvironment, Numbered, Answer;
    EndSessionBooks(d);
    var d' := d.(server := Answer(EndSession(d.server)));
    FreeEnvironmentBooks(d');
    FlagsBooks(d'.(server := FreeEnvironment(d'.server)), false, d.trans);
    FlagsBooks(d'.(server := d'.server.(children := {})), false, d.trans);
    FlagsBooks(d'.(server := FreeEnvironment(d'.server)), true, false);
    FlagsBooks(d'.(server := d'.server.(children := {})), true, false);
  }

  lemma ConnectNativeBooks(t: Tape, d: Driver)
    requires Idle(d)
    ensures Idle(ConnectNative(t, d).driver)
  {
    hide BooksOk, Attempt;
    AttemptBooks(t, d, false);
  }

  lemma DisconnectBooks(d: Driver)
    requires Idle(d)
    ensures Idle(Disconnect(d).driver)
  {
    hide BooksOk, EndSession, FreeEnvironment, CloseScratch, Numbered;
    var c := CloseScratch(d);
    CloseScratchBooks(d);
    EndSessionBooks(c);
    FreeEnvironmentBooks(c.(server := EndSession(c.server)));
    FlagsBooks(c.(server := FreeEnvironment(EndSession(c.server))), false, c.trans);
  }

  lemma {:induction false} RetryBooks(t: Tape, d: Driver, attempt: nat, maxRetryTimes: int)
    requires Idle(d)
    ensures Idle(Retry(t, d, attempt, maxRetryTimes).driver)
    decreases maxRetryTimes - attempt
  {
    hide BooksOk, Attempt, FreeTable;
    if attempt < maxRetryTimes {
      var r := Attempt(t, d, d.connected);
      AttemptBooks(t, d, d.connected);
      if r.rc != 0 {
        FreeTableBooks(r.driver);
        RetryBooks(t, FreeTable(r.driver), attempt + 1, maxRetryTimes);
      }
    }
  }

  // ---------------------------------------------------------------- every call, every run

  lemma ParameterBooks(d: Driver, setter: Setter, n: nat, value: Pointer, text: Option<string>)
    requires Idle(d)
    ensures Idle(PhSet(d, setter, n, value).driver) && Idle(PhSetSql(d, text).driver)
  {
    hide Held, HeldAll, TableOk;
  }

  lemma ApplyIdle(t: Tape, d: Driver, call: Call)
    requires Idle(d) && Allowed(d, call)
    ensures Idle(Apply(t, d, call).driver)
  {
    hide BooksOk, ConnectNative, Disconnect, Retry, GetErr, BeginTrans, CommitTrans, RollbackTrans, ExecuteSql, GetRec,
      IsTable, CheckSql, PhSetSql, PhSet, PhFree, PhExecute, SetLongFld, Query, FetchQuery, GetCurRec, CloseQuery;
    match call
    case CallConnect(user, password, host) => ConnectNativeBooks(t, d);
    case CallDisconnect => DisconnectBooks(d);
    case CallCheckConStatus(n) =>
      GetErrBooks(t, d);
      RetryBooks(t, GetErr(t, d).driver, 0, n);
    case CallGetErr => GetErrBooks(t, d);
    case CallBeginTrans => TransactionBooks(d);
    case CallCommitTrans => TransactionBooks(d);
    case CallRollbackTrans => TransactionBooks(d);
    case CallExecuteSql(sql, wantCount, isCommit) => ExecuteSqlBooks(t, d, sql, wantCount, isCommit);
    case CallGetRec(sql) => GetRecBooks(t, d, sql);
    case CallIsTable(name) => IsTableBooks(t, d, name);
    case CallCheckSql(text, isSelect) => CheckSqlBooks(t, d, text, isSelect);
    case CallPhSetSql(text) => ParameterBooks(d, SetInt, 0, Null, text);
    case CallPhSet(setter, n, value) => ParameterBooks(d, setter, n, value, None);
    case CallPhFree => PhFreeBooks(d);
    case CallPhExecute(isCommit) => PhExecuteBooks(t, d, isCommit);
    case CallSetLongFld(sql, msg, longType, isCommit) => SetLongFldBooks(t, d, sql, msg, longType, isCommit);
    case CallQuery(sql, draws) => QueryBooks(t, d, sql, draws);
    case CallFetch(handle) => FetchQueryBooks(t, d, handle);
    case CallGetCurRec(handle) => FetchQueryBooks(t, d, handle);
    case CallCloseQuery(handle) => CloseQueryBooks(d, handle);
  }

  /** Between any two calls of any run the scratch cursor is closed and the books are right. */
  lemma {:induction false} RunIdle(t: Tape, d: Driver, calls: seq<Call>)
    requires Idle(d) && RunAllowed(t, d, calls)
    ensures Idle(Run(t, d, calls))
    decreases calls
  {
    hide Idle, Apply;
    if calls != [] {
      ApplyIdle(t, d, calls[0]);
      RunIdle(t, Apply(t, d, calls[0]).driver, calls[1..]);
    }
  }

  /** A driver before its first call: no slot is set; what types the slots have is unknown. */
  predicate Unused(d: Driver) {
    && d.server == FRESH_SERVER && !d.connected && d.scratch == NEW_CURSOR && d.table == []
    && |d.slots| == SLOTS && forall i :: 0 <= i < SLOTS ==> d.slots[i].data.Null?
  }

  lemma UnusedIsIdle(d: Driver)
    requires Unused(d)
    ensures Idle(d)
  {
    assert Held(NEW_CURSOR) == multiset{} && HeldAll([]) == multiset{};
  }

  /** The destructor leaves nothing live, and misuses a statement exactly when one has gone with its environment. */
  lemma DestroyBooks(d: Driver)
    requires BooksOk(d)
    ensures var s := DestroyDriver(d);
            s.live == multiset{} && (s.misused <==> d.server.gone != {})
  {
    hide Destroy, DestroyAll, Numbered, TableOk, SlotsOk;
    FreeTableBooks(d);
    var e := FreeTable(d);
    DiscardTidy(e.server, e.scratch);
    assert Held(NEW_CURSOR) == multiset{} && HeldAll([]) == multiset{};
    assert Books(e.server, e.scratch, multiset{});
  }

  // ---------------------------------------------------------------- the table, seen by callers

  lemma GetErrTable(t: Tape, d: Driver)
    ensures GetErr(t, d).driver.table == FailoverCleanup(t, d).table == d.table
    ensures GetErr(t, d).driver.slots == FailoverCleanup(t, d).slots == d.slots
  {
  }

  /** A query is all or nothing; the handle it adds is one that no open query has. */
  lemma QueryAllOrNothing(t: Tape, d: Driver, sql: string, draws: seq<int>)
    requires Idle(d) && draws != [] && !HasHandle(d.table, draws[|draws| - 1])
    ensures var r := Query(t, d, sql, draws);
            if r.rc == 0 then
              && |r.driver.table| == |d.table| + 1 && r.driver.table[..|d.table|] == d.table
              && (var last := r.driver.table[|d.table|];
                  && r.value == Some(last.handle) && !HasHandle(d.table, last.handle) && last.handle in draws
                  && last.cursor.isOpen)
            else r.rc == -1 && r.driver.table == d.table
  {
    hide OpenCur, PrepareCur, AskCur, Discard, Destroy, FailoverCleanup, Tidy, BooksOk, HasHandle, FirstFresh;
    BooksGiveNumbered(d);
    QueryTidy(t, d.server, d.connected, sql);
    var e := OpenCur(t, d.server, NEW_CURSOR, d.connected);
    if e.rc == 0 {
      var p := PrepareCur(t, e.server, e.cursor, sql);
      var x := AskCur(t, p.server, p.cursor);
      GetErrTable(t, d.(server := Discard(x.server, x.cursor)));
    }
  }

  lemma CloseQueryRemovesOne(d: Driver, handle: int)
    requires Idle(d)
    ensures var r := CloseQuery(d, handle);
            if HasHandle(d.table, handle) then
              exists k :: 0 <= k < |d.table| && d.table[k].handle == handle
                          && r.rc == 0 && r.driver.table == Without(d.table, k) && !HasHandle(r.driver.table, handle)
            else r.rc == NO_SUCH_QUERY && r.driver == d
  {
    hide Discard, Books;
    var k := Find(d.table, handle);
    if k < |d.table| {
      assert CloseQuery(d, handle).driver.table == Without(d.table, k);
    }
  }

  /** A query takes four answers, and succeeds exactly when all are 0. */
  lemma QueryCode(t: Tape, d: Driver, sql: string, draws: seq<int>)
    requires draws != [] && !HasHandle(d.table, draws[|draws| - 1])
    ensures var (r, k) := (Query(t, d, sql, draws), d.server.clock);
            && (r.rc == 0 <==> t(k).code == 0 && t(k + 1).code == 0 && t(k + 2).code == 0 && t(k + 3).code == 0)
            && (r.rc == 0 ==> r.value == Some(draws[FirstFresh(d.table, draws)]))
  {
    hide Discard, Destroy, FailoverCleanup, HasHandle, FirstFresh, Numbered, Silent;
  }

  /** `handle` is the first of the draws that is no handle in use. */
  predicate DrawnFirst(table: seq<Listed>, draws: seq<int>, handle: int) {
    exists i :: 0 <= i < |draws| && draws[i] == handle && !HasHandle(table, handle)
                && forall j :: 0 <= j < i ==> HasHandle(table, draws[j])
  }

  /**
   Unlike the MySQL driver's, a handle can come back once it is closed: the next query that succeeds
   gets it exactly when rand() returns it before any other number that is not in use.
   */
  lemma HandleComesBackIff(t: Tape, d: Driver, sql: string, draws: seq<int>, handle: int)
    requires Idle(d) && HasHandle(d.table, handle)
    requires draws != [] && !HasHandle(CloseQuery(d, handle).driver.table, draws[|draws| - 1])
    ensures var c := CloseQuery(d, handle).driver;
            var r := Query(t, c, sql, draws);
            !HasHandle(c.table, handle) && (r.rc == 0
                                            ==> (r.value == Some(handle) <==> DrawnFirst(c.table, draws, handle)))
  {
    hide Query, CloseQuery, HasHandle, BooksOk;
    CloseQueryRemovesOne(d, handle);
    var c := CloseQuery(d, handle).driver;
    QueryCode(t, c, sql, draws);
    var k := FirstFresh(c.table, draws);
    if DrawnFirst(c.table, draws, handle) {
      var i :| 0 <= i < |draws| && draws[i] == handle && forall j :: 0 <= j < i ==> HasHandle(c.table, draws[j]);
      assert !HasHandle(c.table, draws[i]) && !HasHandle(c.table, draws[k]);
      assert k == i;
    }
  }

  /** A library that grants everything. */
  function Granting(): Tape {
    _ => Reply(0, Field("", 0, 0, false))
  }

  /** And it does come back: any open query, closed and followed by one that draws its number. */
  lemma HandlesMayBeReused(d: Driver, sql: string, handle: int)
    requires Idle(d) && HasHandle(d.table, handle)
    ensures var c := CloseQuery(d, handle).driver;
            && !HasHandle(c.table, handle)
            && var r := Query(Granting(), c, sql, [handle]);
            r.rc == 0 && r.value == Some(handle) && HasHandle(r.driver.table, handle)
  {
    hide Query, CloseQuery, BooksOk;
    CloseQueryRemovesOne(d, handle);
    var c := CloseQuery(d, handle).driver;
    CloseQueryBooks(d, handle);
    QueryCode(Granting(), c, sql, [handle]);
    QueryAllOrNothing(Granting(), c, sql, [handle]);
    var r := Query(Granting(), c, sql, [handle]);
    assert r.driver.table[|c.table|].handle == handle;
  }
}
