/**
 The books of the MySQL driver: in every state of every run the live native resources are exactly
 those that its cursors hold, and destroying the driver returns all of them.
 */
module MysqlBooks {
  import opened NativeServer
  import opened MysqlCursorSpec
  import opened MysqlSpec

  function HeldAll(table: seq<Listed>): multiset<nat> {
    if table == [] then multiset{} else Held(table[0].cursor) + HeldAll(table[1..])
  }

  /** Listed cursors are open and well formed; handles increase along the table and with time. */
  predicate TableOk(table: seq<Listed>, index: int) {
    && 0 <= index
    && (forall i :: 0 <= i < |table| ==> CursorOk(table[i].cursor) && table[i].cursor.isOpen)
    && (forall i :: 0 <= i < |table| ==> 0 < table[i].handle <= index)
    && (forall i, j :: 0 <= i < j < |table| ==> table[i].handle < table[j].handle)
  }

  /**
   The books are right: live native resources are exactly those that the scratch cursor and the
   listed cursors hold, each handed out once, and none was ever used or returned while not live.
   */
  predicate BooksOk(d: Driver) {
    && Numbered(d.server)
    && Books(d.server, d.scratch, HeldAll(d.table))
    && TableOk(d.table, d.index)
    && |d.slots| == SLOTS
  }

  // ---------------------------------------------------------------- one member of the scratch cursor

  lemma OpenScratchBooks(t: Tape, d: Driver)
    requires BooksOk(d)
    ensures var r := OpenScratch(t, d);
            && BooksOk(r.driver)
            && (r.rc == 0 || r.rc == -1)
            && (r.rc == 0 <==> !d.scratch.isOpen && r.driver.scratch.isOpen)
            && (d.scratch.isOpen ==> r.driver == d)
  {
    OpenCurTidy(t, d.server, d.scratch, d.connected);
  }

  lemma CloseScratchBooks(d: Driver)
    requires BooksOk(d)
    ensures BooksOk(CloseScratch(d)) && !CloseScratch(d).scratch.isOpen
  {
    CloseCurTidy(d.server, d.scratch);
  }

  /** A call about the open scratch statement. */
  lemma AskBooks(d: Driver, o: Outcome)
    requires BooksOk(d) && d.scratch.isOpen
    requires o.server.live == d.server.live && Numbered(o.server)
    requires o.server.misused == (d.server.misused || d.scratch.stmt !in d.server.live)
    requires o.cursor == d.scratch.(parms := o.cursor.parms, rowCount := o.cursor.rowCount)
    ensures BooksOk(OnScratch(d, o).driver) && OnScratch(d, o).driver.scratch.isOpen
  {
    AskTidy(d.server, d.scratch, o.server, o.cursor);
  }

  lemma PrepareBooks(t: Tape, d: Driver, sql: string)
    requires BooksOk(d) && d.scratch.isOpen
    ensures var r := PrepareScratch(t, d, sql);
            BooksOk(r.driver) && r.driver.scratch.isOpen && (r.rc == 0 || r.rc == -1)
  {
    AskBooks(d, PrepareCur(t, d.server, d.scratch, sql));
  }

  lemma DefineBooks(t: Tape, d: Driver)
    requires BooksOk(d) && d.scratch.isOpen
    ensures var r := DefineScratch(t, d);
            BooksOk(r.driver) && r.driver.scratch.isOpen && (r.rc == 0 || r.rc == -1)
  {
    DefineTidy(t, d.server, d.scratch);
  }

  lemma SelectBooks(t: Tape, d: Driver)
    requires BooksOk(d) && d.scratch.isOpen
    ensures var r := SelectScratch(t, d);
            BooksOk(r.driver) && r.driver.scratch.isOpen && (r.rc == 0 || r.rc == -1)
  {
    AskBooks(d, ExecuteSelect(t, d.server, d.scratch));
  }

  lemma FetchBooks(t: Tape, d: Driver)
    requires BooksOk(d) && d.scratch.isOpen
    ensures BooksOk(FetchScratch(t, d).driver) && FetchScratch(t, d).driver.scratch.isOpen
  {
    AskBooks(d, Fetch(t, d.server, d.scratch));
  }

  lemma CountBooks(t: Tape, d: Driver)
    requires BooksOk(d) && d.scratch.isOpen
    ensures BooksOk(CountScratch(t, d).driver) && CountScratch(t, d).driver.scratch.isOpen
  {
    AskBooks(d, AffectRec(t, d.server, d.scratch));
  }

  lemma WriteBooks(t: Tape, d: Driver)
    requires BooksOk(d) && d.scratch.isOpen
    ensures var r := WriteScratch(t, d);
            BooksOk(r.driver) && r.driver.scratch.isOpen && (r.rc == 0 || r.rc == -1)
  {
    AskBooks(d, ExecuteNonSelect(t, d.server, d.scratch));
  }

  lemma AllocateParmsBooks(t: Tape, d: Driver)
    requires BooksOk(d) && d.scratch.isOpen
    ensures var r := AllocateParms(t, d);
            BooksOk(r.driver) && r.driver.scratch.isOpen && (r.rc == 0 || r.rc == -1)
  {
    AskBooks(d, AllocateParmBind(t, d.server, d.scratch));
  }

  lemma BindParmsBooks(t: Tape, d: Driver)
    requires BooksOk(d) && d.scratch.isOpen
    ensures BooksOk(BindParms(t, d).driver) && BindParms(t, d).driver.scratch.isOpen
  {
    AskBooks(d, BindParm(t, d.server, d.scratch));
  }

  lemma SendBooks(t: Tape, d: Driver, data: string)
    requires BooksOk(d) && d.scratch.isOpen
    ensures BooksOk(SendScratch(t, d, data).driver) && SendScratch(t, d, data).driver.scratch.isOpen
  {
    AskBooks(d, BindLargeParm(t, d.server, d.scratch, data));
  }

  /** Changing the bindings of parameters is no matter of the books. */
  lemma ParmsBooks(d: Driver, c: CursorState)
    requires BooksOk(d) && c == d.scratch.(parms := c.parms)
    ensures BooksOk(d.(scratch := c))
  {
    assert Held(c) == Held(d.scratch);
  }

  lemma TransactionBooks(d: Driver)
    requires BooksOk(d)
    ensures BooksOk(CommitTrans(d)) && BooksOk(RollbackTrans(d)) && BooksOk(BeginTrans(d))
  {
    hide Held, HeldAll, TableOk, CursorOk, Settle;
  }

  lemma PhFreeBooks(d: Driver)
    requires BooksOk(d)
    ensures BooksOk(PhFree(d))
  {
  }

  // ---------------------------------------------------------------- calls on the scratch cursor

  lemma InSetSqlBooks(t: Tape, d: Driver, sql: string)
    requires BooksOk(d)
    ensures var r := InSetSql(t, d, sql);
            BooksOk(r.driver) && (r.rc == 0 || r.rc == -1) && (r.rc == 0 <==> r.driver.scratch.isOpen)
  {
    hide BooksOk, OpenScratch, PrepareScratch, CloseScratch;
    CloseScratchBooks(d);
    var o := OpenScratch(t, CloseScratch(d));
    OpenScratchBooks(t, CloseScratch(d));
    if o.rc == 0 {
      PrepareBooks(t, o.driver, sql);
      CloseScratchBooks(PrepareScratch(t, o.driver, sql).driver);
    }
  }

  lemma InExecBooks(t: Tape, d: Driver, isCommit: bool)
    requires BooksOk(d) && d.scratch.isOpen
    ensures var r := InExec(t, d, isCommit);
            BooksOk(r.driver) && (r.rc == 0 || r.rc == -1) && !r.driver.scratch.isOpen
  {
    hide BooksOk, WriteScratch, CloseScratch, CommitTrans, RollbackTrans;
    WriteBooks(t, d);
    var e := WriteScratch(t, d);
    TransactionBooks(e.driver);
    CloseScratchBooks(if e.rc < 0 then RollbackTrans(e.driver) else if isCommit then CommitTrans(e.driver)
                      else e.driver);
  }

  lemma ExecuteSqlBooks(t: Tape, d: Driver, sql: string, wantCount: bool, isCommit: bool)
    requires BooksOk(d)
    ensures var r := ExecuteSql(t, d, sql, wantCount, isCommit);
            && BooksOk(r.driver) && (r.rc == 0 || r.rc == -1)
            && (d.scratch.isOpen ==> r == Fail(d)) && (!d.scratch.isOpen ==> !r.driver.scratch.isOpen)
  {
    hide BooksOk, OpenScratch, PrepareScratch, WriteScratch, CountScratch, CloseScratch, CommitTrans, RollbackTrans;
    var o := OpenScratch(t, d);
    OpenScratchBooks(t, d);
    if o.rc == 0 {
      var p := PrepareScratch(t, o.driver, sql);
      PrepareBooks(t, o.driver, sql);
      CloseScratchBooks(p.driver);
      if p.rc == 0 {
        WrittenBooks(t, p.driver, wantCount, isCommit);
      }
    }
  }

  /** Executing, counting, committing or rolling back, and closing. */
  lemma WrittenBooks(t: Tape, d: Driver, wantCount: bool, isCommit: bool)
    requires BooksOk(d) && d.scratch.isOpen
    ensures var e := WriteScratch(t, d);
            var a := if wantCount then CountScratch(t, e.driver) else e;
            var done := if isCommit then CommitTrans(a.driver) else a.driver;
            && BooksOk(CloseScratch(RollbackTrans(e.driver))) && !CloseScratch(RollbackTrans(e.driver)).scratch.isOpen
            && BooksOk(CloseScratch(done)) && !CloseScratch(done).scratch.isOpen
            && (e.rc == 0 || e.rc == -1)
  {
    hide BooksOk, WriteScratch, CountScratch, CloseScratch, CommitTrans, RollbackTrans;
    WriteBooks(t, d);
    var e := WriteScratch(t, d);
    TransactionBooks(e.driver);
    CloseScratchBooks(RollbackTrans(e.driver));
    CountBooks(t, e.driver);
    var a := if wantCount then CountScratch(t, e.driver) else e;
    TransactionBooks(a.driver);
    CloseScratchBooks(if isCommit then CommitTrans(a.driver) else a.driver);
  }

  lemma GetRecBooks(t: Tape, d: Driver, sql: string)
    requires BooksOk(d)
    ensures var r := GetRec(t, d, sql);
            && BooksOk(r.driver)
            && (d.scratch.isOpen ==> r == Fail(d)) && (!d.scratch.isOpen ==> !r.driver.scratch.isOpen)
  {
    hide BooksOk, OpenScratch, PrepareScratch, DefineScratch, SelectScratch, FetchScratch, CloseScratch;
    var o := OpenScratch(t, d);
    OpenScratchBooks(t, d);
    if o.rc == 0 {
      var p := PrepareScratch(t, o.driver, sql);
      PrepareBooks(t, o.driver, sql);
      CloseScratchBooks(p.driver);
      var b := DefineScratch(t, p.driver);
      DefineBooks(t, p.driver);
      CloseScratchBooks(b.driver);
      var e := SelectScratch(t, b.driver);
      SelectBooks(t, b.driver);
      CloseScratchBooks(e.driver);
      FetchBooks(t, e.driver);
      CloseScratchBooks(FetchScratch(t, e.driver).driver);
    }
  }

  lemma {:induction false} BindSlotsKeepsHandles(c: CursorState, slots: seq<Slot>, i: nat)
    requires i <= |slots|
    requires c.parms.Some? && i <= SetPrefix(slots) <= |c.parms.value|
    ensures var (c', _) := BindSlots(c, slots, i); c' == c.(parms := c'.parms)
    decreases |slots| - i
  {
    if i < |slots| && slots[i].data.To? && Supported(slots[i].ty) {
      BindSlotsKeepsHandles(BindPos(c, i, BindOf(slots[i])), slots, i + 1);
    }
  }

  lemma PhExecuteBooks(t: Tape, d: Driver, isCommit: bool)
    requires BooksOk(d) && RoomForSlots(t, d)
    ensures var r := PhExecute(t, d, isCommit);
            && BooksOk(r.driver) && (r.rc == 0 || r.rc == -1)
            && (!d.connected ==> r == Fail(d)) && (d.connected ==> !r.driver.scratch.isOpen)
  {
    hide BooksOk, InSetSql, AllocateParms, BindSlots, BindParms, InExec, CloseScratch;
    if d.connected {
      InSetSqlBooks(t, d, d.sql);
      var r := InSetSql(t, d, d.sql);
      if r.rc == 0 {
        var a := AllocateParms(t, r.driver);
        AllocateParmsBooks(t, r.driver);
        CloseScratchBooks(a.driver);
        PhFreeBooks(CloseScratch(a.driver));
        if a.rc == 0 {
          BindSlotsKeepsHandles(a.driver.scratch, a.driver.slots, 0);
          var filled := a.driver.(scratch := BindSlots(a.driver.scratch, a.driver.slots, 0).0);
          ParmsBooks(a.driver, filled.scratch);
          BoundBooks(t, filled, isCommit);
        }
      }
    }
  }

  /** The end of phExecute, once the slots are in the bindings. */
  lemma BoundBooks(t: Tape, d: Driver, isCommit: bool)
    requires BooksOk(d) && d.scratch.isOpen
    ensures var b := BindParms(t, d);
            var e := InExec(t, b.driver, isCommit);
            && BooksOk(PhFree(CloseScratch(d))) && !PhFree(CloseScratch(d)).scratch.isOpen
            && BooksOk(PhFree(CloseScratch(b.driver))) && !PhFree(CloseScratch(b.driver)).scratch.isOpen
            && BooksOk(e.driver) && BooksOk(PhFree(e.driver)) && !PhFree(e.driver).scratch.isOpen
            && (e.rc == 0 || e.rc == -1) && !e.driver.scratch.isOpen
  {
    hide BooksOk, BindParms, InExec, CloseScratch;
    CloseScratchBooks(d);
    PhFreeBooks(CloseScratch(d));
    BindParmsBooks(t, d);
    var b := BindParms(t, d);
    CloseScratchBooks(b.driver);
    PhFreeBooks(CloseScratch(b.driver));
    InExecBooks(t, b.driver, isCommit);
    PhFreeBooks(InExec(t, b.driver, isCommit).driver);
  }

  lemma PhSetSqlBooks(d: Driver, sql: Option<string>)
    requires BooksOk(d)
    ensures var r := PhSetSql(d, sql);
            BooksOk(r.driver) && (r.rc == 0 || r.rc == -1) && (r.rc == -1 ==> r.driver == d)
  {
  }

  lemma BeginLongBooks(t: Tape, d: Driver, sql: Option<string>, bind: Option<Bind>)
    requires BooksOk(d)
    ensures var r := BeginLong(t, d, sql, bind);
            && BooksOk(r.driver) && (r.rc == 0 || r.rc == -1)
            && (r.rc == 0 ==> r.driver.scratch.isOpen)
            && (r.rc != 0 && r.driver.scratch.isOpen ==> r == Fail(d))
            && (r.rc != 0 && PhSetSql(d, sql).rc == 0 ==> !r.driver.scratch.isOpen)
  {
    hide BooksOk, PhSetSql, InSetSql, AllocateParms, BindPos, BindParms, CloseScratch;
    var p := PhSetSql(d, sql);
    PhSetSqlBooks(d, sql);
    if p.rc == 0 {
      InSetSqlBooks(t, p.driver, p.driver.sql);
      var r := InSetSql(t, p.driver, p.driver.sql);
      if r.rc == 0 {
        var a := AllocateParms(t, r.driver);
        AllocateParmsBooks(t, r.driver);
        CloseScratchBooks(a.driver);
        if a.rc == 0 && bind.Some? {
          var c := BindPos(a.driver.scratch, 0, bind.value);
          BindPosParms(a.driver.scratch, 0, bind.value);
          ParmsBooks(a.driver, c);
          var filled := a.driver.(scratch := c);
          BindParmsBooks(t, filled);
          CloseScratchBooks(BindParms(t, filled).driver);
        }
      }
    }
  }

  lemma BindPosParms(c: CursorState, position: nat, bind: Bind)
    requires c.parms.Some? ==> position < |c.parms.value|
    ensures BindPos(c, position, bind) == c.(parms := BindPos(c, position, bind).parms)
  {
  }

  lemma TransferBooks(t: Tape, d: Driver, data: string)
    requires BooksOk(d) && d.scratch.isOpen
    ensures var r := TransferBinData(t, d, data);
            BooksOk(r.driver) && (r.rc == 0 || r.rc == -1) && (r.rc == 0 <==> r.driver.scratch.isOpen)
  {
    hide BooksOk, SendScratch, CloseScratch;
    SendBooks(t, d, data);
    CloseScratchBooks(SendScratch(t, d, data).driver);
  }

  lemma SetLongFldBooks(t: Tape, d: Driver, sql: Option<string>, msg: Pointer, length: nat, longType: int,
                        isCommit: bool)
    requires BooksOk(d)
    requires msg.To? && longType == SQL_BINARY ==> length <= |msg.text|
    ensures var r := SetLongFld(t, d, sql, msg, length, longType, isCommit);
            && BooksOk(r.driver) && (r.rc == 0 || r.rc == -1)
            && (r.driver.scratch.isOpen ==> r == Fail(d))
            && (msg.To? && PhSetSql(d, sql).rc == 0 ==> !r.driver.scratch.isOpen)
  {
    hide BooksOk, BeginLong, TransferBinData, InExec;
    if msg.To? {
      var data := LongData(msg, length, longType);
      var bind := LongBind(msg, length, longType);
      BeginLongBooks(t, d, sql, bind);
      var r := BeginLong(t, d, sql, bind);
      if r.rc == 0 {
        TransferBooks(t, r.driver, data);
        var s := TransferBinData(t, r.driver, data);
        if s.rc == 0 {
          InExecBooks(t, s.driver, isCommit);
        }
      }
    }
  }

  // ---------------------------------------------------------------- the table

  lemma {:induction false} HeldAllAppend(table: seq<Listed>, e: Listed)
    ensures HeldAll(table + [e]) == HeldAll(table) + Held(e.cursor)
  {
    hide Held;
    if table == [] {
      assert HeldAll([e]) == Held(e.cursor);
    } else {
      HeldAllAppend(table[1..], e);
      assert (table + [e])[1..] == table[1..] + [e];
    }
  }

  function Without(table: seq<Listed>, k: nat): seq<Listed>
    requires k < |table|
  {
    table[..k] + table[k + 1..]
  }

  lemma {:induction false} HeldAllSplit(table: seq<Listed>, k: nat, c: CursorState)
    requires k < |table|
    ensures HeldAll(table[k := table[k].(cursor := c)]) == Held(c) + HeldAll(Without(table, k))
  {
    hide Held;
    var table' := table[k := table[k].(cursor := c)];
    if k == 0 {
      assert table'[1..] == Without(table, 0);
    } else {
      HeldAllSplit(table[1..], k - 1, c);
      assert table'[1..] == table[1..][k - 1 := table[k].(cursor := c)];
      assert Without(table, k)[1..] == Without(table[1..], k - 1);
    }
  }

  /** The books as the cursor at position `k` sees them. */
  lemma ListedBooks(d: Driver, k: nat)
    requires BooksOk(d) && k < |d.table|
    ensures Books(d.server, d.table[k].cursor, Held(d.scratch) + HeldAll(Without(d.table, k)))
  {
    hide Held;
    HeldAllSplit(d.table, k, d.table[k].cursor);
    assert d.table[k := d.table[k].(cursor := d.table[k].cursor)] == d.table;
  }

  lemma UpdateListedBooks(d: Driver, k: nat, o: Outcome)
    requires BooksOk(d) && k < |d.table|
    requires Numbered(o.server) && o.cursor.isOpen
    requires Tidy(d.server, d.table[k].cursor, o.server, o.cursor)
    ensures BooksOk(WithListed(d, k, o))
  {
    hide Held, CursorOk;
    ListedBooks(d, k);
    HeldAllSplit(d.table, k, o.cursor);
    MoveBooks(o.server, o.cursor, d.scratch, HeldAll(Without(d.table, k)));
  }

  /** The books as one cursor sees them, and as another sees them. */
  lemma MoveBooks(s: Server, c: CursorState, c': CursorState, others: multiset<nat>)
    requires Books(s, c, Held(c') + others) && CursorOk(c')
    ensures Books(s, c', Held(c) + others)
    ensures c == NEW_CURSOR ==> Books(s, c', others)
  {
    assert Held(c) + (Held(c') + others) == Held(c') + (Held(c) + others);
    assert Held(NEW_CURSOR) == multiset{};
    assert multiset{} + others == others;
  }

  lemma {:induction false} DiscardTidy(s: Server, c: CursorState)
    requires CursorOk(c)
    ensures Tidy(s, c, Discard(s, c), NEW_CURSOR)
    ensures Tidy(s, c, Destroy(s, c), NEW_CURSOR)
  {
    hide CloseCur, Destroy;
    assert Held(NEW_CURSOR) == multiset{};
    var o := CloseCur(s, c);
    CloseCurTidy(s, c);
    DestroyReleasesAll(o.server, o.cursor);
    DestroyReleasesAll(s, c);
    KeepsIsTidy(o.server, o.cursor, Discard(s, c), NEW_CURSOR);
    KeepsIsTidy(s, c, Destroy(s, c), NEW_CURSOR);
  }

  lemma OpenQueryTidy(t: Tape, s: Server, connected: bool, sql: string)
    ensures var o := OpenQuery(t, s, connected, sql);
            && Tidy(s, NEW_CURSOR, o.server, o.cursor)
            && (o.rc == 0 || o.rc == -1)
            && (o.rc == 0 ==> CursorOk(o.cursor) && o.cursor.isOpen && DefineOk(o.cursor))
            && (o.rc != 0 ==> o.cursor == NEW_CURSOR)
  {
    hide OpenCur, PrepareCur, Define, ExecuteSelect, Discard, Destroy, Books, DefineOk;
    var o := OpenCur(t, s, NEW_CURSOR, connected);
    OpenCurTidy(t, s, NEW_CURSOR, connected);
    DiscardTidy(o.server, o.cursor);
    if o.rc == 0 {
      var p := PrepareCur(t, o.server, o.cursor, sql);
      PrepareTidy(t, o.server, o.cursor, sql);
      DiscardTidy(p.server, p.cursor);
      var b := Define(t, p.server, p.cursor);
      DefineTidy(t, p.server, p.cursor);
      DiscardTidy(b.server, b.cursor);
      var e := ExecuteSelect(t, b.server, b.cursor);
      SelectTidy(t, b.server, b.cursor);
      DiscardTidy(e.server, e.cursor);
    }
  }

  lemma PrepareTidy(t: Tape, s: Server, c: CursorState, sql: string)
    requires CursorOk(c) && c.isOpen
    ensures var o := PrepareCur(t, s, c, sql);
            Tidy(s, c, o.server, o.cursor) && o.cursor == c && (o.rc == 0 || o.rc == -1)
  {
    var o := PrepareCur(t, s, c, sql);
    AskTidy(s, c, o.server, o.cursor);
  }

  lemma SelectTidy(t: Tape, s: Server, c: CursorState)
    requires CursorOk(c) && c.isOpen
    ensures var o := ExecuteSelect(t, s, c);
            Tidy(s, c, o.server, o.cursor) && o.cursor == c && (o.rc == 0 || o.rc == -1)
  {
    var o := ExecuteSelect(t, s, c);
    AskTidy(s, c, o.server, o.cursor);
  }

  lemma QueryBooks(t: Tape, d: Driver, sql: Option<string>)
    requires BooksOk(d)
    ensures BooksOk(Query(t, d, sql).driver)
  {
    hide OpenQuery, Books, TableOk, HeldAll, Held, CursorOk, Numbered, Silent, DefineOk;
    if sql.Some? {
      var o := OpenQuery(t, d.server, d.connected, sql.value);
      OpenQueryTidy(t, d.server, d.connected, sql.value);
      NewCursorBooks(d);
      MoveBooks(o.server, o.cursor, d.scratch, HeldAll(d.table));
      var e := Listed(d.index + 1, o.cursor);
      HeldAllAppend(d.table, e);
      assert Held(o.cursor) + HeldAll(d.table) == HeldAll(d.table + [e]);
      TableOkAppend(d.table, d.index, o);
    }
  }

  /** The books as a cursor sees them that holds nothing yet. */
  lemma NewCursorBooks(d: Driver)
    requires BooksOk(d)
    ensures Books(d.server, NEW_CURSOR, Held(d.scratch) + HeldAll(d.table)) && CursorOk(d.scratch)
  {
    hide HeldAll;
    assert Held(NEW_CURSOR) == multiset{};
    assert multiset{} + (Held(d.scratch) + HeldAll(d.table)) == Held(d.scratch) + HeldAll(d.table);
  }

  lemma TableOkAppend(table: seq<Listed>, index: int, o: Outcome)
    requires TableOk(table, index)
    ensures TableOk(table, index + 1)
    ensures CursorOk(o.cursor) && o.cursor.isOpen ==> TableOk(table + [Listed(index + 1, o.cursor)], index + 1)
  {
  }

  lemma FetchQueryBooks(t: Tape, d: Driver, handle: int)
    requires BooksOk(d)
    ensures BooksOk(FetchQuery(t, d, handle).driver) && BooksOk(GetCurRec(t, d, handle).driver)
  {
    hide Held, HeldAll, Numbered, Silent;
    var k := Find(d.table, handle);
    if k < |d.table| {
      var c := d.table[k].cursor;
      var f := Fetch(t, d.server, c);
      AskTidy(d.server, c, f.server, f.cursor);
      UpdateListedBooks(d, k, f);
      var a := AffectRec(t, d.server, c);
      AskTidy(d.server, c, a.server, a.cursor);
      UpdateListedBooks(d, k, a);
    }
  }

  lemma CloseQueryBooks(d: Driver, handle: int)
    requires BooksOk(d)
    ensures BooksOk(CloseQuery(d, handle).driver)
  {
    hide Discard, Books, HeldAll, TableOk, Held, CursorOk, Numbered, Silent, Find;
    var k := Find(d.table, handle);
    if k < |d.table| {
      NewCursorBooks(d);
      ListedBooks(d, k);
      ListedOk(d, k);
      DiscardTidy(d.server, d.table[k].cursor);
      MoveBooks(Discard(d.server, d.table[k].cursor), NEW_CURSOR, d.scratch, HeldAll(Without(d.table, k)));
    }
  }

  lemma ListedOk(d: Driver, k: nat)
    requires TableOk(d.table, d.index) && k < |d.table|
    ensures CursorOk(d.table[k].cursor) && d.table[k].cursor.isOpen
    ensures TableOk(Without(d.table, k), d.index)
  {
  }

  lemma {:induction false} DestroyAllTidy(s: Server, table: seq<Listed>, others: multiset<nat>)
    requires forall i :: 0 <= i < |table| ==> CursorOk(table[i].cursor)
    requires Books(s, NEW_CURSOR, others + HeldAll(table))
    ensures Books(DestroyAll(s, table), NEW_CURSOR, others)
    decreases table
  {
    hide Destroy;
    assert Held(NEW_CURSOR) == multiset{};
    if table == [] {
      assert others + HeldAll([]) == others;
    } else {
      var c, rest := table[0].cursor, table[1..];
      assert Books(s, c, others + HeldAll(rest));
      DiscardTidy(s, c);
      DestroyAllTidy(Destroy(s, c), rest, others);
    }
  }

  lemma FreeTableBooks(d: Driver)
    requires BooksOk(d)
    ensures BooksOk(FreeTable(d))
  {
    assert Held(NEW_CURSOR) == multiset{} && HeldAll([]) == multiset{};
    DestroyAllTidy(d.server, d.table, Held(d.scratch));
  }

  // ---------------------------------------------------------------- connection

  lemma ConnectNativeBooks(t: Tape, d: Driver)
    requires BooksOk(d)
    ensures BooksOk(ConnectNative(t, d).driver)
  {
    hide Held, HeldAll, TableOk, CursorOk, Settle;
  }

  lemma DisconnectBooks(d: Driver)
    requires BooksOk(d)
    ensures BooksOk(Disconnect(d).driver) && !Disconnect(d).driver.scratch.isOpen
  {
    CloseScratchBooks(d);
  }

  lemma {:induction false} RetryBooks(t: Tape, d: Driver, attempt: nat, maxRetryTimes: int)
    requires BooksOk(d)
    ensures var r := Retry(t, d, attempt, maxRetryTimes); BooksOk(r.driver) && r.driver.scratch == d.scratch
    decreases maxRetryTimes - attempt
  {
    hide BooksOk, ConnectNative, FreeTable;
    if attempt < maxRetryTimes {
      NotConnectedBooks(d);
      var r := ConnectNative(t, d.(connected := false));
      ConnectNativeBooks(t, d.(connected := false));
      ConnectKeepsScratch(t, d.(connected := false));
      if r.rc != 0 {
        FreeTableBooks(r.driver);
        FreeTableKeepsScratch(r.driver);
        RetryBooks(t, FreeTable(r.driver), attempt + 1, maxRetryTimes);
      }
    }
  }

  lemma NotConnectedBooks(d: Driver)
    requires BooksOk(d)
    ensures BooksOk(d.(connected := false))
  {
  }

  lemma ConnectKeepsScratch(t: Tape, d: Driver)
    ensures ConnectNative(t, d).driver.scratch == d.scratch
  {
  }

  lemma FreeTableKeepsScratch(d: Driver)
    ensures FreeTable(d).scratch == d.scratch
  {
  }

  lemma CheckConStatusBooks(t: Tape, d: Driver, maxRetryTimes: int)
    requires BooksOk(d)
    ensures var r := CheckConStatus(t, d, maxRetryTimes); BooksOk(r.driver) && r.driver.scratch == d.scratch
  {
    var d' := d.(server := AskConnection(t, d.server).0);
    assert BooksOk(d');
    RetryBooks(t, d', 0, maxRetryTimes);
  }

  // ---------------------------------------------------------------- calls and runs

  lemma ParameterBooks(d: Driver, n: nat, ty: int, value: Pointer, len: int)
    requires BooksOk(d) && n != SLOTS
    ensures BooksOk(PhSetParm(d, n, ty, value, len).driver)
  {
  }

  lemma ForwardBooks(t: Tape, d: Driver, text: Option<string>)
    requires BooksOk(d)
    ensures BooksOk(Forward(t, d, text).driver)
  {
  }

  /** Every call keeps the books. */
  lemma ApplyBooks(t: Tape, d: Driver, call: Call)
    requires BooksOk(d) && Allowed(t, d, call)
    ensures BooksOk(Apply(t, d, call).driver)
  {
    hide BooksOk, Disconnect, CheckConStatus, ConnectNative, BeginTrans, CommitTrans, RollbackTrans, ExecuteSql, GetRec,
      InSetSql, PhSetSql, PhSetParm, PhFree, PhExecute, SetLongFld, BeginLong, TransferBinData, InExec,
      Query, FetchQuery, GetCurRec, CloseQuery, Forward, CloseScratch;
    match call
    case CallConnect(user, password, host) => ConnectNativeBooks(t, d);
    case CallDisconnect => DisconnectBooks(d);
    case CallCheckConStatus(maxRetryTimes) => CheckConStatusBooks(t, d, maxRetryTimes);
    case CallBeginTrans => TransactionBooks(d);
    case CallCommitTrans => TransactionBooks(d);
    case CallRollbackTrans => TransactionBooks(d);
    case CallExecuteSql(sql, wantCount, isCommit) => ExecuteSqlBooks(t, d, sql, wantCount, isCommit);
    case CallGetRec(sql) => GetRecBooks(t, d, sql);
    case CallIsTable(name) => GetRecBooks(t, d, ShowTables(name));
    case CallCheckSql(sql) => InSetSqlBooks(t, d, sql); CloseScratchBooks(InSetSql(t, d, sql).driver);
    case CallPhSetSql(text) => PhSetSqlBooks(d, text);
    case CallPhSetParm(n, ty, value, len) => ParameterBooks(d, n, ty, value, len);
    case CallPhFree => PhFreeBooks(d);
    case CallPhExecute(isCommit) => PhExecuteBooks(t, d, isCommit);
    case CallSetLongFld(text, msg, length, longType, isCommit) =>
      SetLongFldBooks(t, d, text, msg, length, longType, isCommit);
    case CallBeginLoad(text, colType) => BeginLongBooks(t, d, text, LoadBind(colType));
    case CallTransfer(data) => TransferBooks(t, d, data);
    case CallEndLoad(isCommit) => InExecBooks(t, d, isCommit);
    case CallQuery(text) => QueryBooks(t, d, text);
    case CallFetch(handle) => FetchQueryBooks(t, d, handle);
    case CallGetCurRec(handle) => FetchQueryBooks(t, d, handle);
    case CallCloseQuery(handle) => CloseQueryBooks(d, handle);
    case CallForward(text) => ForwardBooks(t, d, text);
  }

  /** In every state of every run the live resources are exactly those the cursors hold. */
  lemma {:induction false} RunBooks(t: Tape, d: Driver, calls: seq<Call>)
    requires BooksOk(d) && RunAllowed(t, d, calls)
    ensures BooksOk(Run(t, d, calls))
    decreases calls
  {
    hide BooksOk, Apply;
    if calls != [] {
      ApplyBooks(t, d, calls[0]);
      RunBooks(t, Apply(t, d, calls[0]).driver, calls[1..]);
    }
  }

  /** Destroying the driver after any run leaves no live statement, metadata result or buffer. */
  lemma DestroyAfterAnyRun(t: Tape, trans: bool, calls: seq<Call>)
    requires RunAllowed(t, NewDriver(FRESH_SERVER, trans), calls)
    ensures var s := DestroyDriver(Run(t, NewDriver(FRESH_SERVER, trans), calls));
            s.live == multiset{} && !s.misused
  {
    hide Run, BooksOk;
    var d0 := NewDriver(FRESH_SERVER, trans);
    NewDriverBooks(trans);
    RunBooks(t, d0, calls);
    DestroyBooks(Run(t, d0, calls));
  }

  lemma NewDriverBooks(trans: bool)
    ensures BooksOk(NewDriver(FRESH_SERVER, trans))
  {
    assert Held(NEW_CURSOR) == multiset{} && HeldAll([]) == multiset{};
  }

  lemma DestroyBooks(d: Driver)
    requires BooksOk(d)
    ensures DestroyDriver(d).live == multiset{} && !DestroyDriver(d).misused
  {
    hide Destroy, DestroyAll, Numbered, TableOk;
    FreeTableBooks(d);
    var e := FreeTable(d);
    DiscardTidy(e.server, e.scratch);
    assert Held(NEW_CURSOR) == multiset{} && HeldAll([]) == multiset{};
    assert Books(e.server, e.scratch, multiset{});
  }

  lemma Disjoint(a: multiset<nat>, b: multiset<nat>, rest: multiset<nat>, s: Server)
    requires Numbered(s) && s.live == a + b + rest
    ensures a !! b
  {
    forall id
      ensures id !in a || id !in b
    {
      assert s.live[id] == a[id] + b[id] + rest[id];
    }
  }

  /** No two listed queries share a native resource, and none shares one with the scratch cursor. */
  lemma CursorsAreDisjoint(d: Driver, i: nat, j: nat)
    requires BooksOk(d) && i < j < |d.table|
    ensures Held(d.table[i].cursor) !! Held(d.table[j].cursor)
    ensures Held(d.table[i].cursor) !! Held(d.scratch)
  {
    hide Held, CursorOk;
    var ci, cj := d.table[i].cursor, d.table[j].cursor;
    var rest := Without(d.table, j);
    ListedBooks(d, j);
    assert rest[i] == d.table[i];
    HeldAllSplit(rest, i, ci);
    assert rest[i := rest[i].(cursor := ci)] == rest;
    Disjoint(Held(ci), Held(cj), Held(d.scratch) + HeldAll(Without(rest, i)), d.server);
    Disjoint(Held(ci), Held(d.scratch), Held(cj) + HeldAll(Without(rest, i)), d.server);
  }
}
