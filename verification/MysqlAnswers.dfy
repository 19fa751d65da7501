/**
 What the calls of the MySQL driver return, told from what the library answers, answer by answer; and
 what statement the library was given.  The codes are the numbers that callers see.
 */
module MysqlAnswers {
  import opened NativeServer
  import opened Basics
  import opened MysqlCursorSpec
  import opened MysqlSpec
  import opened MysqlJournal
  import opened MysqlRuns

  // ---------------------------------------------------------------- selects

  /** Describing a result: metadata, a positive number of columns, that many fields and buffers, and the binding. */
  predicate Describes(t: Tape, k: nat) {
    t(k).code == 0 && t(k + 1).code > 0 && t(k + 2 + 2 * t(k + 1).code).code == 0
  }

  /** Created, prepared, described, executed, and stored on the client's side. */
  predicate Selects(t: Tape, k: nat) {
    && t(k).code == 0 && t(k + 1).code == 0 && Describes(t, k + 2)
    && t(k + 5 + 2 * t(k + 3).code).code == 0 && t(k + 6 + 2 * t(k + 3).code).code == 0
  }

  /** The column that the library describes with a field, in a buffer of that number. */
  predicate IsColumn(column: Column, field: Field, buf: nat) {
    column.name == field.name && column.ty == field.ty && column.length == field.length && column.buf == buf
  }

  /** The binding of that column: its type and buffer, with the room that a time needs or the field says. */
  predicate IsBound(bind: ResultBind, field: Field, buf: nat, i: nat) {
    && bind.bufferType == field.ty && bind.buffer == buf && bind.unsigned == field.unsigned
    && bind.bufferLength == (if field.ty == 12 then 40 else field.length)
    && bind.isNull == bind.length == bind.error == Some(i)
  }

  /** Each column is as the library describes it, and bound to a buffer of its own. */
  predicate IsDescribed(t: Tape, k: nat, c: CursorState) {
    && c.columns.Some? && c.binds.Some? && |c.columns.value| == |c.binds.value| == c.itemNum == t(k + 1).code
    && forall i :: 0 <= i < c.itemNum ==>
         var (field, buf) := (t(k + 2 + i).field, k + 2 + c.itemNum + 1 + i);
         IsColumn(c.columns.value[i], field, buf) && IsBound(c.binds.value[i], field, buf, i)
  }

  lemma CountAnswer(t: Tape, s: Server, c: CursorState)
    ensures var (o, k) := (CountColumns(t, s, c), s.clock);
            && (o.rc == 0 <==> t(k).code == 0 && t(k + 1).code > 0)
            && o.server.stmts == s.stmts && o.cursor.stmt == c.stmt && o.cursor.isOpen == c.isOpen
            && o.cursor.columns == c.columns && o.cursor.binds == c.binds && o.cursor.rowCount == c.rowCount
            && (o.rc == 0 ==> o.server.clock == k + 2 && o.cursor.itemNum == t(k + 1).code)
  {
    hide ReleaseIf, Numbered, Silent;
    ReleasedStmts(s, c.meta);
  }

  lemma ReleasedStmts(s: Server, id: nat)
    ensures ReleaseIf(s, id).stmts == s.stmts && ReleaseIf(s, id).clock == s.clock
  {
  }

  lemma DefineAnswer(t: Tape, s: Server, c: CursorState)
    ensures var (o, k) := (Define(t, s, c), s.clock);
            && o.rc == (if Describes(t, k) then 0 else -1) && o.cursor.rowCount == c.rowCount
            && o.server.stmts == s.stmts && o.cursor.stmt == c.stmt && o.cursor.isOpen == c.isOpen
            && (o.rc == 0 ==> o.server.clock == k + 3 + 2 * t(k + 1).code && IsDescribed(t, k, o.cursor))
  {
    hide CountColumns, ReleaseDefine, Numbered, Silent, BufferedAll, BoundAll, AcquireMany;
    var r := ReleaseDefine(s, c);
    ReleasedKeeps(s, c);
    CountAnswer(t, r.server, r.cursor);
  }

  lemma ReleasedKeeps(s: Server, c: CursorState)
    ensures var r := ReleaseDefine(s, c);
            && r.server.clock == s.clock && r.server.stmts == s.stmts
            && r.cursor.stmt == c.stmt && r.cursor.isOpen == c.isOpen && r.cursor.rowCount == c.rowCount
  {
    if c.columns.Some? {
      ReleaseAllStmts(s, Buffers(c.columns.value));
    }
  }

  lemma {:induction false} ReleaseAllStmts(s: Server, ids: seq<nat>)
    ensures ReleaseAll(s, ids).stmts == s.stmts
  {
    if ids != [] {
      ReleaseAllStmts(s, ids[..|ids| - 1]);
    }
  }

  lemma SelectAnswer(t: Tape, s: Server, c: CursorState)
    ensures var (o, k) := (ExecuteSelect(t, s, c), s.clock);
            && o.rc == (if t(k).code == 0 && t(k + 1).code == 0 then 0 else -1)
            && o.server.stmts == s.stmts && o.cursor == c && (o.rc == 0 ==> o.server.clock == k + 2)
  {
  }

  lemma OpenAnswer(t: Tape, s: Server, c: CursorState, connected: bool)
    ensures var (o, k) := (OpenCur(t, s, c, connected), s.clock);
            && o.rc == (if !c.isOpen && connected && t(k).code == 0 then 0 else -1)
            && o.server.stmts == s.stmts
            && (o.rc == 0 ==> o.server.clock == k + 1 && o.cursor == c.(isOpen := true, stmt := k + 1))
  {
  }

  /** A cursor that could not be opened, or was closed, has no statement; a closed one counts its rows anew. */
  lemma ShutAnswer(t: Tape, s: Server, c: CursorState, connected: bool)
    ensures var o := OpenCur(t, s, c, connected);
            o.rc != 0 && !c.isOpen && connected ==> !o.cursor.isOpen && o.cursor.stmt == 0
    ensures var o := CloseCur(s, c);
            && o.rc == (if c.isOpen then 0 else -1)
            && (c.isOpen ==> !o.cursor.isOpen && o.cursor.stmt == o.cursor.meta == 0 && o.cursor.rowCount == 0)
    ensures var o := ReleaseDefine(s, c);
            && o.rc == 0 && o.cursor.itemNum == 0
            && (CursorOk(c) ==> o.cursor.columns.None? && o.cursor.binds.None?)
  {
    hide Numbered, Silent, ReleaseAll, Buffers;
  }

  /** The library is given the text, and keeps it with the statement. */
  lemma PrepareAnswer(t: Tape, s: Server, c: CursorState, sql: string)
    ensures var (o, k) := (PrepareCur(t, s, c, sql), s.clock);
            && o.rc == (if t(k).code == 0 then 0 else -1) && o.cursor == c && o.server.clock == k + 1
            && (o.rc == 0 ==> o.server.stmts == s.stmts[c.stmt := Statement(sql, map[], "")])
  {
  }

  // ---------------------------------------------------------------- query, fetch, getCurRec, closeQuery

  /**
   query returns 0 exactly when there is a text, the driver is connected, and creating, preparing,
   describing, executing and storing are granted, each at its place; else -1.  The open query is the
   statement with that text, its columns described and bound.
   */
  lemma QueryAnswer(t: Tape, d: Driver, sql: Option<string>)
    ensures var (r, k) := (Query(t, d, sql), d.server.clock);
            && r.rc == (if sql.Some? && d.connected && Selects(t, k) then 0 else -1)
            && (r.rc != 0 ==> r.value == None && r.driver.table == d.table)
            && (r.rc == 0 ==>
                  && r.value == Some(d.index + 1) && |r.driver.table| == |d.table| + 1
                  && r.driver.table[..|d.table|] == d.table
                  && var last := r.driver.table[|d.table|];
                  && last.handle == d.index + 1
                  && last.cursor.isOpen && last.cursor.stmt == k + 1 && last.cursor.rowCount == 0
                  && IsDescribed(t, k + 2, last.cursor)
                  && StatementOf(r.driver.server, k + 1) == Statement(sql.value, map[], ""))
  {
    hide OpenCur, PrepareCur, Define, ExecuteSelect, Discard, Destroy, Numbered, Silent, IsDescribed, Describes;
    if sql.Some? {
      OpenAnswer(t, d.server, NEW_CURSOR, d.connected);
      var o := OpenCur(t, d.server, NEW_CURSOR, d.connected);
      PrepareAnswer(t, o.server, o.cursor, sql.value);
      var p := PrepareCur(t, o.server, o.cursor, sql.value);
      DefineAnswer(t, p.server, p.cursor);
      var b := Define(t, p.server, p.cursor);
      SelectAnswer(t, b.server, b.cursor);
      DescribesCount(t, d.server.clock + 2);
    }
  }

  lemma DescribesCount(t: Tape, k: nat)
    ensures Describes(t, k) ==> t(k + 1).code > 0
  {
  }

  /** What a fetch is told: a row, the end of the data or a row that was cut, or an error. */
  function FetchAnswer(code: int): int {
    if code == 0 then 0 else if code == 100 || code == 101 then -3 else -1
  }

  lemma FetchCodeIs(code: int)
    ensures FetchCode(code) == FetchAnswer(code)
  {
  }

  /** A request about an open query asks its statement, once; about any other handle it asks nothing. */
  lemma FetchQueryAnswer(t: Tape, d: Driver, handle: int)
    ensures var (r, k) := (FetchQuery(t, d, handle), Find(d.table, handle));
            if !HasHandle(d.table, handle) then r == Result(d, -1, None)
            else
              && r.rc == FetchAnswer(t(d.server.clock).code)
              && k < |d.table| && r.driver.server == Use(d.server, d.table[k].cursor.stmt)
              && r.driver.table[k].cursor == d.table[k].cursor.(rowCount := d.table[k].cursor.rowCount + 1)
    ensures var (r, k) := (GetCurRec(t, d, handle), Find(d.table, handle));
            if !HasHandle(d.table, handle) then r == Result(d, -1, None)
            else
              && r.rc == 0 && r.value == Some(t(d.server.clock).code)
              && k < |d.table| && r.driver.server == Use(d.server, d.table[k].cursor.stmt)
    ensures CloseQuery(d, handle).rc == if HasHandle(d.table, handle) then 0 else -1
  {
    hide Discard, Numbered, Silent;
    FetchCodeIs(t(d.server.clock).code);
    if HasHandle(d.table, handle) {
      var i :| 0 <= i < |d.table| && d.table[i].handle == handle;
      assert Find(d.table, handle) <= i;
    }
  }

  // ---------------------------------------------------------------- getRec, isTable, checkSql

  /** Where getRec fetches its row. */
  function RowAt(t: Tape, k: nat): nat
    requires Selects(t, k)
  {
    k + 7 + 2 * t(k + 3).code
  }

  lemma CloseStmts(d: Driver)
    ensures CloseScratch(d).server.stmts == d.server.stmts && !CloseScratch(d).scratch.isOpen
  {
  }

  /** getRec, step by step: 0, -3 or -1 as the fetch is answered, and -1 when anything before it is refused. */
  lemma GetRecAnswer(t: Tape, d: Driver, sql: string)
    ensures var (r, k) := (GetRec(t, d, sql), d.server.clock);
            var through := !d.scratch.isOpen && d.connected && Selects(t, k);
            && r.rc == (if through then FetchAnswer(t(RowAt(t, k)).code) else -1)
            && (through ==> StatementOf(r.driver.server, k + 1) == Statement(sql, map[], ""))
  {
    hide OpenCur, PrepareCur, Define, ExecuteSelect, CloseScratch, Numbered, Silent, IsDescribed, Describes, FetchCode,
      FetchAnswer;
    OpenAnswer(t, d.server, d.scratch, d.connected);
    var o := OpenCur(t, d.server, d.scratch, d.connected);
    PrepareAnswer(t, o.server, o.cursor, sql);
    var p := PrepareCur(t, o.server, o.cursor, sql);
    DefineAnswer(t, p.server, p.cursor);
    var b := Define(t, p.server, p.cursor);
    SelectAnswer(t, b.server, b.cursor);
    var e := ExecuteSelect(t, b.server, b.cursor);
    var f := Fetch(t, e.server, e.cursor);
    FetchCodeIs(f.rc);
    FetchCodeIs(t(e.server.clock).code);
    CloseStmts(d.(server := f.server, scratch := f.cursor));
    DescribesCount(t, d.server.clock + 2);
  }

  /** isTable says yes exactly when getRec finds a row for the statement, cut at 63 characters. */
  lemma IsTableAnswer(t: Tape, d: Driver, name: string)
    ensures var (r, k) := (IsTable(t, d, name), d.server.clock);
            var through := !d.scratch.isOpen && d.connected && Selects(t, k);
            var text := "show tables like '" + name + "' ";
            && r.rc == (if through && t(RowAt(t, k)).code == 0 then 0 else -1)
            && (through ==> StatementOf(r.driver.server, k + 1) == Statement(text[..Min(|text|, 63)], map[], ""))
  {
    hide GetRec, Selects;
    GetRecAnswer(t, d, ShowTables(name));
  }

  /** checkSql closes whatever is open, and says yes exactly when the statement can be created and prepared. */
  lemma CheckSqlAnswer(t: Tape, d: Driver, sql: string)
    ensures var (r, k) := (CheckSql(t, d, sql), d.server.clock);
            && r.rc == (if d.connected && t(k).code == 0 && t(k + 1).code == 0 then 0 else -1)
            && (r.rc == 0 ==> StatementOf(r.driver.server, k + 1) == Statement(sql, map[], ""))
  {
    hide OpenCur, PrepareCur, CloseScratch, Numbered, Silent;
    ClosedScratch(d);
    var c := CloseScratch(d);
    OpenAnswer(t, c.server, c.scratch, c.connected);
    var o := OpenCur(t, c.server, c.scratch, c.connected);
    PrepareAnswer(t, o.server, o.cursor, sql);
    var p := PrepareCur(t, o.server, o.cursor, sql);
    CloseStmts(c.(server := p.server, scratch := p.cursor));
  }

  // ---------------------------------------------------------------- writes

  /** executeSql: created, prepared, executed; the count, if it is asked for, is the library's next answer. */
  lemma ExecuteSqlAnswer(t: Tape, d: Driver, sql: string, wantCount: bool, isCommit: bool)
    ensures var (r, k) := (ExecuteSql(t, d, sql, wantCount, isCommit), d.server.clock);
            && r.rc == (if !d.scratch.isOpen && d.connected
                           && t(k).code == 0 && t(k + 1).code == 0 && t(k + 2).code == 0
                        then 0 else -1)
            && r.value == if r.rc == 0 && wantCount then Some(t(k + 3).code) else None
  {
    hide OpenCur, PrepareCur, CloseScratch, CommitTrans, RollbackTrans, Numbered, Silent;
    OpenAnswer(t, d.server, d.scratch, d.connected);
    var o := OpenCur(t, d.server, d.scratch, d.connected);
    PrepareAnswer(t, o.server, o.cursor, sql);
  }

  /** No slot up to this one is empty. */
  predicate SetThrough(slots: seq<Slot>, i: nat)
    requires i < |slots|
  {
    forall j :: 0 <= j <= i ==> slots[j].data.To?
  }

  /** phExecute: created, prepared, counted, bound, executed; and the slots before an empty one are of known types. */
  lemma PhExecuteAnswer(t: Tape, d: Driver, isCommit: bool)
    requires RoomForSlots(t, d)
    ensures var k := d.server.clock;
            PhExecute(t, d, isCommit).rc ==
              if d.connected && t(k).code == 0 && t(k + 1).code == 0 && t(k + 2).code > 0
                 && (forall i :: 0 <= i < |d.slots| && SetThrough(d.slots, i) ==> d.slots[i].ty in {2, 4, 9, 10})
                 && t(k + 3).code == 0 && t(k + 4).code == 0
              then 0 else -1
  {
    hide PhExecute, PhStatement, RoomForSlots;
    PhExecuteWrites(t, d, isCommit);
    var k := SetPrefix(d.slots);
    assert forall i :: 0 <= i < |d.slots| ==> (i < k <==> SetThrough(d.slots, i));
  }

  // ---------------------------------------------------------------- long columns

  /** Created, prepared, with parameters, the first of which is bound. */
  predicate LongBegins(t: Tape, d: Driver, text: Option<string>, ty: int) {
    var k := d.server.clock;
    && text.Some? && |text.value| < 2048 && ty in {10, 11} && d.connected
    && t(k).code == 0 && t(k + 1).code == 0 && t(k + 2).code > 0 && t(k + 3).code == 0
  }

  /** A load begins for a binary column or a text; a piece is sent as the library answers, and so is the end. */
  lemma LoadAnswers(t: Tape, d: Driver, text: Option<string>, colType: int, data: string, isCommit: bool)
    ensures BeginLoadBinaryData(t, d, text, colType).rc == if LongBegins(t, d, text, colType) then 0 else -1
    ensures d.scratch.isOpen ==>
              && TransferBinData(t, d, data).rc == (if t(d.server.clock).code == 0 then 0 else -1)
              && EndLoadBinaryData(t, d, isCommit).rc == if t(d.server.clock).code == 0 then 0 else -1
  {
    hide BeginLong, InExec, TransferBinData;
    BeginLongText(t, d, text, LoadBind(colType));
    SentText(t, d, data);
    InExecWrites(t, d, isCommit);
  }

  /** setLongFld: a load of one piece, begun, sent and executed. */
  lemma SetLongFldAnswer(t: Tape, d: Driver, text: Option<string>, msg: Pointer, length: nat, longType: int,
                         isCommit: bool)
    requires msg.To? && longType == SQL_BINARY ==> length <= |msg.text|
    ensures var k := d.server.clock;
            SetLongFld(t, d, text, msg, length, longType, isCommit).rc ==
              if msg.To? && LongBegins(t, d, text, longType) && t(k + 4).code == 0 && t(k + 5).code == 0 then 0 else -1
  {
    hide SetLongFld, LongWrite, LongData;
    SetLongFldWrites(t, d, text, msg, length, longType, isCommit);
  }

  // ---------------------------------------------------------------- connection

  /** The error numbers by which the driver knows that the connection is lost. */
  lemma LostIff(t: Tape, d: Driver)
    ensures Lost(t, d) <==> !d.connected || t(d.server.clock).code in {1053, 2002, 2003, 2006, 2013, 2055}
  {
  }

  /** connect: names of at most 63, 127 and 63 characters, no connection yet, and the library grants it. */
  lemma ConnectAnswer(t: Tape, d: Driver, user: string, password: string, host: string)
    ensures var r := MysqlSpec.Connect(t, d, user, password, host);
            var asks := |user| <= 63 && |password| <= 127 && |host| <= 63 && !d.connected;
            && r.rc == (if asks && t(d.server.clock).code == 0 then 0 else -1)
            && (r.driver.connected <==> d.connected || r.rc == 0)
            && (!asks ==> r.driver == d) && r.driver.server.clock == d.server.clock + (if asks then 1 else 0)
  {
  }

  /** disconnect: the scratch cursor is closed in any case; the session ends, and what was pending with it. */
  lemma DisconnectAnswer(d: Driver)
    ensures var r := Disconnect(d);
            && r.rc == (if d.connected then 0 else -1) && !r.driver.connected && !r.driver.scratch.isOpen
            && (d.connected ==> NothingPending(r.driver.server.journal)) && r.driver.table == d.table
  {
  }

  /** The destructor ends the session, if there is one. */
  lemma DestroyEndsSession(d: Driver)
    ensures d.connected ==> NothingPending(DestroyDriver(d).journal)
    ensures !d.connected ==> DestroyDriver(d).journal == d.server.journal
  {
    hide Destroy, DestroyAll;
  }

  /** changeDB and processDdl ask once, if there is a text, and pass the answer on. */
  lemma ForwardAnswer(t: Tape, d: Driver, text: Option<string>)
    ensures var r := Forward(t, d, text);
            && r.rc == (if text.Some? && t(d.server.clock).code == 0 then 0 else -1)
            && r.driver == if text.None? then d else d.(server := d.server.(clock := d.server.clock + 1))
  {
  }

  // ---------------------------------------------------------------- parameters

  /** phSetSql takes statements of less than 2048 characters, and empties all the slots. */
  lemma PhSetSqlAnswer(d: Driver, sql: Option<string>)
    ensures var r := PhSetSql(d, sql);
            && r.rc == (if sql.Some? && |sql.value| < 2048 then 0 else -1)
            && (r.rc != 0 ==> r.driver == d)
            && (r.rc == 0 ==> |r.driver.slots| == 32 && forall i :: 0 <= i < 32 ==> r.driver.slots[i].data.Null?)
  {
  }

  /** What cannot fail does not: the three calls about transactions, and the one that empties the slots. */
  lemma NeverFails(t: Tape, d: Driver, call: Call)
    requires call in {CallBeginTrans, CallCommitTrans, CallRollbackTrans, CallPhFree}
    ensures Apply(t, d, call).rc == 0
    ensures var d' := Apply(t, d, CallPhFree).driver;
            && d' == d.(sql := "", slots := d'.slots)
            && |d'.slots| == 32 && forall i :: 0 <= i < 32 ==> d'.slots[i] == Slot(0, 0, Null)
  {
  }
}
