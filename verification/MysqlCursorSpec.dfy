/**
 What the members of `mysql_cursor` do, as functions of the cursor's fields and the server.
 The class in MysqlCursor.dfy is proved to compute these functions; the lemmas here say what is
 true of them: when a cursor is well formed, and that every member keeps the resource books.
 */
module MysqlCursorSpec {
  import opened NativeServer

  const MYSQL_TYPE_LONG := 3
  const MYSQL_TYPE_LONGLONG := 8
  const MYSQL_TYPE_DATETIME := 12
  const MYSQL_TYPE_BLOB := 252
  const MYSQL_TYPE_STRING := 254

  const SIZEOF_MYSQL_TIME: nat := 40

  /** mysql_define: a result column and the buffer its values are fetched into (0 is null). */
  datatype Column = Column(name: string, ty: int, length: nat, buf: nat)

  /** MYSQL_BIND for a result column; the three pointers lead into the column at that index. */
  datatype ResultBind = ResultBind(bufferType: int, buffer: nat, bufferLength: nat,
                                   isNull: Option<nat>, length: Option<nat>, error: Option<nat>, unsigned: bool)

  const BLANK_COLUMN := Column("", 0, 0, 0)
  const BLANK_RESULT_BIND := ResultBind(0, 0, 0, None, None, None, false)
  const BLANK_BIND := Bind(0, Null, 0, None)

  /** The fields of mysql_cursor; handles and buffers are numbers, 0 is null. */
  datatype CursorState = CursorState(
    isOpen: bool,
    stmt: nat,
    meta: nat,
    parms: Option<seq<Bind>>,
    columns: Option<seq<Column>>,
    binds: Option<seq<ResultBind>>,
    itemNum: int,
    rowCount: int)

  const NEW_CURSOR := CursorState(false, 0, 0, None, None, None, 0, 0)

  /** What a member leaves behind: the server, the cursor and the status it returns. */
  datatype Outcome = Outcome(server: Server, cursor: CursorState, rc: int)

  // ---------------------------------------------------------------- open and close

  function OpenCur(t: Tape, s: Server, c: CursorState, connected: bool): (o: Outcome)
    ensures (Numbered(s) ==> Numbered(o.server)) && Silent(s, o.server)
  {
    if c.isOpen || !connected then Outcome(s, c, -1)
    else
      var (s', p) := StmtInit(t, s);
      if p == 0 then Outcome(s', c.(stmt := 0, isOpen := false), -1)
      else Outcome(s', c.(stmt := p, isOpen := true), 0)
  }

  /** A null handle is not returned. */
  function ReleaseIf(s: Server, id: nat): (s': Server)
    ensures (Numbered(s) ==> Numbered(s')) && Silent(s, s')
  {
    if id == 0 then s else Release(s, id)
  }

  function CloseCur(s: Server, c: CursorState): (o: Outcome)
    ensures o.server.clock == s.clock
    ensures (Numbered(s) ==> Numbered(o.server)) && Silent(s, o.server)
  {
    if !c.isOpen then Outcome(s, c, -1)
    else
      Outcome(ReleaseIf(ReleaseIf(s, c.meta), c.stmt),
              c.(meta := 0, stmt := 0, isOpen := false, rowCount := 0), 0)
  }

  // ---------------------------------------------------------------- result columns

  /** The buffers of some columns that have one, in order. */
  function Buffers(columns: seq<Column>): seq<nat> {
    if columns == [] then []
    else
      var last := columns[|columns| - 1];
      Buffers(columns[..|columns| - 1]) + (if last.buf == 0 then [] else [last.buf])
  }

  function ReleaseDefine(s: Server, c: CursorState): (o: Outcome)
    ensures o.server.clock == s.clock
    ensures (Numbered(s) ==> Numbered(o.server)) && Silent(s, o.server)
  {
    var server := if c.columns.Some? && c.itemNum > 0 then ReleaseAll(s, Buffers(c.columns.value)) else s;
    Outcome(server,
            c.(columns := if c.itemNum > 0 then None else c.columns,
               binds := if c.itemNum > 0 then None else c.binds,
               itemNum := 0),
            0)
  }

  function CountColumns(t: Tape, s: Server, c: CursorState): (o: Outcome)
    ensures o.rc == 0 || o.rc == -1
    ensures o.rc == 0 ==> o.cursor.itemNum > 0 && o.cursor.meta != 0
    ensures (Numbered(s) ==> Numbered(o.server)) && Silent(s, o.server)
  {
    var (s1, meta) := ResultMetadata(t, ReleaseIf(s, c.meta), c.stmt);
    if meta == 0 then Outcome(s1, c.(meta := 0), -1)
    else
      var (s2, n) := Ask(t, s1, meta);
      Outcome(s2, c.(meta := meta, itemNum := n), if n <= 0 then -1 else 0)
  }

  function Described(t: Tape, clock: nat, n: nat): seq<Column> {
    seq(n, (i: nat) => var f := t(clock + i).field; Column(f.name, f.ty, f.length, 0))
  }

  function DescribedBinds(t: Tape, clock: nat, n: nat): seq<ResultBind> {
    seq(n, (i: nat) => BLANK_RESULT_BIND.(unsigned := t(clock + i).field.unsigned))
  }

  function AllocateDefine(t: Tape, s: Server, c: CursorState): (o: Outcome)
    ensures o.rc >= 0 ==> o.cursor.columns.Some? && o.cursor.binds.Some?
                          && |o.cursor.columns.value| == |o.cursor.binds.value| == o.cursor.itemNum
    ensures (Numbered(s) ==> Numbered(o.server)) && Silent(s, o.server)
  {
    var released := ReleaseDefine(s, c);
    var counted := CountColumns(t, released.server, released.cursor);
    if counted.rc < 0 then counted
    else
      var n: nat := counted.cursor.itemNum;
      Outcome(UseMany(counted.server, counted.cursor.meta, n),
              counted.cursor.(columns := Some(Described(t, counted.server.clock, n)),
                              binds := Some(DescribedBinds(t, counted.server.clock, n))),
              0)
  }

  /** Every column with the buffer allocated for it; the first gets resource number `clock` + 1. */
  function BufferedAll(columns: seq<Column>, clock: nat): (r: seq<Column>)
    ensures |r| == |columns|
    ensures forall i :: 0 <= i < |r| ==> r[i] == columns[i].(buf := clock + 1 + i)
  {
    if columns == [] then []
    else
      var n := |columns| - 1;
      BufferedAll(columns[..n], clock) + [columns[n].(buf := clock + 1 + n)]
  }

  /** The binding of column `i`. */
  function BoundTo(column: Column, i: nat, unsigned: bool): ResultBind {
    ResultBind(column.ty, column.buf,
               if column.ty == MYSQL_TYPE_DATETIME then SIZEOF_MYSQL_TIME else column.length,
               Some(i), Some(i), Some(i), unsigned)
  }

  function BoundAll(columns: seq<Column>, binds: seq<ResultBind>): (r: seq<ResultBind>)
    requires |columns| == |binds|
    ensures |r| == |columns|
    ensures forall i :: 0 <= i < |r| ==> r[i] == BoundTo(columns[i], i, binds[i].unsigned)
  {
    if columns == [] then []
    else
      var n := |columns| - 1;
      BoundAll(columns[..n], binds[..n]) + [BoundTo(columns[n], n, binds[n].unsigned)]
  }

  function Define(t: Tape, s: Server, c: CursorState): (o: Outcome)
    ensures (Numbered(s) ==> Numbered(o.server)) && Silent(s, o.server)
  {
    var a := AllocateDefine(t, s, c);
    if a.rc < 0 then a
    else
      var columns := BufferedAll(a.cursor.columns.value, a.server.clock);
      var binds := BoundAll(columns, a.cursor.binds.value);
      var (s', code) := Ask(t, AcquireMany(a.server, |columns|), a.cursor.stmt);
      Outcome(s', a.cursor.(columns := Some(columns), binds := Some(binds)), if code != 0 then -1 else 0)
  }

  // ---------------------------------------------------------------- parameters

  function AllocateParmBind(t: Tape, s: Server, c: CursorState): (o: Outcome)
    ensures (Numbered(s) ==> Numbered(o.server)) && Silent(s, o.server)
  {
    if c.stmt == 0 then Outcome(s, c, -1)
    else
      var (s', n) := Ask(t, s, c.stmt);
      if n <= 0 then Outcome(s', c, -1)
      else Outcome(s', c.(parms := Some(seq(n, _ => BLANK_BIND))), 0)
  }

  function BindPos(c: CursorState, position: nat, bind: Bind): CursorState
    requires c.parms.Some? ==> position < |c.parms.value|
  {
    if c.parms.None? then c else c.(parms := Some(c.parms.value[position := bind]))
  }

  function AsMap(binds: seq<Bind>): map<int, Bind> {
    map i: int | 0 <= i < |binds| :: binds[i]
  }

  function BindParm(t: Tape, s: Server, c: CursorState): (o: Outcome)
    ensures (Numbered(s) ==> Numbered(o.server)) && Silent(s, o.server)
  {
    var (s', code) := BindAll(t, s, c.stmt, if c.parms.None? then map[] else AsMap(c.parms.value));
    Outcome(s', c, code)
  }

  function BindLargeParm(t: Tape, s: Server, c: CursorState, data: string): (o: Outcome)
    ensures (Numbered(s) ==> Numbered(o.server)) && Silent(s, o.server)
  {
    var (s', code) := SendLong(t, s, c.stmt, data);
    Outcome(s', c, code)
  }

  // ---------------------------------------------------------------- statements

  function PrepareCur(t: Tape, s: Server, c: CursorState, sql: string): (o: Outcome)
    ensures (Numbered(s) ==> Numbered(o.server)) && Silent(s, o.server)
  {
    var (s', code) := Prepare(t, s, c.stmt, sql);
    Outcome(s', c, if code != 0 then -1 else 0)
  }

  /** Select mode: execute, then buffer the result on the client side. */
  function ExecuteSelect(t: Tape, s: Server, c: CursorState): (o: Outcome)
    ensures (Numbered(s) ==> Numbered(o.server)) && Silent(s, o.server)
  {
    var (s1, code) := Ask(t, s, c.stmt);
    if code != 0 then Outcome(s1, c, -1)
    else
      var (s2, stored) := Ask(t, s1, c.stmt);
      Outcome(s2, c, if stored != 0 then -1 else 0)
  }

  function ExecuteNonSelect(t: Tape, s: Server, c: CursorState): (o: Outcome)
    ensures Numbered(s) ==> Numbered(o.server)
  {
    var (s', code) := ExecuteWrite(t, s, c.stmt);
    Outcome(s', c, if code != 0 then -1 else 0)
  }

  function Fetch(t: Tape, s: Server, c: CursorState): (o: Outcome)
    ensures (Numbered(s) ==> Numbered(o.server)) && Silent(s, o.server)
  {
    var (s', code) := Ask(t, s, c.stmt);
    Outcome(s', c.(rowCount := c.rowCount + 1), code)
  }

  function AffectRec(t: Tape, s: Server, c: CursorState): (o: Outcome)
    ensures (Numbered(s) ==> Numbered(o.server)) && Silent(s, o.server)
  {
    var (s', n) := Ask(t, s, c.stmt);
    Outcome(s', c, n)
  }

  /** The destructor. */
  function Destroy(s: Server, c: CursorState): (s': Server)
    ensures s'.clock == s.clock
    ensures (Numbered(s) ==> Numbered(s')) && Silent(s, s')
  {
    var closed := if c.isOpen then CloseCur(s, c) else Outcome(s, c, 0);
    ReleaseDefine(closed.server, closed.cursor.(parms := None)).server
  }

  // ---------------------------------------------------------------- well-formed cursors

  /**
   A cursor is open exactly when it has a statement, holds a metadata result only while open, and
   has either no define arrays or two of length `itemNum` > 0.
   */
  predicate CursorOk(c: CursorState) {
    && (c.isOpen <==> c.stmt != 0)
    && (c.meta != 0 ==> c.isOpen)
    && (c.columns.Some? <==> c.binds.Some?)
    && (c.columns.Some? ==> |c.columns.value| == |c.binds.value| == c.itemNum && c.itemNum > 0)
  }

  function One(id: nat): multiset<nat> {
    if id == 0 then multiset{} else multiset{id}
  }

  function HeldBuffers(c: CursorState): multiset<nat> {
    if c.columns.None? then multiset{} else Items(Buffers(c.columns.value))
  }

  /** The native resources that a cursor holds. */
  function Held(c: CursorState): multiset<nat> {
    One(c.stmt) + One(c.meta) + HeldBuffers(c)
  }

  /** A member keeps the cursor well formed and its books balanced. */
  predicate Keeps(s: Server, c: CursorState, s': Server, c': CursorState) {
    CursorOk(c) ==> CursorOk(c') && Balanced(s, s', Held(c), Held(c'))
  }

  lemma KeepsTrans(s0: Server, c0: CursorState, s1: Server, c1: CursorState, s2: Server, c2: CursorState)
    requires Keeps(s0, c0, s1, c1) && Keeps(s1, c1, s2, c2)
    ensures Keeps(s0, c0, s2, c2)
  {
    if CursorOk(c0) {
      BalancedTrans(s0, s1, s2, Held(c0), Held(c1), Held(c2));
    }
  }

  lemma ReleaseIfBalanced(s: Server, id: nat, others: multiset<nat>)
    ensures Balanced(s, ReleaseIf(s, id), One(id) + others, others)
  {
    if id != 0 {
      ReleaseBalanced(s, id);
      BalancedFrame(s, Release(s, id), multiset{id}, multiset{}, others);
      assert multiset{} + others == others;
    } else {
      assert One(id) + others == others;
    }
  }

  lemma OpenCurKeeps(t: Tape, s: Server, c: CursorState, connected: bool)
    ensures var o := OpenCur(t, s, c, connected); Keeps(s, c, o.server, o.cursor)
    ensures var o := OpenCur(t, s, c, connected); CursorOk(c) ==> (o.rc == 0 <==> !c.isOpen && o.cursor.isOpen)
  {
    var o := OpenCur(t, s, c, connected);
    if CursorOk(c) && !c.isOpen && connected && o.rc == 0 {
      AcquireBalanced(s);
      BalancedFrame(s, o.server, multiset{}, multiset{NextId(s)}, HeldBuffers(c));
      assert multiset{} + HeldBuffers(c) == Held(c);
      assert multiset{NextId(s)} + HeldBuffers(c) == Held(o.cursor);
    }
  }

  lemma CloseCurKeeps(s: Server, c: CursorState)
    ensures var o := CloseCur(s, c); Keeps(s, c, o.server, o.cursor)
    ensures CursorOk(c) ==> !CloseCur(s, c).cursor.isOpen
  {
    var o := CloseCur(s, c);
    if CursorOk(c) && c.isOpen {
      var s1 := ReleaseIf(s, c.meta);
      var rest := One(c.stmt) + HeldBuffers(c);
      ReleaseIfBalanced(s, c.meta, rest);
      ReleaseIfBalanced(s1, c.stmt, HeldBuffers(c));
      BalancedTrans(s, s1, o.server, One(c.meta) + rest, rest, HeldBuffers(c));
      assert One(c.meta) + rest == Held(c);
      assert HeldBuffers(c) == Held(o.cursor);
    }
  }

  lemma ReleaseDefineKeeps(s: Server, c: CursorState)
    ensures var o := ReleaseDefine(s, c); Keeps(s, c, o.server, o.cursor)
    ensures CursorOk(c) ==> ReleaseDefine(s, c).cursor.columns.None? && ReleaseDefine(s, c).cursor.binds.None?
  {
    var o := ReleaseDefine(s, c);
    if CursorOk(c) && c.columns.Some? {
      var ids := Buffers(c.columns.value);
      ReleaseAllBalanced(s, ids);
      BalancedFrame(s, o.server, Items(ids), multiset{}, One(c.stmt) + One(c.meta));
      assert Items(ids) + (One(c.stmt) + One(c.meta)) == Held(c);
      assert multiset{} + (One(c.stmt) + One(c.meta)) == Held(o.cursor);
    }
  }

  /** Asking about a held resource changes no books. */
  lemma UseBalanced(s: Server, id: nat, held: multiset<nat>)
    requires id in held
    ensures Balanced(s, Use(s, id), held, held)
  {
  }

  lemma MetadataBalanced(t: Tape, s: Server, stmt: nat)
    requires stmt != 0
    ensures var (s', meta) := ResultMetadata(t, s, stmt);
            Balanced(s, s', One(stmt), One(stmt) + One(meta))
  {
    var (s', meta) := ResultMetadata(t, s, stmt);
    if One(stmt) <= s.live {
      assert stmt in One(stmt) && stmt in s.live;
    }
    if meta == 0 {
      assert One(stmt) + One(meta) == One(stmt);
    } else {
      assert s.live + multiset{meta} + One(stmt) == s.live + (One(stmt) + One(meta));
    }
  }

  lemma CountColumnsKeeps(t: Tape, s: Server, c: CursorState)
    requires CursorOk(c) && c.isOpen && c.columns.None? && c.binds.None?
    ensures var o := CountColumns(t, s, c);
            Keeps(s, c, o.server, o.cursor) && (o.rc == 0 ==> o.cursor.meta != 0)
  {
    var o := CountColumns(t, s, c);
    var s0 := ReleaseIf(s, c.meta);
    ReleaseIfBalanced(s, c.meta, One(c.stmt));
    assert One(c.meta) + One(c.stmt) == Held(c);
    var (s1, meta) := ResultMetadata(t, s0, c.stmt);
    MetadataBalanced(t, s0, c.stmt);
    assert One(c.stmt) + One(meta) == Held(o.cursor);
    BalancedTrans(s, s0, s1, Held(c), One(c.stmt), Held(o.cursor));
    if meta != 0 {
      UseBalanced(s1, meta, Held(o.cursor));
      BalancedTrans(s, s1, o.server, Held(c), Held(o.cursor), Held(o.cursor));
    }
  }

  lemma {:induction false} BlankColumnsHaveNoBuffers(columns: seq<Column>)
    requires forall i :: 0 <= i < |columns| ==> columns[i].buf == 0
    ensures Buffers(columns) == []
  {
    if columns != [] {
      BlankColumnsHaveNoBuffers(columns[..|columns| - 1]);
    }
  }

  /** Describing the columns of a counted result: no buffer yet, and the metadata result is asked n times. */
  lemma DescribingKeeps(s: Server, c: CursorState, columns: seq<Column>, binds: seq<ResultBind>)
    requires CursorOk(c) && c.meta != 0 && c.columns.None?
    requires |columns| == |binds| && |columns| > 0
    requires forall i :: 0 <= i < |columns| ==> columns[i].buf == 0
    ensures var c' := c.(columns := Some(columns), binds := Some(binds), itemNum := |columns|);
            Keeps(s, c, UseMany(s, c.meta, |columns|), c') && HeldBuffers(c') == multiset{}
  {
    BlankColumnsHaveNoBuffers(columns);
    assert c.meta in Held(c);
  }

  lemma AllocateDefineKeeps(t: Tape, s: Server, c: CursorState)
    requires CursorOk(c) && c.isOpen
    ensures var o := AllocateDefine(t, s, c);
            && Keeps(s, c, o.server, o.cursor)
            && o.cursor.stmt == c.stmt && o.cursor.isOpen
            && HeldBuffers(o.cursor) == multiset{}
            && (o.rc == 0 || o.rc == -1)
            && (o.rc == 0 <==> o.cursor.columns.Some?)
  {
    hide ReleaseAll, Balanced, Held;
    var r := ReleaseDefine(s, c);
    ReleaseDefineKeeps(s, c);
    var k := CountColumns(t, r.server, r.cursor);
    CountColumnsKeeps(t, r.server, r.cursor);
    KeepsTrans(s, c, r.server, r.cursor, k.server, k.cursor);
    if k.rc == 0 {
      var n: nat, clock := k.cursor.itemNum, k.server.clock;
      DescribingKeeps(k.server, k.cursor, Described(t, clock, n), DescribedBinds(t, clock, n));
      var o := AllocateDefine(t, s, c);
      KeepsTrans(s, c, k.server, k.cursor, o.server, o.cursor);
    }
  }

  lemma ItemsOfNone()
    ensures Items([]) == multiset{}
  {
  }

  /** Buffers allocated one after the other are the next resources the library hands out. */
  lemma {:induction false} BuffersOfNumbered(columns: seq<Column>, s: Server)
    requires forall i :: 0 <= i < |columns| ==> columns[i].buf == s.clock + 1 + i
    ensures Items(Buffers(columns)) == NextItems(s, |columns|)
  {
    hide Items;
    if columns == [] {
      ItemsOfNone();
    } else {
      var n := |columns| - 1;
      BuffersOfNumbered(columns[..n], s);
      ItemsAppend(Buffers(columns[..n]), columns[n].buf);
    }
  }

  /** After a define that succeeds, bind i points at column i's buffer, null flag, length and error. */
  predicate DefineOk(c: CursorState) {
    && c.columns.Some? && c.binds.Some?
    && |c.columns.value| == |c.binds.value| == c.itemNum && c.itemNum > 0
    && forall i :: 0 <= i < c.itemNum ==>
         var column, bind := c.columns.value[i], c.binds.value[i];
         && column.buf != 0 && bind.buffer == column.buf && bind.bufferType == column.ty
         && bind.isNull == bind.length == bind.error == Some(i)
         && (column.ty != MYSQL_TYPE_DATETIME ==> bind.bufferLength == column.length)
         && (forall j :: 0 <= j < i ==> c.columns.value[j].buf != column.buf)
  }

  lemma NumberedColumnsAreDefined(c: CursorState, columns: seq<Column>, binds: seq<ResultBind>, clock: nat)
    requires |columns| == |binds| == c.itemNum && c.itemNum > 0
    requires c.columns == Some(BufferedAll(columns, clock)) && c.binds == Some(BoundAll(c.columns.value, binds))
    ensures DefineOk(c)
  {
    hide BufferedAll, BoundAll;
  }

  lemma DefineShape(t: Tape, s: Server, c: CursorState)
    requires CursorOk(c) && c.isOpen
    ensures var o := Define(t, s, c);
            && CursorOk(o.cursor) && o.cursor.stmt == c.stmt && o.cursor.isOpen
            && (o.rc == 0 || o.rc == -1)
            && (o.rc == 0 ==> DefineOk(o.cursor))
  {
    AllocateDefineKeeps(t, s, c);
    var a := AllocateDefine(t, s, c);
    if a.rc == 0 {
      NumberedColumnsAreDefined(Define(t, s, c).cursor, a.cursor.columns.value, a.cursor.binds.value, a.server.clock);
    }
  }

  /** Allocating the buffers of described columns, and asking the library to fill them. */
  lemma BufferingBalanced(s: Server, s': Server, s'': Server, c: CursorState, c': CursorState, n: nat)
    requires c.stmt != 0 && c'.stmt == c.stmt && c'.meta == c.meta && HeldBuffers(c) == multiset{}
    requires s' == AcquireMany(s, n) && s'' == Use(s', c.stmt)
    requires HeldBuffers(c') == NextItems(s, n)
    ensures Balanced(s, s'', Held(c), Held(c'))
  {
    var ids, rest := NextItems(s, n), One(c.stmt) + One(c.meta);
    assert multiset{} + rest == Held(c) && ids + rest == Held(c');
    AcquireManyBalanced(s, n);
    BalancedFrame(s, s', multiset{}, ids, rest);
    UseBalanced(s', c.stmt, Held(c'));
    BalancedTrans(s, s', s'', Held(c), Held(c'), Held(c'));
  }

  lemma DefineKeeps(t: Tape, s: Server, c: CursorState)
    requires CursorOk(c) && c.isOpen
    ensures var o := Define(t, s, c);
            && Keeps(s, c, o.server, o.cursor)
            && o.cursor.stmt == c.stmt && o.cursor.isOpen
            && (o.rc == 0 || o.rc == -1)
            && (o.rc == 0 ==> DefineOk(o.cursor))
  {
    hide AllocateDefine, BufferedAll, BoundAll, DefineOk, AcquireMany;
    AllocateDefineKeeps(t, s, c);
    DefineShape(t, s, c);
    var a := AllocateDefine(t, s, c);
    if a.rc == 0 {
      var o := Define(t, s, c);
      var n := |a.cursor.columns.value|;
      BuffersOfNumbered(o.cursor.columns.value, a.server);
      BufferingBalanced(a.server, AcquireMany(a.server, n), o.server, a.cursor, o.cursor, n);
      BalancedTrans(s, a.server, o.server, Held(c), Held(a.cursor), Held(o.cursor));
    }
  }

  lemma DestroyReleasesAll(s: Server, c: CursorState)
    requires CursorOk(c)
    ensures Balanced(s, Destroy(s, c), Held(c), multiset{})
  {
    var closed := if c.isOpen then CloseCur(s, c) else Outcome(s, c, 0);
    CloseCurKeeps(s, c);
    var c1 := closed.cursor.(parms := None);
    assert Held(c1) == Held(closed.cursor) && CursorOk(c1);
    var o := ReleaseDefine(closed.server, c1);
    ReleaseDefineKeeps(closed.server, c1);
    assert Held(o.cursor) == multiset{};
    BalancedTrans(s, closed.server, o.server, Held(c), Held(closed.cursor), multiset{});
  }

  // ---------------------------------------------------------------- the books of a whole driver

  /** The server's live resources are those of `c` and `others`, and no resource was ever misused. */
  predicate Books(s: Server, c: CursorState, others: multiset<nat>) {
    CursorOk(c) && !s.misused && s.live == Held(c) + others
  }

  /** Whatever else is held, the books that were right before are right afterwards. */
  ghost predicate Tidy(s: Server, c: CursorState, s': Server, c': CursorState) {
    forall others {:trigger Books(s, c, others)} :: Books(s, c, others) ==> Books(s', c', others)
  }

  lemma KeepsIsTidy(s: Server, c: CursorState, s': Server, c': CursorState)
    requires Keeps(s, c, s', c')
    ensures Tidy(s, c, s', c')
  {
    forall others {:trigger Books(s, c, others)} | Books(s, c, others)
      ensures Books(s', c', others)
    {
      assert Held(c) <= s.live;
      forall id
        ensures s'.live[id] == (Held(c') + others)[id]
      {
        assert (s'.live + Held(c))[id] == (s.live + Held(c'))[id];
      }
    }
  }

  lemma OpenCurTidy(t: Tape, s: Server, c: CursorState, connected: bool)
    requires CursorOk(c)
    ensures var o := OpenCur(t, s, c, connected);
            && Tidy(s, c, o.server, o.cursor)
            && (o.rc == 0 || o.rc == -1)
            && (o.rc == 0 <==> !c.isOpen && o.cursor.isOpen)
            && CursorOk(o.cursor)
  {
    var o := OpenCur(t, s, c, connected);
    OpenCurKeeps(t, s, c, connected);
    KeepsIsTidy(s, c, o.server, o.cursor);
  }

  lemma CloseCurTidy(s: Server, c: CursorState)
    requires CursorOk(c)
    ensures var o := CloseCur(s, c);
            Tidy(s, c, o.server, o.cursor) && !o.cursor.isOpen && CursorOk(o.cursor)
  {
    var o := CloseCur(s, c);
    CloseCurKeeps(s, c);
    KeepsIsTidy(s, c, o.server, o.cursor);
  }

  lemma DefineTidy(t: Tape, s: Server, c: CursorState)
    requires CursorOk(c) && c.isOpen
    ensures var o := Define(t, s, c);
            && Tidy(s, c, o.server, o.cursor)
            && CursorOk(o.cursor) && o.cursor.stmt == c.stmt && o.cursor.isOpen
            && (o.rc == 0 || o.rc == -1)
            && (o.rc == 0 ==> DefineOk(o.cursor))
  {
    var o := Define(t, s, c);
    DefineKeeps(t, s, c);
    KeepsIsTidy(s, c, o.server, o.cursor);
  }

  /** A call about an open statement that leaves the cursor as it is, or changes only its parameters or count. */
  lemma AskTidy(s: Server, c: CursorState, s': Server, c': CursorState)
    requires CursorOk(c) && c.isOpen
    requires s'.live == s.live && s'.misused == (s.misused || c.stmt !in s.live)
    requires c' == c.(parms := c'.parms, rowCount := c'.rowCount)
    ensures Tidy(s, c, s', c') && CursorOk(c')
  {
    assert c.stmt in Held(c) && Held(c') == Held(c);
  }
}
