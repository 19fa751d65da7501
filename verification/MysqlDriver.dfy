/**
 `mysqlapi`: the class.  Every method is proved to take the state to the one that its function in
 MysqlSpec names and to return the code that it names; the books are the class invariant.
 */
module MysqlDrivers {
  import opened NativeServer
  import opened NativeLibrary
  import opened HandleLists
  import opened MysqlCursorSpec
  import opened MysqlCursors
  import opened MysqlSpec
  import opened MysqlBooks
  import opened Basics
  import opened PlaceholderRewriter

  /** The first position is the only one that these conditions describe. */
  lemma {:induction false} FindIs(table: seq<Listed>, handle: int, k: nat)
    requires k <= |table|
    requires forall i :: 0 <= i < k ==> table[i].handle != handle
    requires k < |table| ==> table[k].handle == handle
    ensures Find(table, handle) == k
  {
    if k > 0 {
      FindIs(table[1..], handle, k - 1);
    }
  }

  class MysqlDriver {
    const lib: Library
    const cursor: MysqlCursor
    const list: HandleList<MysqlCursor>
    var connected: bool
    var trans: bool
    var sql: string
    var slots: seq<Slot>

    ghost function Cursors(): set<MysqlCursor>
      reads list
    {
      set n | n in list.nodes :: n.data
    }

    ghost function Table(): (table: seq<Listed>)
      reads list, list.nodes, Cursors()
      ensures |table| == |list.nodes|
      ensures forall i :: 0 <= i < |table| ==> table[i] == Listed(list.nodes[i].handle, list.nodes[i].data.State())
    {
      seq(|list.nodes|, i requires 0 <= i < |list.nodes| reads list, list.nodes, Cursors() =>
        assert list.nodes[i] in list.nodes;
        Listed(list.nodes[i].handle, list.nodes[i].data.State()))
    }

    ghost function State(): Driver
      reads this, lib, cursor, list, list.nodes, Cursors()
    {
      Driver(lib.server, connected, trans, cursor.State(), Table(), list.index, sql, slots)
    }

    /** The list is well linked, and no cursor is shared. */
    ghost predicate Shape()
      reads list, list.nodes
    {
      list.Valid() && OwnData(list.nodes, cursor)
    }

    ghost predicate Valid()
      reads this, lib, cursor, list, list.nodes, Cursors()
    {
      Shape() && BooksOk(State())
    }

    constructor (lib: Library, trans: bool)
      requires lib.server == FRESH_SERVER
      ensures Valid() && this.lib == lib && fresh(cursor) && fresh(list) && list.nodes == []
      ensures State() == NewDriver(FRESH_SERVER, trans)
    {
      this.lib := lib;
      cursor := new MysqlCursor();
      list := new HandleList();
      connected, this.trans := false, trans;
      sql, slots := "", BlankSlots();
      new;
      assert Table() == [];
      NewDriverBooks(trans);
    }

    // -------------------------------------------------------------- members of the scratch cursor

    method OpenScratch() returns (rc: int)
      requires Shape()
      modifies lib, cursor
      ensures Shape() && Result(State(), rc, None) == MysqlSpec.OpenScratch(lib.tape, old(State()))
    {
      hide Numbered, MysqlCursorSpec.OpenCur;
      rc := cursor.OpenCur(lib, connected);
      assert Table() == old(Table());
    }

    method CloseScratch()
      requires Shape()
      modifies lib, cursor
      ensures Shape() && State() == MysqlSpec.CloseScratch(old(State()))
    {
      hide Numbered, MysqlCursorSpec.CloseCur;
      var _ := cursor.CloseCur(lib);
      assert Table() == old(Table());
    }

    method PrepareScratch(text: string) returns (rc: int)
      requires Shape()
      modifies lib
      ensures Shape() && Result(State(), rc, None) == MysqlSpec.PrepareScratch(lib.tape, old(State()), text)
    {
      hide Numbered, PrepareCur;
      rc := cursor.Prepare(lib, text);
      assert Table() == old(Table());
    }

    method DefineScratch() returns (rc: int)
      requires Shape() && CursorOk(cursor.State())
      modifies lib, cursor
      ensures Shape() && Result(State(), rc, None) == MysqlSpec.DefineScratch(lib.tape, old(State()))
    {
      hide Numbered, MysqlCursorSpec.Define;
      rc := cursor.Define(lib);
      assert Table() == old(Table());
    }

    method SelectScratch() returns (rc: int)
      requires Shape()
      modifies lib
      ensures Shape() && Result(State(), rc, None) == MysqlSpec.SelectScratch(lib.tape, old(State()))
    {
      hide Numbered, MysqlCursorSpec.ExecuteSelect;
      rc := cursor.ExecuteSelect(lib);
      assert Table() == old(Table());
    }

    method FetchScratch() returns (rc: int)
      requires Shape()
      modifies lib, cursor
      ensures Shape() && Result(State(), rc, None) == MysqlSpec.FetchScratch(lib.tape, old(State()))
    {
      hide Numbered, MysqlCursorSpec.Fetch;
      rc := cursor.Fetch(lib);
      assert Table() == old(Table());
    }

    method CountScratch() returns (rc: int)
      requires Shape()
      modifies lib
      ensures Shape() && Result(State(), rc, None) == MysqlSpec.CountScratch(lib.tape, old(State()))
    {
      hide Numbered, MysqlCursorSpec.AffectRec;
      rc := cursor.AffectRec(lib);
      assert Table() == old(Table());
    }

    method AllocateParms() returns (rc: int)
      requires Shape()
      modifies lib, cursor
      ensures Shape() && Result(State(), rc, None) == MysqlSpec.AllocateParms(lib.tape, old(State()))
    {
      hide Numbered, MysqlCursorSpec.AllocateParmBind;
      rc := cursor.AllocateParmBind(lib);
      assert Table() == old(Table());
    }

    method BindFirst(bind: Bind)
      requires Shape() && cursor.parms.Some? && |cursor.parms.value| > 0
      modifies cursor
      ensures Shape() && State() == old(State()).(scratch := MysqlCursorSpec.BindPos(old(cursor.State()), 0, bind))
    {
      cursor.BindPos(0, bind);
      assert Table() == old(Table());
    }

    method BindParms() returns (rc: int)
      requires Shape()
      modifies lib
      ensures Shape() && Result(State(), rc, None) == MysqlSpec.BindParms(lib.tape, old(State()))
    {
      hide Numbered, MysqlCursorSpec.BindParm;
      rc := cursor.BindParm(lib);
      assert Table() == old(Table());
    }

    method SendScratch(data: string) returns (rc: int)
      requires Shape()
      modifies lib
      ensures Shape() && Result(State(), rc, None) == MysqlSpec.SendScratch(lib.tape, old(State()), data)
    {
      hide Numbered, MysqlCursorSpec.BindLargeParm;
      rc := cursor.BindLargeParm(lib, data);
      assert Table() == old(Table());
    }

    method WriteScratch() returns (rc: int)
      requires Shape()
      modifies lib
      ensures Shape() && Result(State(), rc, None) == MysqlSpec.WriteScratch(lib.tape, old(State()))
    {
      hide Numbered, MysqlCursorSpec.ExecuteNonSelect;
      rc := cursor.ExecuteNonSelect(lib);
      assert Table() == old(Table());
    }

    // -------------------------------------------------------------- connection and transactions

    method ConnectNative() returns (rc: int)
      requires Valid()
      modifies this, lib
      ensures Valid() && Result(State(), rc, None) == MysqlSpec.ConnectNative(lib.tape, old(State()))
    {
      hide Numbered, BooksOk;
      ghost var d := State();
      ConnectNativeBooks(lib.tape, d);
      if connected {
        return -1;
      }
      var code := lib.Connect();
      assert Table() == d.table;
      if code != 0 {
        return -1;
      }
      connected := true;
      trans := false;
      assert Table() == d.table;
      return 0;
    }

    method Connect(user: string, password: string, host: string) returns (rc: int)
      requires Valid()
      modifies this, lib
      ensures Valid() && Result(State(), rc, None) == MysqlSpec.Connect(lib.tape, old(State()), user, password, host)
    {
      hide BooksOk, MysqlSpec.ConnectNative;
      if |user| > 63 || |password| > 127 || |host| > 63 {
        return -1;
      }
      rc := ConnectNative();
    }

    method Disconnect() returns (rc: int)
      requires Valid()
      modifies this, lib, cursor
      ensures Valid() && Result(State(), rc, None) == MysqlSpec.Disconnect(old(State()))
    {
      hide BooksOk, MysqlSpec.CloseScratch;
      DisconnectBooks(State());
      CloseScratch();
      ghost var d := State();
      if !connected {
        return -1;
      }
      lib.EndSession();
      connected := false;
      assert Table() == d.table;
      return 0;
    }

    method BeginTrans()
      requires Valid()
      modifies this, lib
      ensures Valid() && State() == MysqlSpec.BeginTrans(old(State()))
    {
      hide BooksOk;
      TransactionBooks(State());
      if trans {
        lib.Commit();
      }
      trans := true;
      assert Table() == old(Table());
    }

    method CommitTrans()
      requires Shape()
      modifies this, lib
      ensures Shape() && State() == MysqlSpec.CommitTrans(old(State()))
    {
      lib.Commit();
      trans := false;
      assert Table() == old(Table());
    }

    method RollbackTrans()
      requires Shape()
      modifies this, lib
      ensures Shape() && State() == MysqlSpec.RollbackTrans(old(State()))
    {
      lib.Rollback();
      trans := false;
      assert Table() == old(Table());
    }

    // -------------------------------------------------------------- statements on the scratch cursor

    method InSetSql(text: string) returns (rc: int)
      requires Valid()
      modifies lib, cursor
      ensures Valid() && Result(State(), rc, None) == MysqlSpec.InSetSql(lib.tape, old(State()), text)
    {
      hide BooksOk, MysqlSpec.CloseScratch, MysqlSpec.OpenScratch, MysqlSpec.PrepareScratch;
      InSetSqlBooks(lib.tape, State(), text);
      CloseScratch();
      rc := OpenScratch();
      if rc < 0 {
        return -1;
      }
      rc := PrepareScratch(text);
      if rc < 0 {
        CloseScratch();
        return -1;
      }
      return 0;
    }

    method InExec(isCommit: bool) returns (rc: int)
      requires Valid() && cursor.isOpen
      modifies this, lib, cursor
      ensures Valid() && Result(State(), rc, None) == MysqlSpec.InExec(lib.tape, old(State()), isCommit)
    {
      hide BooksOk, MysqlSpec.CloseScratch, MysqlSpec.WriteScratch, MysqlSpec.CommitTrans, MysqlSpec.RollbackTrans;
      InExecBooks(lib.tape, State(), isCommit);
      rc := WriteScratch();
      if rc < 0 {
        RollbackTrans();
        CloseScratch();
        return -1;
      }
      if isCommit {
        CommitTrans();
      }
      CloseScratch();
      return 0;
    }

    /** `affected` is set only when the caller asks for it, and only on success. */
    method ExecuteSql(text: string, wantCount: bool, isCommit: bool) returns (rc: int, affected: Option<int>)
      requires Valid()
      modifies this, lib, cursor
      ensures Valid()
      ensures Result(State(), rc, affected) == MysqlSpec.ExecuteSql(lib.tape, old(State()), text, wantCount, isCommit)
    {
      hide BooksOk, MysqlSpec.CloseScratch, MysqlSpec.OpenScratch, MysqlSpec.PrepareScratch, MysqlSpec.WriteScratch,
        MysqlSpec.CountScratch, MysqlSpec.CommitTrans, MysqlSpec.RollbackTrans;
      ExecuteSqlBooks(lib.tape, State(), text, wantCount, isCommit);
      affected := None;
      rc := OpenScratch();
      if rc < 0 {
        return -1, None;
      }
      rc := PrepareScratch(text);
      if rc < 0 {
        CloseScratch();
        return -1, None;
      }
      rc := WriteScratch();
      if rc < 0 {
        RollbackTrans();
        CloseScratch();
        return -1, None;
      }
      if wantCount {
        var n := CountScratch();
        affected := Some(n);
      }
      if isCommit {
        CommitTrans();
      }
      CloseScratch();
      rc := 0;
    }

    method GetRec(text: string) returns (rc: int)
      requires Valid()
      modifies lib, cursor
      ensures Valid() && Result(State(), rc, None) == MysqlSpec.GetRec(lib.tape, old(State()), text)
    {
      hide BooksOk, MysqlSpec.CloseScratch, MysqlSpec.OpenScratch, MysqlSpec.PrepareScratch, MysqlSpec.DefineScratch,
        MysqlSpec.SelectScratch, MysqlSpec.FetchScratch;
      GetRecBooks(lib.tape, State(), text);
      OpenScratchBooks(lib.tape, State());
      rc := OpenScratch();
      if rc < 0 {
        return -1;
      }
      PrepareBooks(lib.tape, State(), text);
      rc := PrepareScratch(text);
      if rc < 0 {
        CloseScratch();
        return -1;
      }
      BooksGiveCursorOk(State());
      rc := DefineScratch();
      if rc < 0 {
        CloseScratch();
        return -1;
      }
      rc := SelectScratch();
      if rc < 0 {
        CloseScratch();
        return -1;
      }
      rc := FetchScratch();
      if rc != 0 {
        CloseScratch();
        if rc == MYSQL_NO_DATA || rc == MYSQL_DATA_TRUNCATED {
          return -3;
        } else {
          return -1;
        }
      }
      CloseScratch();
      return 0;
    }

    /** isTable takes the steps of getRec, on a statement of its own. */
    method IsTable(name: string) returns (found: bool)
      requires Valid()
      modifies lib, cursor
      ensures Valid() && Result(State(), if found then 0 else -1, None)
              == MysqlSpec.IsTable(lib.tape, old(State()), name)
    {
      hide BooksOk, MysqlSpec.GetRec, ShowTables, Shape;
      var rc := GetRec(ShowTables(name));
      found := rc == 0;
    }

    static lemma BooksGiveCursorOk(d: Driver)
      requires BooksOk(d)
      ensures CursorOk(d.scratch)
    {
    }

    method CheckSql(text: string) returns (ok: bool)
      requires Valid()
      modifies lib, cursor
      ensures Valid() && Result(State(), if ok then 0 else -1, None) == MysqlSpec.CheckSql(lib.tape, old(State()), text)
    {
      hide BooksOk, MysqlSpec.CloseScratch, MysqlSpec.InSetSql;
      var rc := InSetSql(text);
      CloseScratchBooks(State());
      if rc < 0 {
        CloseScratch();
        return false;
      }
      CloseScratch();
      return true;
    }

    // -------------------------------------------------------------- parameters

    method PhFree()
      requires Shape()
      modifies this
      ensures Shape() && State() == MysqlSpec.PhFree(old(State()))
    {
      sql := "";
      slots := BlankSlots();
      assert Table() == old(Table());
    }

    method PhSetSql(text: Option<string>) returns (rc: int)
      requires Valid() && FitsBuffer(text)
      modifies this
      ensures Valid() && Result(State(), rc, None) == MysqlSpec.PhSetSql(old(State()), text)
    {
      hide BooksOk, Rewrite, TextIn;
      PhSetSqlBooks(State(), text);
      if text.None? {
        return -1;
      }
      if |text.value| >= BUFFER_LENGTH {
        return -1;
      }
      var temp := FillBuffer(text.value);
      assert Table() == old(Table());
      PhFree();
      sql := TextIn(temp[..]);
      assert Table() == old(Table());
      return 0;
    }

    method PhSetParm(n: nat, ty: int, value: Pointer, len: int) returns (rc: int)
      requires Valid() && n != SLOTS && |slots| == SLOTS
      modifies this
      ensures Valid() && Result(State(), rc, None) == MysqlSpec.PhSetParm(old(State()), n, ty, value, len)
    {
      hide BooksOk;
      ParameterBooks(State(), n, ty, value, len);
      if value.Null? {
        return -1;
      }
      if n > SLOTS {
        return -1;
      }
      slots := slots[n := slots[n].(ty := ty)];
      slots := slots[n := slots[n].(data := value)];
      if len != 0 {
        slots := slots[n := slots[n].(len := len)];
      }
      assert slots == old(slots)[n := Slot(ty, if len != 0 then len else old(slots)[n].len, value)];
      assert Table() == old(Table());
      return 0;
    }

    /** The binding loop of phExecute; false when a slot has a type that cannot be bound. */
    method BindSlots() returns (ok: bool)
      requires Shape() && |slots| == SLOTS && cursor.parms.Some? && SetPrefix(slots) <= |cursor.parms.value|
      modifies cursor`parms
      ensures Shape() && cursor.parms.Some?
      ensures var (c, bound) := MysqlSpec.BindSlots(old(cursor.State()), slots, 0);
              ok == bound && State() == old(State()).(scratch := c)
    {
      var i := 0;
      while i < SLOTS
        invariant 0 <= i <= SLOTS && i <= SetPrefix(slots)
        invariant cursor.parms.Some? && |cursor.parms.value| == old(|cursor.parms.value|)
        invariant MysqlSpec.BindSlots(cursor.State(), slots, i) == MysqlSpec.BindSlots(old(cursor.State()), slots, 0)
        invariant Table() == old(Table())
      {
        var slot := slots[i];
        if slot.data.Null? {
          break;
        }
        if slot.ty == SQL_INT {
          cursor.BindPos(i, Bind(MYSQL_TYPE_LONG, slot.data, 4, None));
        } else if slot.ty == SQL_LONG {
          cursor.BindPos(i, Bind(MYSQL_TYPE_LONGLONG, slot.data, 8, None));
        } else if slot.ty == SQL_STRING {
          cursor.BindPos(i, Bind(MYSQL_TYPE_STRING, slot.data, slot.len, Some(StrLen(slot.data))));
        } else if slot.ty == SQL_BINARY {
          cursor.BindPos(i, Bind(MYSQL_TYPE_BLOB, slot.data, slot.len, None));
        } else {
          return false;
        }
        i := i + 1;
      }
      return true;
    }

    method PhExecute(isCommit: bool) returns (rc: int)
      requires Valid() && RoomForSlots(lib.tape, State())
      modifies this, lib, cursor
      ensures Valid() && Result(State(), rc, None) == MysqlSpec.PhExecute(lib.tape, old(State()), isCommit)
    {
      hide BooksOk, MysqlSpec.InSetSql, MysqlSpec.AllocateParms, MysqlSpec.BindSlots, MysqlSpec.BindParms,
        MysqlSpec.CloseScratch, MysqlSpec.InExec, MysqlSpec.PhFree;
      ghost var d := State();
      PhExecuteBooks(lib.tape, d, isCommit);
      if !connected {
        return -1;
      }
      InSetSqlBooks(lib.tape, d, sql);
      rc := InSetSql(sql);
      if rc < 0 {
        return -1;
      }
      BooksGiveSlots(d);
      AllocateParmsBooks(lib.tape, State());
      rc := AllocateParms();
      if rc < 0 {
        CloseScratch();
        PhFree();
        return -1;
      }
      ghost var bare := State();
      var ok := BindSlots();
      BindSlotsKeepsHandles(bare.scratch, slots, 0);
      ParmsBooks(bare, cursor.State());
      if !ok {
        CloseScratch();
        PhFree();
        return -1;
      }
      BindParmsBooks(lib.tape, State());
      rc := BindParms();
      if rc != 0 {
        CloseScratch();
        PhFree();
        return -1;
      }
      rc := InExec(isCommit);
      if rc < 0 {
        return -1;
      }
      PhFree();
      return 0;
    }

    static lemma BooksGiveSlots(d: Driver)
      requires BooksOk(d)
      ensures |d.slots| == SLOTS
    {
    }

    // -------------------------------------------------------------- long columns

    /** What setLongFld and beginLoadBinaryData have in common. */
    method BeginLong(text: Option<string>, bind: Option<Bind>) returns (rc: int)
      requires Valid() && FitsBuffer(text)
      modifies this, lib, cursor
      ensures Valid() && Result(State(), rc, None) == MysqlSpec.BeginLong(lib.tape, old(State()), text, bind)
    {
      hide BooksOk, MysqlSpec.PhSetSql, MysqlSpec.InSetSql, MysqlSpec.AllocateParms, MysqlSpec.BindParms,
        MysqlSpec.CloseScratch, Table, HandleList.Valid, OwnData, Numbered;
      BeginLongBooks(lib.tape, State(), text, bind);
      rc := PhSetSql(text);
      if rc < 0 {
        return -1;
      }
      InSetSqlBooks(lib.tape, State(), sql);
      rc := InSetSql(sql);
      if rc < 0 {
        return -1;
      }
      rc := AllocateParms();
      if rc < 0 {
        CloseScratch();
        return -1;
      }
      if bind.None? {
        CloseScratch();
        return -1;
      }
      BindFirst(bind.value);
      rc := BindParms();
      if rc != 0 {
        CloseScratch();
        return -1;
      }
      return 0;
    }

    method BeginLoadBinaryData(text: Option<string>, colType: int) returns (rc: int)
      requires Valid() && FitsBuffer(text)
      modifies this, lib, cursor
      ensures Valid() && Result(State(), rc, None)
              == MysqlSpec.BeginLoadBinaryData(lib.tape, old(State()), text, colType)
    {
      hide BooksOk, MysqlSpec.BeginLong;
      rc := BeginLong(text, LoadBind(colType));
    }

    method TransferBinData(data: string) returns (rc: int)
      requires Valid() && cursor.isOpen
      modifies lib, cursor
      ensures Valid() && Result(State(), rc, None) == MysqlSpec.TransferBinData(lib.tape, old(State()), data)
    {
      hide BooksOk, MysqlSpec.SendScratch, MysqlSpec.CloseScratch;
      TransferBooks(lib.tape, State(), data);
      rc := SendScratch(data);
      if rc != 0 {
        CloseScratch();
        return -1;
      }
      return 0;
    }

    method EndLoadBinaryData(isCommit: bool) returns (rc: int)
      requires Valid() && cursor.isOpen
      modifies this, lib, cursor
      ensures Valid() && Result(State(), rc, None) == MysqlSpec.EndLoadBinaryData(lib.tape, old(State()), isCommit)
    {
      hide BooksOk, MysqlSpec.InExec;
      InExecBooks(lib.tape, State(), isCommit);
      rc := InExec(isCommit);
      if rc < 0 {
        return -1;
      }
      return 0;
    }

    method SetLongFld(text: Option<string>, msg: Pointer, length: nat, longType: int, isCommit: bool) returns (rc: int)
      requires Valid() && FitsBuffer(text) && (msg.To? && longType == SQL_BINARY ==> length <= |msg.text|)
      modifies this, lib, cursor
      ensures Valid()
      ensures Result(State(), rc, None)
              == MysqlSpec.SetLongFld(lib.tape, old(State()), text, msg, length, longType, isCommit)
    {
      hide BooksOk, MysqlSpec.BeginLong, MysqlSpec.TransferBinData, MysqlSpec.InExec;
      if msg.Null? {
        return -1;
      }
      BeginLongBooks(lib.tape, State(), text, LongBind(msg, length, longType));
      rc := BeginLong(text, LongBind(msg, length, longType));
      if rc < 0 {
        return -1;
      }
      TransferBooks(lib.tape, State(), LongData(msg, length, longType));
      rc := TransferBinData(LongData(msg, length, longType));
      if rc < 0 {
        return -1;
      }
      InExecBooks(lib.tape, State(), isCommit);
      rc := InExec(isCommit);
      if rc < 0 {
        return -1;
      }
      return 0;
    }

    // -------------------------------------------------------------- queries

    /** Looking up in the table is looking up in the list. */
    lemma FindIsPosition(handle: int)
      ensures Find(Table(), handle) == Position(list.Entries(), handle)
    {
      PositionIs(list.Entries(), handle, Find(Table(), handle));
    }

    lemma ListedIn(k: nat)
      requires k < |list.nodes|
      ensures list.nodes[k].data in Cursors()
    {
      assert list.nodes[k] in list.nodes;
    }

    /** The table after one node is unlinked and nothing else has changed. */
    twostate lemma TableWithout(k: nat)
      requires k < |old(list.nodes)|
      requires list.nodes == old(list.nodes)[..k] + old(list.nodes)[k + 1..]
      requires forall i :: 0 <= i < |old(list.nodes)| ==>
                 old(list.nodes)[i].handle == old(list.nodes[i].handle)
                 && old(list.nodes)[i].data.State() == old(list.nodes[i].data.State())
      ensures Table() == old(Table())[..k] + old(Table())[k + 1..]
      ensures Cursors() <= old(Cursors())
    {
      forall i | 0 <= i < |list.nodes|
        ensures list.nodes[i] == old(list.nodes)[if i < k then i else i + 1]
      {
      }
    }

    /** Unlinks the query under a handle; its cursor is untouched, and no longer of this driver. */
    method UnlinkQuery(handle: int) returns (rc: int, gone: MysqlCursor?)
      requires Shape()
      modifies list, list.nodes
      ensures Shape() && list.index == old(list.index) && Cursors() <= old(Cursors())
      ensures forall n :: n in list.nodes ==> n in old(list.nodes)
      ensures var k := Find(old(Table()), handle);
              if k == |old(Table())| then rc == 1 && gone == null && Table() == old(Table())
              else
                && rc == 0 && gone != null && gone in old(Cursors()) && gone !in Cursors() && gone != cursor
                && gone.State() == old(Table())[k].cursor
                && list.nodes == old(list.nodes)[..k] + old(list.nodes)[k + 1..]
                && Table() == old(Table())[..k] + old(Table())[k + 1..]
    {
      hide HandleList.Valid, OwnData, Removed, Position, Find, HandleList.Entries, Table;
      FindIsPosition(handle);
      ghost var nodes, k := list.nodes, Find(Table(), handle);
      if k < |nodes| {
        ListedIn(k);
        OwnDataWithout(nodes, cursor, k);
        OwnDataAt(nodes, cursor, k);
      }
      var node;
      rc, node := list.Del(handle);
      if node == null {
        gone := null;
        assert Table() == old(Table());
      } else {
        gone := node.data;
        TableWithout(k);
      }
    }

    /** Unlinks the query under a handle and destroys its cursor. */
    method DeleteQuery(handle: int) returns (rc: int)
      requires Shape() && (forall i :: 0 <= i < |Table()| ==> CursorOk(Table()[i].cursor))
      modifies lib, list, list.nodes, Cursors()
      ensures Shape() && list.index == old(list.index) && Cursors() <= old(Cursors())
              && cursor.State() == old(cursor.State())
      ensures forall n :: n in list.nodes ==> n in old(list.nodes)
      ensures var k := Find(old(Table()), handle);
              if k == |old(Table())| then rc == 1 && Table() == old(Table()) && lib.server == old(lib.server)
              else
                && rc == 0
                && list.nodes == old(list.nodes)[..k] + old(list.nodes)[k + 1..]
                && Table() == old(Table())[..k] + old(Table())[k + 1..]
                && lib.server == MysqlCursorSpec.Destroy(old(lib.server), old(Table())[k].cursor)
    {
      hide MysqlCursorSpec.Destroy, Numbered, CursorOk;
      var gone;
      rc, gone := UnlinkQuery(handle);
      if gone != null {
        ghost var table := Table();
        gone.Destroy(lib);
        assert Table() == table;
      }
    }

    /** Deletes the query at the head of the list. */
    method DeleteFirst()
      requires Shape() && list.pHead != null && (forall i :: 0 <= i < |Table()| ==> CursorOk(Table()[i].cursor))
      modifies lib, list, list.nodes, Cursors()
      ensures Shape() && list.index == old(list.index) && Cursors() <= old(Cursors())
              && cursor.State() == old(cursor.State())
      ensures old(list.nodes) != [] && list.nodes == old(list.nodes)[1..] && list.pHead == old(list.pHead.next)
      ensures Table() == old(Table())[1..]
              && lib.server == MysqlCursorSpec.Destroy(old(lib.server), old(Table())[0].cursor)
      ensures forall i :: 0 <= i < |Table()| ==> CursorOk(Table()[i].cursor)
    {
      hide MysqlCursorSpec.Destroy, Find, HandleList.Entries, OwnData, CursorOk, Numbered, Table, Position, Silent;
      HeadIsFirst();
      ghost var table, nodes := Table(), list.nodes;
      var _ := DeleteQuery(list.pHead.handle);
      assert table[..0] + table[1..] == table[1..] && nodes[..0] + nodes[1..] == nodes[1..];
    }

    /** Every query deleted, from the head of the list on. */
    method FreeTable()
      requires Valid()
      modifies lib, list, list.nodes, Cursors()
      ensures Valid() && State() == MysqlSpec.FreeTable(old(State())) && list.nodes == []
    {
      hide BooksOk, MysqlCursorSpec.Destroy, Find, HandleList.Entries, OwnData, CursorOk, Numbered, Table, Silent;
      ghost var d := State();
      FreeTableBooks(d);
      BooksGiveTableOk(d);
      ghost var gone := 0;
      var curptr := list.pHead;
      while curptr != null
        invariant Shape() && curptr == list.pHead && list.index == d.index && cursor.State() == d.scratch
        invariant Cursors() <= old(Cursors()) && gone <= |old(list.nodes)| && list.nodes == old(list.nodes)[gone..]
        invariant forall i :: 0 <= i < |Table()| ==> CursorOk(Table()[i].cursor)
        invariant DestroyAll(lib.server, Table()) == DestroyAll(d.server, d.table)
        decreases |list.nodes|
      {
        var nextptr := curptr.next;
        DeleteFirst();
        gone := gone + 1;
        curptr := nextptr;
      }
      assert Table() == [];
    }

    static lemma BooksGiveTableOk(d: Driver)
      requires BooksOk(d)
      ensures forall i :: 0 <= i < |d.table| ==> CursorOk(d.table[i].cursor)
      ensures forall i :: 0 <= i < |d.table| ==> d.table[i].handle <= d.index
    {
    }

    lemma HeadIsFirst()
      requires Shape() && list.pHead != null
      ensures |Table()| > 0 && Find(Table(), list.pHead.handle) == 0
    {
    }

    /** Opens, prepares, defines and executes a query on its own cursor. */
    method TryQuery(ptr: MysqlCursor, text: string) returns (rc: int)
      requires ptr.State() == NEW_CURSOR
      modifies lib, ptr
      ensures var o := OpenQuery(lib.tape, old(lib.server), connected, text);
              && rc == o.rc && CursorOk(ptr.State()) && (rc == 0 || rc == -1)
              && if rc == 0 then lib.server == o.server && ptr.State() == o.cursor
                 else MysqlCursorSpec.Destroy(lib.server, ptr.State()) == o.server
    {
      hide MysqlCursorSpec.OpenCur, PrepareCur, MysqlCursorSpec.Define, MysqlCursorSpec.ExecuteSelect,
        MysqlCursorSpec.CloseCur, MysqlCursorSpec.Destroy, Numbered, Tidy, CursorOk, DefineOk;
      NewCursorOk();
      OpenCurTidy(lib.tape, lib.server, NEW_CURSOR, connected);
      rc := ptr.OpenCur(lib, connected);
      if rc < 0 {
        return -1;
      }
      PrepareTidy(lib.tape, lib.server, ptr.State(), text);
      rc := ptr.Prepare(lib, text);
      if rc < 0 {
        CloseCurTidy(lib.server, ptr.State());
        var _ := ptr.CloseCur(lib);
        return -1;
      }
      DefineTidy(lib.tape, lib.server, ptr.State());
      rc := ptr.Define(lib);
      if rc < 0 {
        CloseCurTidy(lib.server, ptr.State());
        var _ := ptr.CloseCur(lib);
        return -1;
      }
      SelectTidy(lib.tape, lib.server, ptr.State());
      rc := ptr.ExecuteSelect(lib);
      if rc < 0 {
        CloseCurTidy(lib.server, ptr.State());
        var _ := ptr.CloseCur(lib);
        return -1;
      }
      return 0;
    }

    static lemma NewCursorOk()
      ensures CursorOk(NEW_CURSOR)
    {
    }

    /** Lists a new cursor under the next handle. */
    method AddQuery() returns (hd: int, ptr: MysqlCursor)
      requires Shape()
      modifies list, list.nodes
      ensures Shape() && hd == list.index == old(list.index) + 1
      ensures fresh(ptr) && ptr.State() == NEW_CURSOR && Cursors() == old(Cursors()) + {ptr}
      ensures |list.nodes| == |old(list.nodes)| + 1 && list.nodes[|old(list.nodes)|].data == ptr
      ensures list.nodes[..|old(list.nodes)|] == old(list.nodes) && fresh(list.nodes[|old(list.nodes)|])
      ensures Table() == old(Table()) + [Listed(hd, NEW_CURSOR)]
    {
      hide Numbered, CursorOk, OwnData, HandleList.Valid, HandleList.Entries;
      ghost var nodes := list.nodes;
      ptr := new MysqlCursor();
      forall i | 0 <= i < |nodes|
        ensures nodes[i].data != ptr
      {
        ListedIn(i);
      }
      var node;
      hd, node := list.AddNext(ptr);
      OwnDataAppend(nodes, cursor, node);
      TableAppended(nodes);
    }

    lemma TableAppended(nodes: seq<Node<MysqlCursor>>)
      requires |list.nodes| == |nodes| + 1 && list.nodes[..|nodes|] == nodes
      ensures Cursors() == (set n | n in nodes :: n.data) + {list.nodes[|nodes|].data}
      ensures forall i :: 0 <= i < |nodes| ==> list.nodes[i] == nodes[i]
    {
      assert list.nodes == nodes + [list.nodes[|nodes|]];
    }

    /** The listed cursor at position `k` changes, and no other. */
    twostate lemma TableWithUpdate(k: nat)
      requires old(Shape()) && k < |old(list.nodes)| && list.nodes == old(list.nodes)
      requires forall i :: 0 <= i < |list.nodes| ==> list.nodes[i].handle == old(list.nodes[i].handle)
      requires forall i :: 0 <= i < |list.nodes| && i != k ==> unchanged(list.nodes[i].data)
      ensures Table() == old(Table())[k := old(Table())[k].(cursor := list.nodes[k].data.State())]
    {
    }

    /** Opens the query that was just listed. */
    method OpenListed(hd: int, text: string) returns (rc: int)
      requires Shape() && |list.nodes| > 0 && Table()[|list.nodes| - 1] == Listed(hd, NEW_CURSOR)
      modifies lib, list.nodes[|list.nodes| - 1].data
      ensures Shape() && (rc == 0 || rc == -1)
      ensures var k := |list.nodes| - 1;
              var o := OpenQuery(lib.tape, old(lib.server), connected, text);
              var last := list.nodes[k].data.State();
              && rc == o.rc && CursorOk(last)
              && Table() == old(Table())[..k] + [Listed(hd, last)]
              && if rc == 0 then lib.server == o.server && last == o.cursor
                 else MysqlCursorSpec.Destroy(lib.server, last) == o.server
    {
      hide OpenQuery, MysqlCursorSpec.Destroy, CursorOk, Numbered, Table;
      var k := |list.nodes| - 1;
      ghost var table := Table();
      rc := TryQuery(list.pTail.data, text);
      TableWithUpdate(k);
      assert table[k := table[k].(cursor := list.nodes[k].data.State())]
        == table[..k] + [Listed(hd, list.nodes[k].data.State())];
    }

    static lemma FindLast(table: seq<Listed>, index: int, last: Listed)
      requires (forall i :: 0 <= i < |table| ==> table[i].handle <= index) && index < last.handle
      ensures Find(table + [last], last.handle) == |table|
    {
      FindIs(table + [last], last.handle, |table|);
    }

    method Query(text: Option<string>) returns (rc: int, handle: Option<int>)
      requires Valid()
      modifies lib, list, list.nodes, Cursors()
      ensures Valid() && Result(State(), rc, handle) == MysqlSpec.Query(lib.tape, old(State()), text)
      ensures fresh(Cursors() - old(Cursors()))
    {
      hide BooksOk, OpenQuery, MysqlCursorSpec.Destroy, Find, HandleList.Entries, HandleList.Valid, OwnData,
        CursorOk, Table, Numbered, Cursors;
      ghost var d := State();
      QueryBooks(lib.tape, d, text);
      BooksGiveTableOk(d);
      if text.None? {
        return -1, None;
      }
      var hd, ptr := AddQuery();
      rc := OpenListed(hd, text.value);
      ghost var last := Listed(hd, list.nodes[|d.table|].data.State());
      assert Table() == d.table + [last];
      if rc < 0 {
        FindLast(d.table, d.index, last);
        var _ := DeleteQuery(hd);
        assert Table() == d.table;
        return -1, None;
      }
      handle := Some(hd);
      rc := 0;
    }

    /** Position and cursor of the query under a handle. */
    method FindQuery(handle: int) returns (ptr: MysqlCursor?)
      requires Shape()
      ensures var k := Find(Table(), handle);
              if k == |Table()| then ptr == null else ptr == list.nodes[k].data && ptr in Cursors() && ptr != cursor
    {
      FindIsPosition(handle);
      var node := list.FindNode(handle);
      if node == null {
        return null;
      }
      return node.data;
    }

    method Fetch(handle: int) returns (rc: int)
      requires Valid()
      modifies lib, Cursors()
      ensures Valid() && Result(State(), rc, None) == MysqlSpec.FetchQuery(lib.tape, old(State()), handle)
    {
      hide BooksOk, MysqlCursorSpec.Fetch, Find, HandleList.Valid, Table, OwnData, HandleList.Entries, Position,
        Numbered;
      ghost var d := State();
      ghost var k := Find(d.table, handle);
      FetchQueryBooks(lib.tape, d, handle);
      var ptr := FindQuery(handle);
      if ptr == null {
        return -1;
      }
      rc := ptr.Fetch(lib);
      ListedUnchanged(k);
      TableWithUpdate(k);
      if rc != 0 {
        rc := if rc == MYSQL_NO_DATA || rc == MYSQL_DATA_TRUNCATED then -3 else -1;
      }
    }

    /** Only the cursor at position `k` has changed. */
    twostate lemma ListedUnchanged(k: nat)
      requires old(Shape()) && k < |old(list.nodes)| && list.nodes == old(list.nodes)
      requires forall c :: c in old(Cursors()) && c != list.nodes[k].data ==> unchanged(c)
      ensures forall i :: 0 <= i < |list.nodes| && i != k ==> unchanged(list.nodes[i].data)
    {
      forall i | 0 <= i < |list.nodes| && i != k
        ensures unchanged(list.nodes[i].data)
      {
        assert old(list.nodes)[i] in old(list.nodes);
        assert list.nodes[i].data in old(Cursors());
      }
    }

    method GetCurRec(handle: int) returns (rc: int, rowCount: Option<int>)
      requires Valid()
      modifies lib
      ensures Valid() && Result(State(), rc, rowCount) == MysqlSpec.GetCurRec(lib.tape, old(State()), handle)
    {
      hide BooksOk, MysqlCursorSpec.AffectRec, Find, HandleList.Valid, Table, OwnData, HandleList.Entries,
        Position, Numbered;
      ghost var d := State();
      FetchQueryBooks(lib.tape, d, handle);
      var ptr := FindQuery(handle);
      assert State() == d;
      if ptr == null {
        rc, rowCount := -1, None;
      } else {
        var n := ptr.AffectRec(lib);
        TableWithUpdate(Find(d.table, handle));
        rc, rowCount := 0, Some(n);
      }
    }

    /** Closes the cursor at position `k` of the list, which stays listed. */
    method CloseListed(ptr: MysqlCursor, ghost k: nat)
      requires Shape() && k < |list.nodes| && ptr == list.nodes[k].data && ptr != cursor && CursorOk(Table()[k].cursor)
      modifies lib, ptr
      ensures Shape() && cursor.State() == old(cursor.State())
      ensures var o := MysqlCursorSpec.CloseCur(old(lib.server), old(Table())[k].cursor);
              lib.server == o.server && Table() == old(Table())[k := old(Table())[k].(cursor := o.cursor)]
    {
      hide MysqlCursorSpec.CloseCur, HandleList.Valid, Table, CursorOk, Numbered, OwnData, HandleList.Entries;
      var _ := ptr.CloseCur(lib);
      ListedUnchanged(k);
      TableWithUpdate(k);
    }

    method CloseQuery(handle: int) returns (rc: int)
      requires Valid()
      modifies lib, list, list.nodes, Cursors()
      ensures Valid() && Result(State(), rc, None) == MysqlSpec.CloseQuery(old(State()), handle)
    {
      hide BooksOk, MysqlSpec.CloseQuery, MysqlCursorSpec.CloseCur, MysqlCursorSpec.Destroy, Find,
        HandleList.Valid, Table, CursorOk, Numbered, OwnData, HandleList.Entries, Silent;
      ghost var d := State();
      ghost var k := Find(d.table, handle);
      CloseQueryBooks(d, handle);
      ClosingSteps(d, handle);
      var ptr := FindQuery(handle);
      if ptr == null {
        return -1;
      }
      CloseListed(ptr, k);
      var _ := DeleteQuery(handle);
      return 0;
    }

    /** Closing the cursor where it is listed, and then unlinking and destroying it. */
    static lemma ClosingSteps(d: Driver, handle: int)
      requires BooksOk(d)
      ensures var k := Find(d.table, handle);
              if k == |d.table| then MysqlSpec.CloseQuery(d, handle) == Fail(d)
              else
                var o := MysqlCursorSpec.CloseCur(d.server, d.table[k].cursor);
                var table := d.table[k := d.table[k].(cursor := o.cursor)];
                && CursorOk(d.table[k].cursor) && (forall i :: 0 <= i < |table| ==> CursorOk(table[i].cursor))
                && Find(table, handle) == k
                && MysqlSpec.CloseQuery(d, handle)
                  == Ok(d.(server := MysqlCursorSpec.Destroy(o.server, table[k].cursor),
                                                            table := table[..k] + table[k + 1..]))
    {
      hide BooksOk, MysqlCursorSpec.CloseCur, MysqlCursorSpec.Destroy, Find, CursorOk, Numbered;
      BooksGiveTableOk(d);
      var k := Find(d.table, handle);
      if k < |d.table| {
        var o := MysqlCursorSpec.CloseCur(d.server, d.table[k].cursor);
        CloseCurTidy(d.server, d.table[k].cursor);
        var table := d.table[k := d.table[k].(cursor := o.cursor)];
        FindIs(table, handle, k);
        assert table[..k] + table[k + 1..] == d.table[..k] + d.table[k + 1..];
      }
    }

    method Forward(text: Option<string>) returns (rc: int)
      requires Valid()
      modifies lib
      ensures Valid() && Result(State(), rc, None) == MysqlSpec.Forward(lib.tape, old(State()), text)
    {
      hide BooksOk, Table;
      ForwardBooks(lib.tape, State(), text);
      if text.None? {
        return -1;
      }
      var code := lib.AskConnection();
      assert Table() == old(Table());
      if code != 0 {
        return -1;
      }
      return 0;
    }

    /** The reconnection loop; the sleep between attempts is not modelled. */
    method CheckConStatus(maxRetryTimes: int) returns (rc: int)
      requires Valid()
      modifies this, lib, list, list.nodes, Cursors()
      ensures Valid() && Result(State(), rc, None) == MysqlSpec.CheckConStatus(lib.tape, old(State()), maxRetryTimes)
    {
      hide BooksOk, MysqlSpec.ConnectNative, MysqlSpec.FreeTable, Table, HandleList.Valid, OwnData, Numbered, Silent,
        Shape, DestroyAll;
      ghost var d := State();
      CheckConStatusBooks(lib.tape, d, maxRetryTimes);
      AnswerBooks(d);
      var code := lib.AskConnection();
      assert Table() == d.table;
      if connected && code !in LOST_CODES {
        return -1;
      }
      ghost var d0 := State();
      var tryTime := 0;
      while tryTime < maxRetryTimes
        invariant 0 <= tryTime && Valid()
        invariant Retry(lib.tape, State(), tryTime, maxRetryTimes) == Retry(lib.tape, d0, 0, maxRetryTimes)
        invariant list.nodes == [] || (list.nodes == old(list.nodes) && Cursors() == old(Cursors()))
      {
        rc := Reconnect();
        if rc == 0 {
          return tryTime;
        }
        tryTime := tryTime + 1;
      }
      return LOST_CONNECTION;
    }

    /** One attempt: connect anew, and on failure drop every open query. */
    method Reconnect() returns (rc: int)
      requires Valid()
      modifies this, lib, list, list.nodes, Cursors()
      ensures Valid()
      ensures var r := MysqlSpec.ConnectNative(lib.tape, old(State()).(connected := false));
              && (if rc == 0 then r == Result(State(), 0, None)
                  else r.rc == rc && State() == MysqlSpec.FreeTable(r.driver))
              && (list.nodes == [] || (list.nodes == old(list.nodes) && Cursors() == old(Cursors())))
    {
      hide BooksOk, MysqlSpec.ConnectNative, MysqlSpec.FreeTable, Table, HandleList.Valid, OwnData, Numbered, Silent;
      NotConnectedBooks(State());
      connected := false;
      rc := ConnectNative();
      if rc != 0 {
        FreeTable();
      }
    }

    static lemma AnswerBooks(d: Driver)
      requires BooksOk(d)
      ensures BooksOk(d.(server := Answer(d.server)))
    {
    }

    /** The destructor: after it, whatever the calls before it were, nothing of the driver's is live. */
    method Destroy()
      requires Valid()
      modifies this, lib, cursor, list, list.nodes, Cursors()
      ensures lib.server == DestroyDriver(old(State()))
      ensures lib.server.live == multiset{} && !lib.server.misused
    {
      hide BooksOk, MysqlCursorSpec.Destroy, Table, HandleList.Valid, OwnData;
      DestroyBooks(State());
      FreeTable();
      BooksGiveCursorOk(State());
      cursor.Destroy(lib);
      if connected {
        lib.EndSession();
        connected := false;
      }
    }
  }
}
