/**
 `db_cursor` and `oracleapi`: the classes.  Every method is proved to take the state to the one that
 its function in OracleSpec names and to return its code; that the scratch cursor is closed, and the
 books, are the class invariant.  The list of open queries keeps its links in nodes of its own.
 */
module OracleDrivers {
  import opened NativeServer
  import opened NativeLibrary
  import opened HandleLists
  import opened OracleSpec
  import opened OracleRuns

  class OracleCursor {
    var isOpen: bool
    var stmt: nat

    function State(): Cursor
      reads this
    {
      Cursor(isOpen, stmt)
    }

    constructor ()
      ensures State() == NEW_CURSOR
    {
      isOpen, stmt := false, 0;
    }

    method OpenCur(lib: Library, hasEnv: bool) returns (rc: int)
      requires CursorOk(State())
      modifies this, lib
      ensures Outcome(lib.server, State(), rc) == OracleSpec.OpenCur(lib.tape, old(lib.server), old(State()), hasEnv)
    {
      if isOpen {
        return -1;
      }
      stmt := lib.StmtInitIn(hasEnv);
      if stmt == 0 {
        isOpen := false;
        return -1;
      } else {
        isOpen := true;
      }
      return 0;
    }

    method CloseCur(lib: Library) returns (rc: int)
      modifies this, lib
      ensures Outcome(lib.server, State(), rc) == OracleSpec.CloseCur(old(lib.server), old(State()))
    {
      if !isOpen {
        return -1;
      }
      if stmt != 0 {
        lib.Release(stmt);
        stmt := 0;
      }
      isOpen := false;
      return 0;
    }

    method Prepare(lib: Library, sql: string) returns (rc: int)
      modifies lib
      ensures Outcome(lib.server, State(), rc) == PrepareCur(lib.tape, old(lib.server), old(State()), sql)
    {
      var code := lib.Prepare(stmt, sql);
      if code != 0 {
        return -1;
      }
      return 0;
    }

    /** Executing for reading, defining, fetching, counting. */
    method Ask(lib: Library) returns (rc: int)
      modifies lib
      ensures Outcome(lib.server, State(), rc) == AskCur(lib.tape, old(lib.server), old(State()))
    {
      rc := lib.Ask(stmt);
    }

    method BindPos(lib: Library, position: int, bind: Bind) returns (rc: int)
      modifies lib
      ensures Outcome(lib.server, State(), rc) == BindCur(lib.tape, old(lib.server), old(State()), position, bind)
    {
      rc := lib.BindOne(stmt, position, bind);
    }

    method ExecuteNonSelect(lib: Library) returns (rc: int)
      modifies lib
      ensures Outcome(lib.server, State(), rc) == WriteCur(lib.tape, old(lib.server), old(State()))
    {
      rc := lib.StmtExecute(stmt);
    }

    method Destroy(lib: Library)
      modifies this, lib
      ensures lib.server == OracleSpec.Destroy(old(lib.server), old(State()))
    {
      if isOpen {
        var _ := CloseCur(lib);
      }
    }
  }

  lemma {:induction false} FindIs(table: seq<Listed>, handle: int, k: nat)
    requires k <= |table|
    requires forall i :: 0 <= i < k ==> table[i].handle != handle
    requires k < |table| ==> table[k].handle == handle
    ensures Find(table, handle) == k
  {
    if k > 0 {
      FindIs(table[1..], handle, k - 1);
    }
  }

  lemma {:induction false} FirstFreshIs(table: seq<Listed>, draws: seq<int>, k: nat)
    requires draws != [] && !HasHandle(table, draws[|draws| - 1])
    requires k < |draws| && !HasHandle(table, draws[k])
    requires forall i :: 0 <= i < k ==> HasHandle(table, draws[i])
    ensures FirstFresh(table, draws) == k
  {
    if k > 0 {
      FirstFreshIs(table, draws[1..], k - 1);
    }
  }

  /** How a query on its own cursor ends, before the cursor is destroyed if it failed. */
  datatype Opening = Opening(rc: int, executeFailed: bool)

  class OracleDriver {
    const lib: Library
    const cursor: OracleCursor
    const list: HandleList<OracleCursor>
    var connected: bool
    var trans: bool
    var sql: string
    var slots: seq<Slot>

    ghost function Cursors(): set<OracleCursor>
      reads list
    {
      set n | n in list.nodes :: n.data
    }

    ghost function Table(): (table: seq<Listed>)
      reads list, list.nodes, Cursors()
      ensures |table| == |list.nodes|
      ensures forall i :: 0 <= i < |table| ==> table[i] == Listed(list.nodes[i].handle, list.nodes[i].data.State())
    {
      seq(|list.nodes|, i requires 0 <= i < |list.nodes| reads list, list.nodes, Cursors() =>
        assert list.nodes[i] in list.nodes;
        Listed(list.nodes[i].handle, list.nodes[i].data.State()))
    }

    ghost function State(): Driver
      reads this, lib, cursor, list, list.nodes, Cursors()
    {
      Driver(lib.server, connected, trans, cursor.State(), Table(), sql, slots)
    }

    ghost predicate Shape()
      reads list, list.nodes
    {
      list.Valid() && OwnData(list.nodes, cursor)
    }

    /** What holds between calls: the books are right and the scratch cursor is closed. */
    ghost predicate Valid()
      reads this, lib, cursor, list, list.nodes, Cursors()
    {
      Shape() && Idle(State())
    }

    /** The slots are whatever memory held, but phfree has emptied them. */
    constructor (lib: Library, trans: bool, slots: seq<Slot>)
      requires lib.server == FRESH_SERVER && |slots| == SLOTS
      ensures Valid() && Unused(State()) && this.lib == lib && fresh(cursor) && fresh(list) && list.nodes == []
    {
      this.lib := lib;
      cursor := new OracleCursor();
      list := new HandleList();
      connected, this.trans := false, trans;
      sql, this.slots := "", Emptied(slots);
      new;
      assert Table() == [];
      UnusedIsIdle(State());
    }

    // -------------------------------------------------------------- members of the scratch cursor

    method OpenScratch() returns (rc: int)
      requires Shape() && CursorOk(cursor.State())
      modifies lib, cursor
      ensures Shape() && Result(State(), rc, None) == OracleSpec.OpenScratch(lib.tape, old(State()))
    {
      hide Numbered, OracleSpec.OpenCur;
      rc := cursor.OpenCur(lib, connected);
      assert Table() == old(Table());
    }

    method CloseScratch()
      requires Shape()
      modifies lib, cursor
      ensures Shape() && State() == OracleSpec.CloseScratch(old(State()))
    {
      hide Numbered, OracleSpec.CloseCur;
      var _ := cursor.CloseCur(lib);
      assert Table() == old(Table());
    }

    method PrepareScratch(text: string) returns (rc: int)
      requires Shape()
      modifies lib
      ensures Shape() && Result(State(), rc, None) == OracleSpec.PrepareScratch(lib.tape, old(State()), text)
    {
      hide Numbered, PrepareCur;
      rc := cursor.Prepare(lib, text);
      assert Table() == old(Table());
    }

    method AskScratch() returns (rc: int)
      requires Shape()
      modifies lib
      ensures Shape() && Result(State(), rc, None) == OracleSpec.AskScratch(lib.tape, old(State()))
    {
      hide Numbered, AskCur;
      rc := cursor.Ask(lib);
      assert Table() == old(Table());
    }

    method BindScratch(position: int, bind: Bind) returns (rc: int)
      requires Shape()
      modifies lib
      ensures Shape() && Result(State(), rc, None) == OracleSpec.BindScratch(lib.tape, old(State()), position, bind)
    {
      hide Numbered, BindCur;
      rc := cursor.BindPos(lib, position, bind);
      assert Table() == old(Table());
    }

    method WriteScratch() returns (rc: int)
      requires Shape()
      modifies lib
      ensures Shape() && Result(State(), rc, None) == OracleSpec.WriteScratch(lib.tape, old(State()))
    {
      hide Numbered, WriteCur;
      rc := cursor.ExecuteNonSelect(lib);
      assert Table() == old(Table());
    }

    // -------------------------------------------------------------- connection and transactions

    /** db_connect::connect; over the handles of an old connection when `hasEnv`. */
    method Attempt(hasEnv: bool) returns (rc: int)
      requires Valid()
      modifies this, lib
      ensures Valid() && Result(State(), rc, None) == OracleSpec.Attempt(lib.tape, old(State()), hasEnv)
    {
      hide Numbered, BooksOk, ConnectOver;
      ghost var d := State();
      AttemptBooks(lib.tape, d, hasEnv);
      connected := false;
      var code := lib.ConnectOver(hasEnv);
      assert Table() == d.table;
      if code != 0 {
        return -1;
      }
      connected := true;
      trans := false;
      assert Table() == d.table;
      return 0;
    }

    method ConnectNative() returns (rc: int)
      requires Valid()
      modifies this, lib
      ensures Valid() && Result(State(), rc, None) == OracleSpec.ConnectNative(lib.tape, old(State()))
    {
      hide BooksOk, OracleSpec.Attempt;
      if connected {
        return -1;
      }
      rc := Attempt(false);
    }

    method Connect(user: string, password: string, host: string) returns (rc: int)
      requires Valid()
      modifies this, lib
      ensures Valid() && Result(State(), rc, None) == OracleSpec.Connect(lib.tape, old(State()), user, password, host)
    {
      hide BooksOk, OracleSpec.ConnectNative;
      if |user| > 63 || |password| > 127 || |host| > 63 {
        return -1;
      }
      rc := ConnectNative();
    }

    method Disconnect() returns (rc: int)
      requires Valid()
      modifies this, lib, cursor
      ensures Valid() && Result(State(), rc, None) == OracleSpec.Disconnect(old(State()))
    {
      hide BooksOk, OracleSpec.CloseScratch;
      DisconnectBooks(State());
      CloseScratch();
      ghost var d := State();
      if !connected {
        return -1;
      }
      lib.EndSession();
      lib.FreeEnvironment();
      connected := false;
      assert Table() == d.table;
      return 0;
    }

    method BeginTrans()
      requires Valid()
      modifies this, lib
      ensures Valid() && State() == OracleSpec.BeginTrans(old(State()))
    {
      hide BooksOk;
      TransactionBooks(State());
      if trans {
        lib.Commit();
      }
      trans := true;
      assert Table() == old(Table());
    }

    method CommitTrans()
      requires Shape()
      modifies this, lib
      ensures Shape() && State() == OracleSpec.CommitTrans(old(State()))
    {
      lib.Commit();
      trans := false;
      assert Table() == old(Table());
    }

    method RollbackTrans()
      requires Shape()
      modifies this, lib
      ensures Shape() && State() == OracleSpec.RollbackTrans(old(State()))
    {
      lib.Rollback();
      trans := false;
      assert Table() == old(Table());
    }

    method GetErr() returns (code: int)
      requires Shape()
      modifies this, lib
      ensures Shape() && Result(State(), code, None) == OracleSpec.GetErr(lib.tape, old(State()))
    {
      hide OracleSpec.RollbackTrans, Table;
      code := lib.AskConnection();
      assert Table() == old(Table());
      if code in LOST_CODES {
        return LOST_CONNECTION;
      } else if code == MUST_ROLL_BACK {
        RollbackTrans();
      }
    }

    method FailoverCleanup()
      requires Shape()
      modifies this, lib
      ensures Shape() && State() == OracleSpec.FailoverCleanup(lib.tape, old(State()))
    {
      hide OracleSpec.RollbackTrans, OracleSpec.GetErr;
      var code := GetErr();
      if code == MUST_ROLL_BACK {
        RollbackTrans();
      }
    }

    // -------------------------------------------------------------- statements on the scratch cursor

    method InSetSql(text: string) returns (rc: int)
      requires Valid()
      modifies this, lib, cursor
      ensures Shape() && Result(State(), rc, None) == OracleSpec.InSetSql(lib.tape, old(State()), text)
    {
      hide BooksOk, OracleSpec.CloseScratch, OracleSpec.OpenScratch, OracleSpec.PrepareScratch,
        OracleSpec.RollbackTrans;
      CloseScratchBooks(State());
      CloseScratch();
      IdleGivesCursorOk(State());
      rc := OpenScratch();
      if rc != 0 {
        return -1;
      }
      rc := PrepareScratch(text);
      if rc != 0 {
        RollbackTrans();
        CloseScratch();
        return -1;
      }
      return 0;
    }

    static lemma IdleGivesCursorOk(d: Driver)
      requires Idle(d)
      ensures CursorOk(d.scratch) && |d.slots| == SLOTS
    {
    }

    method InExec(isCommit: bool) returns (rc: int)
      requires Shape()
      modifies this, lib, cursor
      ensures Shape() && Result(State(), rc, None) == OracleSpec.InExec(lib.tape, old(State()), isCommit)
    {
      hide OracleSpec.CloseScratch, OracleSpec.WriteScratch, OracleSpec.CommitTrans, OracleSpec.RollbackTrans;
      rc := WriteScratch();
      if rc != 0 {
        RollbackTrans();
        CloseScratch();
        return -1;
      }
      CloseScratch();
      if isCommit {
        CommitTrans();
      }
      return 0;
    }

    method ExecuteSql(text: string, wantCount: bool, isCommit: bool) returns (rc: int, affected: Option<int>)
      requires Valid()
      modifies this, lib, cursor
      ensures Valid()
      ensures Result(State(), rc, affected) == OracleSpec.ExecuteSql(lib.tape, old(State()), text, wantCount, isCommit)
    {
      hide BooksOk, OracleSpec.CloseScratch, OracleSpec.OpenScratch, OracleSpec.PrepareScratch, OracleSpec.WriteScratch,
        OracleSpec.AskScratch, OracleSpec.CommitTrans, OracleSpec.RollbackTrans;
      ExecuteSqlBooks(lib.tape, State(), text, wantCount, isCommit);
      IdleGivesCursorOk(State());
      affected := None;
      rc := OpenScratch();
      if rc != 0 {
        return -1, None;
      }
      rc := PrepareScratch(text);
      if rc != 0 {
        RollbackTrans();
        CloseScratch();
        return -1, None;
      }
      rc := WriteScratch();
      if rc != 0 {
        RollbackTrans();
        CloseScratch();
        return -1, None;
      }
      if wantCount {
        var n := AskScratch();
        affected := Some(n);
      }
      CloseScratch();
      if isCommit {
        CommitTrans();
      }
      rc := 0;
    }

    method GetRec(text: string) returns (rc: int)
      requires Valid()
      modifies this, lib, cursor
      ensures Valid() && Result(State(), rc, None) == OracleSpec.GetRec(lib.tape, old(State()), text)
    {
      hide BooksOk, OracleSpec.CloseScratch, OracleSpec.OpenScratch, OracleSpec.PrepareScratch, OracleSpec.AskScratch,
        OracleSpec.FailoverCleanup;
      GetRecBooks(lib.tape, State(), text);
      IdleGivesCursorOk(State());
      rc := OpenScratch();
      if rc != 0 {
        return -1;
      }
      rc := PrepareScratch(text);
      if rc != 0 {
        CloseScratch();
        return -1;
      }
      rc := AskScratch();
      if rc != 0 {
        CloseScratch();
        FailoverCleanup();
        return if rc == OCI_NO_DATA then -3 else -1;
      }
      rc := AskScratch();
      if rc != 0 {
        CloseScratch();
        return -1;
      }
      rc := AskScratch();
      if rc != 0 && rc != OCI_NEED_DATA {
        CloseScratch();
        return if rc == OCI_NO_DATA then -3 else -1;
      }
      CloseScratch();
      return 0;
    }

    method IsTable(name: string) returns (found: bool)
      requires Valid()
      modifies this, lib, cursor
      ensures Valid() && Result(State(), if found then 0 else -1, None)
              == OracleSpec.IsTable(lib.tape, old(State()), name)
    {
      hide BooksOk, OracleSpec.CloseScratch, OracleSpec.OpenScratch, OracleSpec.PrepareScratch, OracleSpec.AskScratch,
        OracleSpec.FailoverCleanup, TableQuery;
      IsTableBooks(lib.tape, State(), name);
      IdleGivesCursorOk(State());
      var rc := OpenScratch();
      if rc != 0 {
        return false;
      }
      rc := PrepareScratch(TableQuery(name));
      if rc != 0 {
        CloseScratch();
        return false;
      }
      rc := AskScratch();
      if rc != 0 {
        CloseScratch();
        FailoverCleanup();
        return false;
      }
      rc := AskScratch();
      if rc != 0 {
        CloseScratch();
        return false;
      }
      CloseScratch();
      return true;
    }

    method CheckSql(text: Option<string>, isSelect: bool) returns (ok: bool)
      requires Valid()
      modifies this, lib, cursor
      ensures Valid() && Result(State(), if ok then 0 else -1, None)
              == OracleSpec.CheckSql(lib.tape, old(State()), text, isSelect)
    {
      hide BooksOk, OracleSpec.CloseScratch, OracleSpec.OpenScratch, OracleSpec.PrepareScratch, OracleSpec.AskScratch,
        OracleSpec.WriteScratch, OracleSpec.FailoverCleanup;
      CheckSqlBooks(lib.tape, State(), text, isSelect);
      IdleGivesCursorOk(State());
      if text.None? {
        return false;
      }
      var rc := OpenScratch();
      if rc != 0 {
        return false;
      }
      rc := PrepareScratch(text.value);
      if rc != 0 {
        CloseScratch();
        return false;
      }
      if isSelect {
        rc := AskScratch();
        if rc != 0 {
          CloseScratch();
          FailoverCleanup();
          return false;
        }
      } else {
        rc := WriteScratch();
        if rc != 0 {
          CloseScratch();
          return false;
        }
      }
      CloseScratch();
      return true;
    }

    // -------------------------------------------------------------- parameters

    method PhFree()
      requires Shape()
      modifies this
      ensures Shape() && State() == OracleSpec.PhFree(old(State()))
    {
      sql := "";
      var i := 0;
      while i < |slots|
        invariant 0 <= i <= |slots| && |slots| == |old(slots)| && sql == ""
        invariant forall j :: 0 <= j < i ==> slots[j] == old(slots)[j].(data := Null)
        invariant forall j :: i <= j < |slots| ==> slots[j] == old(slots)[j]
        invariant unchanged(`connected) && unchanged(`trans)
      {
        slots := slots[i := slots[i].(data := Null)];
        i := i + 1;
      }
      assert slots == Emptied(old(slots));
      assert Table() == old(Table());
    }

    method PhSetSql(text: Option<string>) returns (rc: int)
      requires Valid()
      modifies this
      ensures Valid() && Result(State(), rc, None) == OracleSpec.PhSetSql(old(State()), text)
    {
      hide BooksOk, OracleSpec.PhFree, Table;
      ghost var d := State();
      ParameterBooks(d, SetInt, 0, Null, text);
      if text.None? {
        return -1;
      }
      if |text.value| >= BUFFER_LENGTH {
        return -1;
      }
      PhFree();
      sql := text.value;
      assert Table() == d.table;
      assert State() == OracleSpec.PhSetSql(d, text).driver;
      return 0;
    }

    method PhSet(setter: Setter, n: nat, value: Pointer) returns (rc: int)
      requires Valid() && |slots| == SLOTS
      modifies this
      ensures Valid() && Result(State(), rc, None) == OracleSpec.PhSet(old(State()), setter, n, value)
    {
      hide BooksOk;
      ParameterBooks(State(), setter, n, value, None);
      if value.Null? {
        return -1;
      }
      if n <= 0 || n > SLOTS {
        return -1;
      }
      slots := slots[n - 1 := slots[n - 1].(ty := TypeOf(setter))];
      if setter.SetLongbyte? {
        slots := slots[n - 1 := slots[n - 1].(len := setter.len)];
      }
      slots := slots[n - 1 := slots[n - 1].(data := value)];
      assert slots == old(slots)[n - 1 := slots[n - 1]];
      assert Table() == old(Table());
      return 0;
    }

    /** The binding loop of phExecute. */
    method BindSlots() returns (rc: int)
      requires Shape() && |slots| == SLOTS
      modifies lib, cursor
      ensures Shape() && Result(State(), rc, None) == OracleSpec.BindSlots(lib.tape, old(State()), 0)
    {
      hide OracleSpec.BindScratch, OracleSpec.CloseScratch, BindOf, Table, HandleList.Valid, OwnData;
      ghost var d := State();
      var count := 0;
      while count < SLOTS
        invariant 0 <= count <= SLOTS && Shape() && |slots| == SLOTS
        invariant OracleSpec.BindSlots(lib.tape, State(), count) == OracleSpec.BindSlots(lib.tape, d, 0)
      {
        var slot := slots[count];
        if slot.data.Null? {
          break;
        }
        if !Supported(slot.ty) {
          return -1;
        }
        rc := BindScratch(count + 1, BindOf(slot));
        if rc < 0 {
          CloseScratch();
          return -1;
        }
        count := count + 1;
      }
      rc := 0;
    }

    method PhExecute(isCommit: bool) returns (rc: int)
      requires Valid()
      modifies this, lib, cursor
      ensures Valid() && Result(State(), rc, None) == OracleSpec.PhExecute(lib.tape, old(State()), isCommit)
    {
      hide BooksOk, OracleSpec.InSetSql, OracleSpec.BindSlots, OracleSpec.InExec, OracleSpec.PhFree, Table;
      ghost var d := State();
      PhExecuteBooks(lib.tape, d, isCommit);
      if !connected {
        return -1;
      }
      InSetSqlBooks(lib.tape, d, sql);
      rc := InSetSql(sql);
      if rc < 0 {
        return -1;
      }
      BooksGiveSlots(State());
      rc := BindSlots();
      if rc < 0 {
        return -1;
      }
      rc := InExec(isCommit);
      if rc < 0 {
        return -1;
      }
      PhFree();
      return 0;
    }

    static lemma BooksGiveSlots(d: Driver)
      requires BooksOk(d)
      ensures |d.slots| == SLOTS
    {
    }

    method SetLongFld(text: string, msg: Pointer, longType: int, isCommit: bool) returns (rc: int)
      requires Valid()
      modifies this, lib, cursor
      ensures Valid() && Result(State(), rc, None)
              == OracleSpec.SetLongFld(lib.tape, old(State()), text, msg, longType, isCommit)
    {
      hide BooksOk, OracleSpec.CloseScratch, OracleSpec.OpenScratch, OracleSpec.PrepareScratch, OracleSpec.BindScratch,
        OracleSpec.WriteScratch, OracleSpec.CommitTrans, OracleSpec.RollbackTrans;
      SetLongFldBooks(lib.tape, State(), text, msg, longType, isCommit);
      IdleGivesCursorOk(State());
      if msg.Null? {
        return 0;
      }
      rc := OpenScratch();
      if rc != 0 {
        return -1;
      }
      rc := PrepareScratch(text);
      if rc != 0 {
        RollbackTrans();
        CloseScratch();
        return -1;
      }
      rc := BindScratch(1, LongBind(msg, longType));
      if rc != 0 {
        CloseScratch();
        return -1;
      }
      rc := WriteScratch();
      if rc != 0 {
        RollbackTrans();
        CloseScratch();
        return -1;
      }
      CloseScratch();
      if isCommit {
        CommitTrans();
      }
      return 0;
    }

    // -------------------------------------------------------------- queries

    lemma FindIsPosition(handle: int)
      ensures Find(Table(), handle) == Position(list.Entries(), handle)
    {
      PositionIs(list.Entries(), handle, Find(Table(), handle));
    }

    lemma ListedIn(k: nat)
      requires k < |list.nodes|
      ensures list.nodes[k].data in Cursors()
    {
      assert list.nodes[k] in list.nodes;
    }

    /** The table after one node is unlinked and nothing else has changed. */
    twostate lemma TableWithout(k: nat)
      requires k < |old(list.nodes)|
      requires list.nodes == old(list.nodes)[..k] + old(list.nodes)[k + 1..]
      requires forall i :: 0 <= i < |old(list.nodes)| ==>
                 old(list.nodes)[i].handle == old(list.nodes[i].handle)
                 && old(list.nodes)[i].data.State() == old(list.nodes[i].data.State())
      ensures Table() == old(Table())[..k] + old(Table())[k + 1..]
      ensures Cursors() <= old(Cursors())
    {
      forall i | 0 <= i < |list.nodes|
        ensures list.nodes[i] == old(list.nodes)[if i < k then i else i + 1]
      {
      }
    }

    method UnlinkQuery(handle: int) returns (rc: int, gone: OracleCursor?)
      requires Shape()
      modifies list, list.nodes
      ensures Shape() && Cursors() <= old(Cursors())
      ensures forall n :: n in list.nodes ==> n in old(list.nodes)
      ensures var k := Find(old(Table()), handle);
              if k == |old(Table())| then rc == 1 && gone == null && Table() == old(Table())
              else
                && rc == 0 && gone != null && gone in old(Cursors()) && gone !in Cursors() && gone != cursor
                && gone.State() == old(Table())[k].cursor
                && list.nodes == old(list.nodes)[..k] + old(list.nodes)[k + 1..]
                && Table() == old(Table())[..k] + old(Table())[k + 1..]
    {
      hide HandleList.Valid, OwnData, Removed, Position, Find, HandleList.Entries, Table;
      FindIsPosition(handle);
      ghost var nodes, k := list.nodes, Find(Table(), handle);
      if k < |nodes| {
        ListedIn(k);
        OwnDataWithout(nodes, cursor, k);
        OwnDataAt(nodes, cursor, k);
      }
      var node;
      rc, node := list.Del(handle);
      if node == null {
        gone := null;
        assert Table() == old(Table());
      } else {
        gone := node.data;
        TableWithout(k);
      }
    }

    /** Unlinks the query under a handle and destroys its cursor. */
    method DeleteQuery(handle: int) returns (rc: int)
      requires Shape()
      modifies lib, list, list.nodes, Cursors()
      ensures Shape() && Cursors() <= old(Cursors()) && cursor.State() == old(cursor.State())
      ensures forall n :: n in list.nodes ==> n in old(list.nodes)
      ensures var k := Find(old(Table()), handle);
              if k == |old(Table())| then rc == 1 && Table() == old(Table()) && lib.server == old(lib.server)
              else
                && rc == 0
                && list.nodes == old(list.nodes)[..k] + old(list.nodes)[k + 1..]
                && Table() == old(Table())[..k] + old(Table())[k + 1..]
                && lib.server == OracleSpec.Destroy(old(lib.server), old(Table())[k].cursor)
    {
      hide OracleSpec.Destroy, Numbered, Table, HandleList.Valid, OwnData, Find;
      var gone;
      rc, gone := UnlinkQuery(handle);
      if gone != null {
        ghost var table := Table();
        gone.Destroy(lib);
        TableAway(gone, table);
      }
    }

    /** A cursor that is not listed does not show in the table. */
    lemma TableAway(gone: OracleCursor, table: seq<Listed>)
      requires gone !in Cursors() && |table| == |list.nodes|
      requires forall i :: 0 <= i < |table| ==>
                 table[i].handle == list.nodes[i].handle
                   && (list.nodes[i].data != gone ==> table[i].cursor == list.nodes[i].data.State())
      ensures Table() == table
    {
      forall i | 0 <= i < |table|
        ensures list.nodes[i].data != gone
      {
        ListedIn(i);
      }
    }

    lemma HeadIsFirst()
      requires Shape() && list.pHead != null
      ensures |Table()| > 0 && Find(Table(), list.pHead.handle) == 0
    {
    }

    method DeleteFirst()
      requires Shape() && list.pHead != null
      modifies lib, list, list.nodes, Cursors()
      ensures Shape() && Cursors() <= old(Cursors()) && cursor.State() == old(cursor.State())
      ensures old(list.nodes) != [] && list.nodes == old(list.nodes)[1..] && list.pHead == old(list.pHead.next)
      ensures Table() == old(Table())[1..] && lib.server == OracleSpec.Destroy(old(lib.server), old(Table())[0].cursor)
    {
      hide OracleSpec.Destroy, Find, HandleList.Entries, OwnData, Numbered, Table, Position, Silent;
      HeadIsFirst();
      ghost var table, nodes := Table(), list.nodes;
      var _ := DeleteQuery(list.pHead.handle);
      assert table[..0] + table[1..] == table[1..] && nodes[..0] + nodes[1..] == nodes[1..];
    }

    method FreeTable()
      requires Valid()
      modifies lib, list, list.nodes, Cursors()
      ensures Valid() && State() == OracleSpec.FreeTable(old(State())) && list.nodes == []
    {
      hide BooksOk, OracleSpec.Destroy, Find, HandleList.Entries, OwnData, Numbered, Table, Silent;
      ghost var d := State();
      FreeTableBooks(d);
      ghost var gone := 0;
      var curptr := list.pHead;
      while curptr != null
        invariant Shape() && curptr == list.pHead && cursor.State() == d.scratch
        invariant Cursors() <= old(Cursors()) && gone <= |old(list.nodes)| && list.nodes == old(list.nodes)[gone..]
        invariant DestroyAll(lib.server, Table()) == DestroyAll(d.server, d.table)
        decreases |list.nodes|
      {
        var nextptr := curptr.next;
        DeleteFirst();
        gone := gone + 1;
        curptr := nextptr;
      }
      assert Table() == [];
    }

    /** One attempt: connect anew, and on failure drop every open query. */
    method Reconnect() returns (rc: int)
      requires Valid()
      modifies this, lib, list, list.nodes, Cursors()
      ensures Valid()
      ensures var r := OracleSpec.Attempt(lib.tape, old(State()), old(connected));
              && (if rc == 0 then r == Result(State(), 0, None)
                  else r.rc == rc && State() == OracleSpec.FreeTable(r.driver))
              && (list.nodes == [] || (list.nodes == old(list.nodes) && Cursors() == old(Cursors())))
    {
      hide BooksOk, OracleSpec.Attempt, OracleSpec.FreeTable, Table, HandleList.Valid, OwnData, Numbered, Silent;
      rc := Attempt(connected);
      if rc != 0 {
        FreeTable();
      }
    }

    method CheckConStatus(maxRetryTimes: int) returns (rc: int)
      requires Valid()
      modifies this, lib, list, list.nodes, Cursors()
      ensures Valid() && Result(State(), rc, None) == OracleSpec.CheckConStatus(lib.tape, old(State()), maxRetryTimes)
    {
      hide BooksOk, OracleSpec.Attempt, OracleSpec.FreeTable, OracleSpec.GetErr, Table, HandleList.Valid,
        OwnData, Numbered, Silent, Shape, DestroyAll;
      ghost var d := State();
      GetErrBooks(lib.tape, d);
      var code := GetErr();
      if connected && code != LOST_CONNECTION {
        return -1;
      }
      ghost var d0 := State();
      RetryBooks(lib.tape, d0, 0, maxRetryTimes);
      var tryTimes := 0;
      while tryTimes < maxRetryTimes
        invariant 0 <= tryTimes && Valid()
        invariant Retry(lib.tape, State(), tryTimes, maxRetryTimes) == Retry(lib.tape, d0, 0, maxRetryTimes)
        invariant list.nodes == [] || (list.nodes == old(list.nodes) && Cursors() == old(Cursors()))
      {
        rc := Reconnect();
        if rc == 0 {
          return 1;
        }
        tryTimes := tryTimes + 1;
      }
      return LOST_CONNECTION;
    }

    /** Draws numbers until one is no handle in use. */
    method DrawHandle(draws: seq<int>, ghost table: seq<Listed>) returns (hd: int)
      requires Shape() && table == Table() && draws != [] && !HasHandle(table, draws[|draws| - 1])
      ensures hd == draws[FirstFresh(table, draws)]
    {
      hide Find, HandleList.Entries, Position, FirstFresh;
      var i := 0;
      while true
        invariant 0 <= i < |draws|
        invariant forall j :: 0 <= j < i ==> HasHandle(table, draws[j])
        decreases |draws| - i
      {
        hd := draws[i];
        FindIsPosition(hd);
        var ptr := list.FindNode(hd);
        if ptr == null {
          break;
        }
        assert table[Find(table, hd)].handle == hd;
        i := i + 1;
      }
      FirstFreshIs(table, draws, i);
    }

    lemma TableAppended(nodes: seq<Node<OracleCursor>>)
      requires |list.nodes| == |nodes| + 1 && list.nodes[..|nodes|] == nodes
      ensures Cursors() == (set n | n in nodes :: n.data) + {list.nodes[|nodes|].data}
      ensures forall i :: 0 <= i < |nodes| ==> list.nodes[i] == nodes[i]
    {
      assert list.nodes == nodes + [list.nodes[|nodes|]];
    }

    /** Lists a new cursor under a handle. */
    method AddQuery(hd: int) returns (ptr: OracleCursor)
      requires Shape()
      modifies list, list.nodes
      ensures Shape() && fresh(ptr) && ptr.State() == NEW_CURSOR && Cursors() == old(Cursors()) + {ptr}
      ensures |list.nodes| == |old(list.nodes)| + 1 && list.nodes[|old(list.nodes)|].data == ptr
      ensures list.nodes[..|old(list.nodes)|] == old(list.nodes) && fresh(list.nodes[|old(list.nodes)|])
      ensures Table() == old(Table()) + [Listed(hd, NEW_CURSOR)]
    {
      hide Numbered, OwnData, HandleList.Valid, HandleList.Entries;
      ghost var nodes := list.nodes;
      ptr := new OracleCursor();
      forall i | 0 <= i < |nodes|
        ensures nodes[i].data != ptr
      {
        ListedIn(i);
      }
      var node := list.Add(hd, ptr);
      OwnDataAppend(nodes, cursor, node);
      TableAppended(nodes);
    }

    /** The listed cursor at position `k` changes, and no other. */
    twostate lemma TableWithUpdate(k: nat)
      requires old(Shape()) && k < |old(list.nodes)| && list.nodes == old(list.nodes)
      requires forall i :: 0 <= i < |list.nodes| ==> list.nodes[i].handle == old(list.nodes[i].handle)
      requires forall i :: 0 <= i < |list.nodes| && i != k ==> unchanged(list.nodes[i].data)
      ensures Table() == old(Table())[k := old(Table())[k].(cursor := list.nodes[k].data.State())]
    {
    }

    static lemma FindLast(table: seq<Listed>, last: Listed)
      requires !HasHandle(table, last.handle)
      ensures Find(table + [last], last.handle) == |table|
    {
      FindIs(table + [last], last.handle, |table|);
    }

    /** What `Opening` and the state of the cursor tell about the attempt. */
    static ghost predicate Tried(t: Tape, s: Server, hasEnv: bool, text: string, opening: Opening, s': Server,
                                 c: Cursor) {
      var o := OpenCur(t, s, NEW_CURSOR, hasEnv);
      var p := PrepareCur(t, o.server, o.cursor, text);
      var e := AskCur(t, p.server, p.cursor);
      var b := AskCur(t, e.server, e.cursor);
      var gone := OracleSpec.Destroy(s', c);
      if o.rc != 0 then opening == Opening(-1, false) && gone == OracleSpec.Destroy(o.server, o.cursor)
      else if p.rc != 0 then opening == Opening(-1, false) && gone == Discard(p.server, p.cursor)
      else if e.rc != 0 then opening == Opening(-1, true) && s' == Discard(e.server, e.cursor) && !c.isOpen
      else if b.rc != 0 then opening == Opening(-1, false) && gone == Discard(b.server, b.cursor)
      else opening == Opening(0, false) && s' == b.server && c == b.cursor
    }

    /** Opens, prepares, executes and defines a query on its own cursor. */
    method TryQuery(ptr: OracleCursor, text: string) returns (opening: Opening)
      requires ptr.State() == NEW_CURSOR
      modifies lib, ptr
      ensures Tried(lib.tape, old(lib.server), connected, text, opening, lib.server, ptr.State())
    {
      hide OracleSpec.OpenCur, PrepareCur, AskCur, Numbered;
      var rc := ptr.OpenCur(lib, connected);
      if rc != 0 {
        return Opening(-1, false);
      }
      rc := ptr.Prepare(lib, text);
      if rc != 0 {
        var _ := ptr.CloseCur(lib);
        return Opening(-1, false);
      }
      rc := ptr.Ask(lib);
      if rc != 0 {
        var _ := ptr.CloseCur(lib);
        return Opening(-1, true);
      }
      rc := ptr.Ask(lib);
      if rc != 0 {
        var _ := ptr.CloseCur(lib);
        return Opening(-1, false);
      }
      return Opening(0, false);
    }

    /** Tries the query that was just listed. */
    method OpenListed(hd: int, text: string) returns (opening: Opening)
      requires Shape() && |list.nodes| > 0 && Table()[|list.nodes| - 1] == Listed(hd, NEW_CURSOR)
      modifies lib, list.nodes[|list.nodes| - 1].data
      ensures var k := |list.nodes| - 1;
              var last := list.nodes[k].data.State();
              && Shape() && Table() == old(Table())[..k] + [Listed(hd, last)]
              && Tried(lib.tape, old(lib.server), connected, text, opening, lib.server, last)
    {
      hide Numbered, Table, Tried;
      var k := |list.nodes| - 1;
      ghost var table := Table();
      opening := TryQuery(list.pTail.data, text);
      TableWithUpdate(k);
      assert table[k := table[k].(cursor := list.nodes[k].data.State())]
        == table[..k] + [Listed(hd, list.nodes[k].data.State())];
    }

    static lemma CleanupKeepsTable(t: Tape, d: Driver, table: seq<Listed>)
      ensures OracleSpec.FailoverCleanup(t, d.(table := table)) == OracleSpec.FailoverCleanup(t, d).(table := table)
    {
    }

    /** What a query does, in terms of how its attempt went. */
    static lemma TriedTells(t: Tape, d: Driver, text: string, draws: seq<int>, opening: Opening, s': Server, c: Cursor)
      requires draws != [] && !HasHandle(d.table, draws[|draws| - 1])
               && Tried(t, d.server, d.connected, text, opening, s', c)
      ensures var hd := draws[FirstFresh(d.table, draws)];
              OracleSpec.Query(t, d, text, draws) ==
                if opening.rc == 0 then Result(d.(server := s', table := d.table + [Listed(hd, c)]), 0, Some(hd))
                else if opening.executeFailed then Fail(OracleSpec.FailoverCleanup(t, d.(server := s')))
                else Fail(d.(server := OracleSpec.Destroy(s', c)))
      ensures opening.executeFailed ==> !c.isOpen
    {
      hide OpenCur, PrepareCur, AskCur, OracleSpec.Destroy, Discard, OracleSpec.FailoverCleanup, HasHandle, FirstFresh;
    }

    static lemma ClosedIsGone(s: Server, c: Cursor)
      requires !c.isOpen
      ensures OracleSpec.Destroy(s, c) == s
    {
    }

    /** Drops the query that was just listed and has failed. */
    method DropListed(hd: int, opening: Opening, ghost kept: Driver, ghost last: Listed)
      requires Shape() && State() == kept.(table := kept.table + [last]) && last.handle == hd
               && !HasHandle(kept.table, hd)
      requires opening.executeFailed ==> !last.cursor.isOpen
      modifies this, lib, list, list.nodes, Cursors()
      ensures Shape() && Cursors() <= old(Cursors())
      ensures State() == if opening.executeFailed then OracleSpec.FailoverCleanup(lib.tape, kept)
                         else kept.(server := OracleSpec.Destroy(kept.server, last.cursor))
    {
      hide OracleSpec.Destroy, OracleSpec.FailoverCleanup, Find, HandleList.Entries, HandleList.Valid, OwnData,
        Table, Numbered, Cursors, HasHandle, Shape, Silent;
      ghost var table := kept.table;
      FindLast(table, last);
      assert (table + [last])[..|table|] + (table + [last])[|table| + 1..] == table;
      if opening.executeFailed {
        CleanupKeepsTable(lib.tape, kept, table + [last]);
        GetErrTable(lib.tape, kept);
        FailoverCleanup();
        ClosedIsGone(lib.server, last.cursor);
      }
      var _ := DeleteQuery(hd);
    }

    /** `draws` are the numbers that rand() returns, up to one that is no handle in use. */
    method Query(text: string, draws: seq<int>) returns (rc: int, handle: Option<int>)
      requires Valid() && draws != [] && !HasHandle(Table(), draws[|draws| - 1])
      modifies this, lib, list, list.nodes, Cursors()
      ensures Valid() && Result(State(), rc, handle) == OracleSpec.Query(lib.tape, old(State()), text, draws)
      ensures fresh(Cursors() - old(Cursors()))
    {
      hide BooksOk, Tried, OracleSpec.Query, OracleSpec.Destroy, OracleSpec.FailoverCleanup, Find, HandleList.Entries,
        HandleList.Valid, OwnData, Table, Numbered, Cursors, HasHandle, FirstFresh, Shape, Idle, Silent;
      ghost var d := State();
      QueryBooks(lib.tape, d, text, draws);
      var hd := DrawHandle(draws, d.table);
      assert hd == draws[FirstFresh(d.table, draws)] && !HasHandle(d.table, hd);
      var ptr := AddQuery(hd);
      var opening := OpenListed(hd, text);
      ghost var last := Listed(hd, list.nodes[|d.table|].data.State());
      assert Table() == d.table + [last];
      TriedTells(lib.tape, d, text, draws, opening, lib.server, last.cursor);
      if opening.rc != 0 {
        DropListed(hd, opening, d.(server := lib.server), last);
        return -1, None;
      }
      handle := Some(hd);
      rc := 0;
    }

    method FindQuery(handle: int) returns (ptr: OracleCursor?)
      requires Shape()
      ensures var k := Find(Table(), handle);
              if k == |Table()| then ptr == null else ptr == list.nodes[k].data && ptr in Cursors() && ptr != cursor
    {
      FindIsPosition(handle);
      var node := list.FindNode(handle);
      if node == null {
        return null;
      }
      return node.data;
    }

    /** Only the cursor at position `k` has changed. */
    twostate lemma ListedUnchanged(k: nat)
      requires old(Shape()) && k < |old(list.nodes)| && list.nodes == old(list.nodes)
      requires forall c :: c in old(Cursors()) && c != list.nodes[k].data ==> unchanged(c)
      ensures forall i :: 0 <= i < |list.nodes| && i != k ==> unchanged(list.nodes[i].data)
    {
      forall i | 0 <= i < |list.nodes| && i != k
        ensures unchanged(list.nodes[i].data)
      {
        assert old(list.nodes)[i] in old(list.nodes);
        assert list.nodes[i].data in old(Cursors());
      }
    }

    /** fetch and noValueFetch differ in what they do with the row, which is not modelled here. */
    method Fetch(handle: int) returns (rc: int)
      requires Valid()
      modifies lib
      ensures Valid() && Result(State(), rc, None) == OracleSpec.FetchQuery(lib.tape, old(State()), handle)
    {
      hide BooksOk, AskCur, Find, HandleList.Valid, Table, OwnData, HandleList.Entries, Position, Numbered;
      ghost var d := State();
      FetchQueryBooks(lib.tape, d, handle);
      var ptr := FindQuery(handle);
      assert State() == d;
      if ptr == null {
        return NO_SUCH_QUERY;
      }
      rc := ptr.Ask(lib);
      TableWithUpdate(Find(d.table, handle));
      rc := if rc == 0 || rc == OCI_NEED_DATA then 0 else EndCode(rc);
    }

    method GetCurRec(handle: int) returns (rc: int, rowCount: Option<int>)
      requires Valid()
      modifies lib
      ensures Valid() && Result(State(), rc, rowCount) == OracleSpec.GetCurRec(lib.tape, old(State()), handle)
    {
      hide BooksOk, AskCur, Find, HandleList.Valid, Table, OwnData, HandleList.Entries, Position, Numbered;
      ghost var d := State();
      FetchQueryBooks(lib.tape, d, handle);
      var ptr := FindQuery(handle);
      assert State() == d;
      if ptr == null {
        rc, rowCount := NO_SUCH_QUERY, None;
      } else {
        var n := ptr.Ask(lib);
        TableWithUpdate(Find(d.table, handle));
        rc, rowCount := 0, Some(n);
      }
    }

    method CloseQuery(handle: int) returns (rc: int)
      requires Valid()
      modifies lib, list, list.nodes, Cursors()
      ensures Valid() && Result(State(), rc, None) == OracleSpec.CloseQuery(old(State()), handle)
    {
      hide BooksOk, OracleSpec.CloseCur, OracleSpec.Destroy, Find, HandleList.Valid, Table, Numbered, OwnData,
        Silent, Idle, HandleList.Entries, Position;
      ghost var d := State();
      ghost var k := Find(d.table, handle);
      CloseQueryBooks(d, handle);
      var ptr := FindQuery(handle);
      if ptr == null {
        return NO_SUCH_QUERY;
      }
      var _ := ptr.CloseCur(lib);
      ListedUnchanged(k);
      TableWithUpdate(k);
      FindAfterUpdate(d.table, k, handle, ptr.State());
      var _ := DeleteQuery(handle);
      return 0;
    }

    static lemma FindAfterUpdate(table: seq<Listed>, k: nat, handle: int, c: Cursor)
      requires k == Find(table, handle) < |table|
      ensures var table' := table[k := table[k].(cursor := c)];
              Find(table', handle) == k && table'[..k] + table'[k + 1..] == table[..k] + table[k + 1..]
    {
      FindIs(table[k := table[k].(cursor := c)], handle, k);
    }

    /**
     The destructor.  Unless a disconnect or a failed reconnection has taken an environment from under
     open queries, no statement is live after it and none was ever misused.
     */
    method Destroy()
      requires Valid()
      modifies this, lib, cursor, list, list.nodes, Cursors()
      ensures lib.server == DestroyDriver(old(State()))
      ensures lib.server.live == multiset{} && (lib.server.misused <==> old(lib.server.gone) != {})
    {
      hide BooksOk, OracleSpec.Destroy, Table, HandleList.Valid, OwnData, NativeServer.FreeEnvironment;
      DestroyBooks(State());
      FreeTable();
      cursor.Destroy(lib);
      if connected {
        lib.EndSession();
        lib.FreeEnvironment();
        connected := false;
      }
    }
  }
}
