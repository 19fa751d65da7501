/**
 The Oracle driver (`oracleapi`) as functions from one state to the next.  Its cursors hold one
 native statement handle each; describing and defining the columns of a result is one native call
 here, and is modelled by itself in OracleColumns.dfy.
 */
module OracleSpec {
  import opened NativeServer
  import opened Basics

  // enum DataType
  const SQL_INT := 2
  const SQL_LONG := 4
  const SQL_STRING := 9
  const SQL_BINARY := 10

  const SQLT_CHR := 1
  const SQLT_INT := 3
  const SQLT_BIN := 23

  const SLOTS: nat := 32
  const BUFFER_LENGTH: nat := 2048

  const OCI_NEED_DATA := 99
  const OCI_NO_DATA := 100

  const LOST_CONNECTION := -99999

  /** The native error numbers that getErr reports as a lost connection. */
  const LOST_CODES := {3113, 3114, 28547, 12541, 1012}

  /** "Transaction must roll back": getErr rolls back on its own. */
  const MUST_ROLL_BACK := 25402

  /** db_cursor; a closed cursor has no statement (0). */
  datatype Cursor = Cursor(isOpen: bool, stmt: nat)

  const NEW_CURSOR := Cursor(false, 0)

  datatype Slot = Slot(ty: int, len: int, data: Pointer)

  datatype Listed = Listed(handle: int, cursor: Cursor)

  datatype Driver = Driver(
    server: Server,
    connected: bool,        // m_connect.m_state
    trans: bool,            // m_connect.m_transaction
    scratch: Cursor,        // m_cursor
    table: seq<Listed>,     // m_curlist
    sql: string,            // m_sql
    slots: seq<Slot>)       // m_bin_fld_val_list

  datatype Result = Result(driver: Driver, rc: int, value: Option<int>)

  function Fail(d: Driver): Result { Result(d, -1, None) }

  function Ok(d: Driver): Result { Result(d, 0, None) }

  // ---------------------------------------------------------------- members of a cursor

  datatype Outcome = Outcome(server: Server, cursor: Cursor, rc: int)

  /** A statement handle is asked for whether or not there is a connection, and an environment to ask in. */
  function OpenCur(t: Tape, s: Server, c: Cursor, hasEnv: bool): (o: Outcome)
    ensures (Numbered(s) ==> Numbered(o.server)) && Silent(s, o.server)
  {
    if c.isOpen then Outcome(s, c, -1)
    else
      var (s', p) := StmtInitIn(t, s, hasEnv);
      if p == 0 then Outcome(s', Cursor(false, 0), -1) else Outcome(s', Cursor(true, p), 0)
  }

  function CloseCur(s: Server, c: Cursor): (o: Outcome)
    ensures (Numbered(s) ==> Numbered(o.server)) && Silent(s, o.server) && o.server.clock == s.clock
  {
    if !c.isOpen then Outcome(s, c, -1)
    else Outcome(if c.stmt == 0 then s else Release(s, c.stmt), Cursor(false, 0), 0)
  }

  /** The destructor. */
  function Destroy(s: Server, c: Cursor): (s': Server)
    ensures (Numbered(s) ==> Numbered(s')) && Silent(s, s') && s'.clock == s.clock
  {
    CloseCur(s, c).server
  }

  /** OCIStmtPrepare: any answer but success fails. */
  function PrepareCur(t: Tape, s: Server, c: Cursor, sql: string): (o: Outcome)
    ensures (Numbered(s) ==> Numbered(o.server)) && Silent(s, o.server)
  {
    var (s', code) := Prepare(t, s, c.stmt, sql);
    Outcome(s', c, if code != 0 then -1 else 0)
  }

  /** Executing for reading, describing and defining, fetching, counting: the answer as it comes. */
  function AskCur(t: Tape, s: Server, c: Cursor): (o: Outcome)
    ensures (Numbered(s) ==> Numbered(o.server)) && Silent(s, o.server)
  {
    var (s', code) := Ask(t, s, c.stmt);
    Outcome(s', c, code)
  }

  function BindCur(t: Tape, s: Server, c: Cursor, position: int, bind: Bind): (o: Outcome)
    ensures (Numbered(s) ==> Numbered(o.server)) && Silent(s, o.server)
  {
    var (s', code) := BindOne(t, s, c.stmt, position, bind);
    Outcome(s', c, code)
  }

  function WriteCur(t: Tape, s: Server, c: Cursor): (o: Outcome)
    ensures Numbered(s) ==> Numbered(o.server)
  {
    var (s', code) := NativeServer.StmtExecute(t, s, c.stmt);
    Outcome(s', c, code)
  }

  // ---------------------------------------------------------------- members of the scratch cursor

  function OnScratch(d: Driver, o: Outcome): Result {
    Result(d.(server := o.server, scratch := o.cursor), o.rc, None)
  }

  predicate ScratchOnly(d: Driver, d': Driver) {
    d' == d.(server := d'.server, scratch := d'.scratch)
  }

  predicate ScratchSilent(d: Driver, d': Driver) {
    ScratchOnly(d, d') && Silent(d.server, d'.server)
  }

  function OpenScratch(t: Tape, d: Driver): (r: Result)
    ensures ScratchSilent(d, r.driver)
  {
    OnScratch(d, OpenCur(t, d.server, d.scratch, d.connected))
  }

  function CloseScratch(d: Driver): (d': Driver)
    ensures ScratchSilent(d, d')
  {
    OnScratch(d, CloseCur(d.server, d.scratch)).driver
  }

  function PrepareScratch(t: Tape, d: Driver, sql: string): (r: Result)
    ensures ScratchSilent(d, r.driver)
  {
    OnScratch(d, PrepareCur(t, d.server, d.scratch, sql))
  }

  function AskScratch(t: Tape, d: Driver): (r: Result)
    ensures ScratchSilent(d, r.driver)
  {
    OnScratch(d, AskCur(t, d.server, d.scratch))
  }

  function BindScratch(t: Tape, d: Driver, position: int, bind: Bind): (r: Result)
    ensures ScratchSilent(d, r.driver)
  {
    OnScratch(d, BindCur(t, d.server, d.scratch, position, bind))
  }

  function WriteScratch(t: Tape, d: Driver): (r: Result)
    ensures ScratchOnly(d, r.driver)
  {
    OnScratch(d, WriteCur(t, d.server, d.scratch))
  }

  // ---------------------------------------------------------------- connection and transactions

  /** Connects anew, over the handles of the connection there was, if there was one (`hasEnv`). */
  function Attempt(t: Tape, d: Driver, hasEnv: bool): Result {
    var (s', code) := ConnectOver(t, d.server, hasEnv);
    if code != 0 then Fail(d.(server := s', connected := false))
      else Ok(d.(server := s', connected := true, trans := false))
  }

  function ConnectNative(t: Tape, d: Driver): Result {
    if d.connected then Fail(d) else Attempt(t, d, false)
  }

  function Connect(t: Tape, d: Driver, user: string, password: string, host: string): Result {
    if |user| > 63 || |password| > 127 || |host| > 63 then Fail(d) else ConnectNative(t, d)
  }

  /** Closes the scratch cursor, but not the open queries, whose statements go with the environment. */
  function Disconnect(d: Driver): Result {
    var d' := CloseScratch(d);
    if !d'.connected then Fail(d') else Ok(d'.(server := FreeEnvironment(EndSession(d'.server)), connected := false))
  }

  function BeginTrans(d: Driver): Driver {
    d.(server := if d.trans then NativeServer.Commit(d.server) else d.server, trans := true)
  }

  function CommitTrans(d: Driver): Driver {
    d.(server := NativeServer.Commit(d.server), trans := false)
  }

  function RollbackTrans(d: Driver): Driver {
    d.(server := NativeServer.Rollback(d.server), trans := false)
  }

  /** The native error number, or -99999 for a lost connection. */
  function GetErr(t: Tape, d: Driver): Result {
    var (s', code) := AskConnection(t, d.server);
    var d' := d.(server := s');
    if code in LOST_CODES then Result(d', LOST_CONNECTION, None)
    else if code == MUST_ROLL_BACK then Result(RollbackTrans(d'), code, None)
    else Result(d', code, None)
  }

  /** failover_transaction_cleanup */
  function FailoverCleanup(t: Tape, d: Driver): Driver {
    var e := GetErr(t, d);
    if e.rc == MUST_ROLL_BACK then RollbackTrans(e.driver) else e.driver
  }

  function DestroyAll(s: Server, table: seq<Listed>): (s': Server)
    ensures (Numbered(s) ==> Numbered(s')) && Silent(s, s') && s'.clock == s.clock
    decreases table
  {
    if table == [] then s else DestroyAll(Destroy(s, table[0].cursor), table[1..])
  }

  function FreeTable(d: Driver): Driver {
    d.(server := DestroyAll(d.server, d.table), table := [])
  }

  /** Success is 1 whichever attempt it was.  Only the first can meet the handles of an old connection. */
  function Retry(t: Tape, d: Driver, attempt: nat, maxRetryTimes: int): Result
    decreases maxRetryTimes - attempt
  {
    if attempt >= maxRetryTimes then Result(d, LOST_CONNECTION, None)
    else
      var r := Attempt(t, d, d.connected);
      if r.rc == 0 then r.(rc := 1) else Retry(t, FreeTable(r.driver), attempt + 1, maxRetryTimes)
  }

  function CheckConStatus(t: Tape, d: Driver, maxRetryTimes: int): Result {
    var e := GetErr(t, d);
    if e.driver.connected && e.rc != LOST_CONNECTION then Fail(e.driver) else Retry(t, e.driver, 0, maxRetryTimes)
  }

  // ---------------------------------------------------------------- statements on the scratch cursor

  /** Unlike the MySQL driver, this one rolls back when a statement cannot be prepared. */
  function InSetSql(t: Tape, d: Driver, sql: string): Result {
    var o := OpenScratch(t, CloseScratch(d));
    if o.rc != 0 then Fail(o.driver)
    else
      var p := PrepareScratch(t, o.driver, sql);
      if p.rc != 0 then Fail(CloseScratch(RollbackTrans(p.driver))) else Ok(p.driver)
  }

  function InExec(t: Tape, d: Driver, isCommit: bool): Result {
    var e := WriteScratch(t, d);
    if e.rc != 0 then Fail(CloseScratch(RollbackTrans(e.driver)))
    else
      var c := CloseScratch(e.driver);
      Ok(if isCommit then CommitTrans(c) else c)
  }

  function ExecuteSql(t: Tape, d: Driver, sql: string, wantCount: bool, isCommit: bool): Result {
    var o := OpenScratch(t, d);
    if o.rc != 0 then Fail(o.driver)
    else
      var p := PrepareScratch(t, o.driver, sql);
      if p.rc != 0 then Fail(CloseScratch(RollbackTrans(p.driver)))
      else
        var e := WriteScratch(t, p.driver);
        if e.rc != 0 then Fail(CloseScratch(RollbackTrans(e.driver)))
        else
          var a := if wantCount then AskScratch(t, e.driver) else e;
          var c := CloseScratch(a.driver);
          Result(if isCommit then CommitTrans(c) else c, 0, if wantCount then Some(a.rc) else None)
  }

  function EndCode(code: int): int {
    if code == OCI_NO_DATA then -3 else -1
  }

  function GetRec(t: Tape, d: Driver, sql: string): Result {
    var o := OpenScratch(t, d);
    if o.rc != 0 then Fail(o.driver)
    else
      var p := PrepareScratch(t, o.driver, sql);
      if p.rc != 0 then Fail(CloseScratch(p.driver))
      else
        var e := AskScratch(t, p.driver);
        if e.rc != 0 then Result(FailoverCleanup(t, CloseScratch(e.driver)), EndCode(e.rc), None)
        else
          var b := AskScratch(t, e.driver);
          if b.rc != 0 then Fail(CloseScratch(b.driver))
          else
            var f := AskScratch(t, b.driver);
            var d' := CloseScratch(f.driver);
            if f.rc != 0 && f.rc != OCI_NEED_DATA then Result(d', EndCode(f.rc), None) else Ok(d')
  }

  function TableQuery(name: string): string {
    "SELECT * FROM TAB WHERE TNAME='" + name + "' AND TABTYPE='TABLE'"
  }

  /** isTable: 0 for true, -1 for false; it fetches without defining the columns. */
  function IsTable(t: Tape, d: Driver, name: string): Result {
    var o := OpenScratch(t, d);
    if o.rc != 0 then Fail(o.driver)
    else
      var p := PrepareScratch(t, o.driver, TableQuery(name));
      if p.rc != 0 then Fail(CloseScratch(p.driver))
      else
        var e := AskScratch(t, p.driver);
        if e.rc != 0 then Fail(FailoverCleanup(t, CloseScratch(e.driver)))
        else
          var f := AskScratch(t, e.driver);
          if f.rc != 0 then Fail(CloseScratch(f.driver)) else Ok(CloseScratch(f.driver))
  }

  /** checkSql: a statement that is no select is executed, and not rolled back when that fails. */
  function CheckSql(t: Tape, d: Driver, text: Option<string>, isSelect: bool): Result {
    if text.None? then Fail(d)
    else
      var o := OpenScratch(t, d);
      if o.rc != 0 then Fail(o.driver)
      else
        var p := PrepareScratch(t, o.driver, text.value);
        if p.rc != 0 then Fail(CloseScratch(p.driver))
        else if isSelect then
          var e := AskScratch(t, p.driver);
          if e.rc != 0 then Fail(FailoverCleanup(t, CloseScratch(e.driver))) else Ok(CloseScratch(e.driver))
        else
          var e := WriteScratch(t, p.driver);
          if e.rc != 0 then Fail(CloseScratch(e.driver)) else Ok(CloseScratch(e.driver))
  }

  // ---------------------------------------------------------------- parameters

  /** phfree empties the slots but leaves their types and lengths behind. */
  function Emptied(slots: seq<Slot>): (r: seq<Slot>)
    ensures |r| == |slots|
    ensures forall i :: 0 <= i < |r| ==> r[i] == slots[i].(data := Null)
  {
    seq(|slots|, i requires 0 <= i < |slots| => slots[i].(data := Null))
  }

  function PhFree(d: Driver): Driver {
    d.(sql := "", slots := Emptied(d.slots))
  }

  /** The names are left to the server: nothing is rewritten. */
  function PhSetSql(d: Driver, text: Option<string>): Result {
    if text.None? || |text.value| >= BUFFER_LENGTH then Fail(d) else Ok(PhFree(d).(sql := text.value))
  }

  /** The four setters: phSetInt, phSetLonglong, phSetString, phSetLongbyte. */
  datatype Setter = SetInt | SetLonglong | SetString | SetLongbyte(len: int)

  function TypeOf(setter: Setter): int {
    match setter
    case SetInt => SQL_INT
    case SetLonglong => SQL_LONG
    case SetString => SQL_STRING
    case SetLongbyte(_) => SQL_BINARY
  }

  function PhSet(d: Driver, setter: Setter, n: nat, value: Pointer): Result
    requires |d.slots| == SLOTS
  {
    if value.Null? || n == 0 || n > SLOTS then Fail(d)
    else
      var len := if setter.SetLongbyte? then setter.len else d.slots[n - 1].len;
      Ok(d.(slots := d.slots[n - 1 := Slot(TypeOf(setter), len, value)]))
  }

  predicate Supported(ty: int) {
    ty == SQL_INT || ty == SQL_LONG || ty == SQL_STRING || ty == SQL_BINARY
  }

  function BindOf(slot: Slot): Bind
    requires slot.data.To?
  {
    if slot.ty == SQL_INT then Bind(SQLT_INT, slot.data, 4, None)
    else if slot.ty == SQL_LONG then Bind(SQLT_INT, slot.data, 8, None)
    else if slot.ty == SQL_STRING then Bind(SQLT_CHR, slot.data, StrLen(slot.data) + 1, None)
    else Bind(SQLT_BIN, slot.data, slot.len, None)
  }

  /**
   The binding loop from slot `i`.  A binding that fails closes the cursor; an unsupported type
   leaves it open, in the default branch of the switch.
   */
  function BindSlots(t: Tape, d: Driver, i: nat): (r: Result)
    requires i <= |d.slots|
    ensures ScratchSilent(d, r.driver)
    decreases |d.slots| - i
  {
    if i == |d.slots| || d.slots[i].data.Null? then Ok(d)
    else if !Supported(d.slots[i].ty) then Fail(d)
    else
      var b := BindScratch(t, d, i + 1, BindOf(d.slots[i]));
      if b.rc < 0 then Fail(CloseScratch(b.driver)) else BindSlots(t, b.driver, i + 1)
  }

  function PhExecute(t: Tape, d: Driver, isCommit: bool): Result {
    if !d.connected then Fail(d)
    else
      var r := InSetSql(t, d, d.sql);
      if r.rc < 0 then Fail(r.driver)
      else
        var b := BindSlots(t, r.driver, 0);
        if b.rc < 0 then b
        else
          var e := InExec(t, b.driver, isCommit);
          if e.rc < 0 then Fail(e.driver) else Ok(PhFree(e.driver))
  }

  function LongBind(msg: Pointer, longType: int): Bind
    requires msg.To?
  {
    Bind(longType, msg, StrLen(msg), None)
  }

  /** A null message is no error, and no write. */
  function SetLongFld(t: Tape, d: Driver, sql: string, msg: Pointer, longType: int, isCommit: bool): Result {
    if msg.Null? then Ok(d)
    else
      var o := OpenScratch(t, d);
      if o.rc != 0 then Fail(o.driver)
      else
        var p := PrepareScratch(t, o.driver, sql);
        if p.rc != 0 then Fail(CloseScratch(RollbackTrans(p.driver)))
        else
          var b := BindScratch(t, p.driver, 1, LongBind(msg, longType));
          if b.rc != 0 then Fail(CloseScratch(b.driver))
          else
            var e := WriteScratch(t, b.driver);
            if e.rc != 0 then Fail(CloseScratch(RollbackTrans(e.driver)))
            else
              var c := CloseScratch(e.driver);
              Ok(if isCommit then CommitTrans(c) else c)
  }

  // ---------------------------------------------------------------- queries

  predicate HasHandle(table: seq<Listed>, handle: int) {
    exists i :: 0 <= i < |table| && table[i].handle == handle
  }

  /** The first of the numbers that rand() returns which is no handle in use. */
  function FirstFresh(table: seq<Listed>, draws: seq<int>): (k: nat)
    requires draws != [] && !HasHandle(table, draws[|draws| - 1])
    ensures k < |draws| && !HasHandle(table, draws[k])
    ensures forall i :: 0 <= i < k ==> HasHandle(table, draws[i])
  {
    if !HasHandle(table, draws[0]) then 0 else 1 + FirstFresh(table, draws[1..])
  }

  function Discard(s: Server, c: Cursor): (s': Server)
    ensures (Numbered(s) ==> Numbered(s')) && Silent(s, s')
  {
    var o := CloseCur(s, c);
    Destroy(o.server, o.cursor)
  }

  /** The driver keeps all but the table and, when the failed execution asks for it, the transaction. */
  function Query(t: Tape, d: Driver, sql: string, draws: seq<int>): Result
    requires draws != [] && !HasHandle(d.table, draws[|draws| - 1])
  {
    var hd := draws[FirstFresh(d.table, draws)];
    var o := OpenCur(t, d.server, NEW_CURSOR, d.connected);
    if o.rc != 0 then Fail(d.(server := Destroy(o.server, o.cursor)))
    else
      var p := PrepareCur(t, o.server, o.cursor, sql);
      if p.rc != 0 then Fail(d.(server := Discard(p.server, p.cursor)))
      else
        var e := AskCur(t, p.server, p.cursor);
        if e.rc != 0 then Fail(FailoverCleanup(t, d.(server := Discard(e.server, e.cursor))))
        else
          var b := AskCur(t, e.server, e.cursor);
          if b.rc != 0 then Fail(d.(server := Discard(b.server, b.cursor)))
          else Result(d.(server := b.server, table := d.table + [Listed(hd, b.cursor)]), 0, Some(hd))
  }

  function Find(table: seq<Listed>, handle: int): (k: nat)
    ensures k <= |table|
    ensures k < |table| ==> table[k].handle == handle
    ensures forall i :: 0 <= i < k ==> table[i].handle != handle
  {
    if table == [] || table[0].handle == handle then 0 else 1 + Find(table[1..], handle)
  }

  /** The code for a handle that is not in the table. */
  const NO_SUCH_QUERY := 1

  function FetchQuery(t: Tape, d: Driver, handle: int): Result {
    var k := Find(d.table, handle);
    if k == |d.table| then Result(d, NO_SUCH_QUERY, None)
    else
      var f := AskCur(t, d.server, d.table[k].cursor);
      Result(d.(server := f.server), if f.rc == 0 || f.rc == OCI_NEED_DATA then 0 else EndCode(f.rc), None)
  }

  function GetCurRec(t: Tape, d: Driver, handle: int): Result {
    var k := Find(d.table, handle);
    if k == |d.table| then Result(d, NO_SUCH_QUERY, None)
    else
      var a := AskCur(t, d.server, d.table[k].cursor);
      Result(d.(server := a.server), 0, Some(a.rc))
  }

  function CloseQuery(d: Driver, handle: int): Result {
    var k := Find(d.table, handle);
    if k == |d.table| then Result(d, NO_SUCH_QUERY, None)
    else Ok(d.(server := Discard(d.server, d.table[k].cursor), table := d.table[..k] + d.table[k + 1..]))
  }

  /** The destructor. */
  function DestroyDriver(d: Driver): Server {
    var s := Destroy(FreeTable(d).server, d.scratch);
    if d.connected then FreeEnvironment(EndSession(s)) else s
  }

  // ---------------------------------------------------------------- calls

  datatype Call =
    | CallConnect(user: string, password: string, host: string)
    | CallDisconnect
    | CallCheckConStatus(maxRetryTimes: int)
    | CallGetErr
    | CallBeginTrans
    | CallCommitTrans
    | CallRollbackTrans
    | CallExecuteSql(sql: string, wantCount: bool, isCommit: bool)
    | CallGetRec(sql: string)
    | CallIsTable(name: string)
    | CallCheckSql(text: Option<string>, isSelect: bool)
    | CallPhSetSql(text: Option<string>)
    | CallPhSet(setter: Setter, n: nat, value: Pointer)
    | CallPhFree
    | CallPhExecute(isCommit: bool)
    | CallSetLongFld(sql: string, msg: Pointer, longType: int, isCommit: bool)
    | CallQuery(sql: string, draws: seq<int>)
    | CallFetch(handle: int)
    | CallGetCurRec(handle: int)
    | CallCloseQuery(handle: int)

  /** rand() is assumed to return, sooner or later, a number that is no handle in use. */
  predicate Allowed(d: Driver, call: Call) {
    match call
    case CallPhSet(_, _, _) => |d.slots| == SLOTS
    case CallQuery(_, draws) => draws != [] && !HasHandle(d.table, draws[|draws| - 1])
    case _ => true
  }

  function Apply(t: Tape, d: Driver, call: Call): Result
    requires Allowed(d, call)
  {
    match call
    case CallConnect(user, password, host) => Connect(t, d, user, password, host)
    case CallDisconnect => Disconnect(d)
    case CallCheckConStatus(maxRetryTimes) => CheckConStatus(t, d, maxRetryTimes)
    case CallGetErr => GetErr(t, d)
    case CallBeginTrans => Ok(BeginTrans(d))
    case CallCommitTrans => Ok(CommitTrans(d))
    case CallRollbackTrans => Ok(RollbackTrans(d))
    case CallExecuteSql(sql, wantCount, isCommit) => ExecuteSql(t, d, sql, wantCount, isCommit)
    case CallGetRec(sql) => GetRec(t, d, sql)
    case CallIsTable(name) => IsTable(t, d, name)
    case CallCheckSql(text, isSelect) => CheckSql(t, d, text, isSelect)
    case CallPhSetSql(text) => PhSetSql(d, text)
    case CallPhSet(setter, n, value) => PhSet(d, setter, n, value)
    case CallPhFree => Ok(PhFree(d))
    case CallPhExecute(isCommit) => PhExecute(t, d, isCommit)
    case CallSetLongFld(sql, msg, longType, isCommit) => SetLongFld(t, d, sql, msg, longType, isCommit)
    case CallQuery(sql, draws) => Query(t, d, sql, draws)
    case CallFetch(handle) => FetchQuery(t, d, handle)
    case CallGetCurRec(handle) => GetCurRec(t, d, handle)
    case CallCloseQuery(handle) => CloseQuery(d, handle)
  }

  predicate RunAllowed(t: Tape, d: Driver, calls: seq<Call>)
    decreases calls
  {
    calls == [] || (Allowed(d, calls[0]) && RunAllowed(t, Apply(t, d, calls[0]).driver, calls[1..]))
  }

  function Run(t: Tape, d: Driver, calls: seq<Call>): Driver
    requires RunAllowed(t, d, calls)
    decreases calls
  {
    if calls == [] then d else Run(t, Apply(t, d, calls[0]).driver, calls[1..])
  }
}
