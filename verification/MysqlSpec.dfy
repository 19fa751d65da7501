/**
 The MySQL driver (`mysqlapi`) as functions from one state to the next.  The class in
 MysqlDriver.dfy is proved to compute them; MysqlRuns.dfy proves what every run of them keeps.
 */
module MysqlSpec {
  import opened NativeServer
  import opened MysqlCursorSpec
  import opened Basics
  import opened PlaceholderRewriter

  // enum DataType
  const SQL_INT := 2
  const SQL_LONG := 4
  const SQL_STRING := 9
  const SQL_BINARY := 10
  const SQL_TEXT := 11

  const SLOTS: nat := 32

  const MYSQL_NO_DATA := 100
  const MYSQL_DATA_TRUNCATED := 101

  const LOST_CONNECTION := -99999

  /** The native error numbers that getErr reports as a lost connection. */
  const LOST_CODES := {2006, 2013, 2003, 2002, 2055, 1053}

  /** mysql_fld_val_t: one parameter as the caller has set it. */
  datatype Slot = Slot(ty: int, len: int, data: Pointer)

  const BLANK_SLOT := Slot(0, 0, Null)

  function BlankSlots(): (slots: seq<Slot>)
    ensures |slots| == SLOTS && forall i :: 0 <= i < SLOTS ==> slots[i] == BLANK_SLOT
  {
    seq(SLOTS, _ => BLANK_SLOT)
  }

  /** A listed query: its handle and its cursor. */
  datatype Listed = Listed(handle: int, cursor: CursorState)

  datatype Driver = Driver(
    server: Server,
    connected: bool,        // db_state
    trans: bool,            // transaction
    scratch: CursorState,   // m_cursor
    table: seq<Listed>,     // m_curlist
    index: int,             // m_curlist.index
    sql: string,            // m_sql
    slots: seq<Slot>)       // m_bin_fld_val_list

  function NewDriver(s: Server, trans: bool): Driver {
    Driver(s, false, trans, NEW_CURSOR, [], 0, "", BlankSlots())
  }

  /** The state after a call, the code it returns, and the number it hands back, if any. */
  datatype Result = Result(driver: Driver, rc: int, value: Option<int>)

  function Fail(d: Driver): Result { Result(d, -1, None) }

  function Ok(d: Driver): Result { Result(d, 0, None) }

  // ---------------------------------------------------------------- members of the scratch cursor

  /** The driver after a member of the scratch cursor. */
  function OnScratch(d: Driver, o: Outcome): (r: Result) {
    Result(d.(server := o.server, scratch := o.cursor), o.rc, None)
  }

  /** Only the server and the scratch cursor have changed. */
  predicate ScratchOnly(d: Driver, d': Driver) {
    d' == d.(server := d'.server, scratch := d'.scratch)
  }

  /** Only the server and the scratch cursor have changed, and no write was executed. */
  predicate ScratchSilent(d: Driver, d': Driver) {
    ScratchOnly(d, d') && Silent(d.server, d'.server)
  }

  /** The cursor table and the connection are as they were. */
  predicate SameTable(d: Driver, d': Driver) {
    d'.table == d.table && d'.index == d.index && d'.connected == d.connected
  }

  function OpenScratch(t: Tape, d: Driver): (r: Result)
    ensures ScratchSilent(d, r.driver)
  {
    OnScratch(d, OpenCur(t, d.server, d.scratch, d.connected))
  }

  function CloseScratch(d: Driver): (d': Driver)
    ensures ScratchSilent(d, d')
  {
    OnScratch(d, CloseCur(d.server, d.scratch)).driver
  }

  function PrepareScratch(t: Tape, d: Driver, sql: string): (r: Result)
    ensures ScratchSilent(d, r.driver)
  {
    OnScratch(d, PrepareCur(t, d.server, d.scratch, sql))
  }

  function DefineScratch(t: Tape, d: Driver): (r: Result)
    ensures ScratchSilent(d, r.driver)
  {
    OnScratch(d, Define(t, d.server, d.scratch))
  }

  function SelectScratch(t: Tape, d: Driver): (r: Result)
    ensures ScratchSilent(d, r.driver)
  {
    OnScratch(d, ExecuteSelect(t, d.server, d.scratch))
  }

  function FetchScratch(t: Tape, d: Driver): (r: Result)
    ensures ScratchSilent(d, r.driver)
  {
    OnScratch(d, Fetch(t, d.server, d.scratch))
  }

  function CountScratch(t: Tape, d: Driver): (r: Result)
    ensures ScratchSilent(d, r.driver)
  {
    OnScratch(d, AffectRec(t, d.server, d.scratch))
  }

  function AllocateParms(t: Tape, d: Driver): (r: Result)
    ensures ScratchSilent(d, r.driver)
    ensures r.rc >= 0 ==> r.driver.scratch.parms.Some? && |r.driver.scratch.parms.value| == Code(t, d.server) > 0
  {
    OnScratch(d, AllocateParmBind(t, d.server, d.scratch))
  }

  function BindParms(t: Tape, d: Driver): (r: Result)
    ensures ScratchSilent(d, r.driver)
  {
    OnScratch(d, BindParm(t, d.server, d.scratch))
  }

  function SendScratch(t: Tape, d: Driver, data: string): (r: Result)
    ensures ScratchSilent(d, r.driver)
  {
    OnScratch(d, BindLargeParm(t, d.server, d.scratch, data))
  }

  /** Executes the scratch statement as a write. */
  function WriteScratch(t: Tape, d: Driver): (r: Result)
    ensures ScratchOnly(d, r.driver)
  {
    OnScratch(d, ExecuteNonSelect(t, d.server, d.scratch))
  }

  // ---------------------------------------------------------------- connection and transactions

  function ConnectNative(t: Tape, d: Driver): Result {
    if d.connected then Fail(d)
    else
      var (s', code) := NativeServer.Connect(t, d.server);
      if code != 0 then Fail(d.(server := s')) else Ok(d.(server := s', connected := true, trans := false))
  }

  function Connect(t: Tape, d: Driver, user: string, password: string, host: string): Result {
    if |user| > 63 || |password| > 127 || |host| > 63 then Fail(d) else ConnectNative(t, d)
  }

  function Disconnect(d: Driver): Result {
    var d' := CloseScratch(d);
    if !d'.connected then Fail(d') else Ok(d'.(server := EndSession(d'.server), connected := false))
  }

  function BeginTrans(d: Driver): Driver {
    d.(server := if d.trans then NativeServer.Commit(d.server) else d.server, trans := true)
  }

  function CommitTrans(d: Driver): Driver {
    d.(server := NativeServer.Commit(d.server), trans := false)
  }

  function RollbackTrans(d: Driver): Driver {
    d.(server := NativeServer.Rollback(d.server), trans := false)
  }

  /** Every listed cursor destroyed, in list order. */
  function DestroyAll(s: Server, table: seq<Listed>): (s': Server)
    ensures s'.clock == s.clock
    ensures (Numbered(s) ==> Numbered(s')) && Silent(s, s')
    decreases table
  {
    if table == [] then s else DestroyAll(Destroy(s, table[0].cursor), table[1..])
  }

  function FreeTable(d: Driver): Driver {
    d.(server := DestroyAll(d.server, d.table), table := [])
  }

  /** The reconnection attempts from number `attempt` on. */
  function Retry(t: Tape, d: Driver, attempt: nat, maxRetryTimes: int): Result
    decreases maxRetryTimes - attempt
  {
    if attempt >= maxRetryTimes then Result(d, LOST_CONNECTION, None)
    else
      var r := ConnectNative(t, d.(connected := false));
      if r.rc == 0 then r.(rc := attempt) else Retry(t, FreeTable(r.driver), attempt + 1, maxRetryTimes)
  }

  function CheckConStatus(t: Tape, d: Driver, maxRetryTimes: int): Result {
    var (s', code) := AskConnection(t, d.server);
    var d' := d.(server := s');
    if d.connected && code !in LOST_CODES then Fail(d') else Retry(t, d', 0, maxRetryTimes)
  }

  // ---------------------------------------------------------------- statements on the scratch cursor

  function InSetSql(t: Tape, d: Driver, sql: string): (r: Result)
    ensures ScratchSilent(d, r.driver)
  {
    var o := OpenScratch(t, CloseScratch(d));
    if o.rc < 0 then Fail(o.driver)
    else
      var p := PrepareScratch(t, o.driver, sql);
      if p.rc < 0 then Fail(CloseScratch(p.driver)) else Ok(p.driver)
  }

  function InExec(t: Tape, d: Driver, isCommit: bool): (r: Result)
    ensures SameTable(d, r.driver)
  {
    var e := WriteScratch(t, d);
    if e.rc < 0 then Fail(CloseScratch(RollbackTrans(e.driver)))
    else Ok(CloseScratch(if isCommit then CommitTrans(e.driver) else e.driver))
  }

  function ExecuteSql(t: Tape, d: Driver, sql: string, wantCount: bool, isCommit: bool): (r: Result)
    ensures SameTable(d, r.driver)
  {
    var o := OpenScratch(t, d);
    if o.rc < 0 then Fail(o.driver)
    else
      var p := PrepareScratch(t, o.driver, sql);
      if p.rc < 0 then Fail(CloseScratch(p.driver))
      else
        var e := WriteScratch(t, p.driver);
        if e.rc < 0 then Fail(CloseScratch(RollbackTrans(e.driver)))
        else
          var a := if wantCount then CountScratch(t, e.driver) else e;
          var done := if isCommit then CommitTrans(a.driver) else a.driver;
          Result(CloseScratch(done), 0, if wantCount then Some(a.rc) else None)
  }

  /** What a fetch returns to the caller: end of data and truncation are both -3. */
  function FetchCode(code: int): int {
    if code == 0 then 0 else if code == MYSQL_NO_DATA || code == MYSQL_DATA_TRUNCATED then -3 else -1
  }

  /** getRec: one row of a query through the scratch cursor. */
  function GetRec(t: Tape, d: Driver, sql: string): (r: Result)
    ensures ScratchSilent(d, r.driver)
  {
    var o := OpenScratch(t, d);
    if o.rc < 0 then Fail(o.driver)
    else
      var p := PrepareScratch(t, o.driver, sql);
      if p.rc < 0 then Fail(CloseScratch(p.driver))
      else
        var b := DefineScratch(t, p.driver);
        if b.rc < 0 then Fail(CloseScratch(b.driver))
        else
          var e := SelectScratch(t, b.driver);
          if e.rc < 0 then Fail(CloseScratch(e.driver))
          else
            var f := FetchScratch(t, e.driver);
            Result(CloseScratch(f.driver), FetchCode(f.rc), None)
  }

  /** The 64-character buffer holds 63 of the statement's characters. */
  function ShowTables(name: string): string {
    var sql := "show tables like '" + name + "' ";
    if |sql| <= 63 then sql else sql[..63]
  }

  /** isTable: answers 0 for true and -1 for false. */
  function IsTable(t: Tape, d: Driver, name: string): Result {
    var r := GetRec(t, d, ShowTables(name));
    r.(rc := if r.rc == 0 then 0 else -1)
  }

  function CheckSql(t: Tape, d: Driver, sql: string): Result {
    var r := InSetSql(t, d, sql);
    if r.rc < 0 then Fail(CloseScratch(r.driver)) else Ok(CloseScratch(r.driver))
  }

  // ---------------------------------------------------------------- parameters

  function PhFree(d: Driver): Driver {
    d.(sql := "", slots := BlankSlots())
  }

  function PhSetSql(d: Driver, sql: Option<string>): Result {
    if sql.None? || |sql.value| >= BUFFER_LENGTH then Fail(d) else Ok(PhFree(d).(sql := Rewrite(sql.value)))
  }

  /** Which settings the code accepts; it counts from 0, and lets one through for which there is no slot. */
  predicate Accepts(n: nat, value: Pointer) {
    value.To? && n <= SLOTS
  }

  /** Callers must not ask for the slot that there is not. */
  function PhSetParm(d: Driver, n: nat, ty: int, value: Pointer, len: int): Result
    requires n != SLOTS && |d.slots| == SLOTS
  {
    if !Accepts(n, value) then Fail(d)
    else Ok(d.(slots := d.slots[n := Slot(ty, if len != 0 then len else d.slots[n].len, value)]))
  }

  predicate Supported(ty: int) {
    ty == SQL_INT || ty == SQL_LONG || ty == SQL_STRING || ty == SQL_BINARY
  }

  function BindOf(slot: Slot): Bind {
    if slot.ty == SQL_INT then Bind(MYSQL_TYPE_LONG, slot.data, 4, None)
    else if slot.ty == SQL_LONG then Bind(MYSQL_TYPE_LONGLONG, slot.data, 8, None)
    else if slot.ty == SQL_STRING then
      Bind(MYSQL_TYPE_STRING, slot.data, slot.len, if slot.data.Null? then None else Some(StrLen(slot.data)))
    else Bind(MYSQL_TYPE_BLOB, slot.data, slot.len, None)
  }

  /** Number of slots set without a gap from the first. */
  function SetPrefix(slots: seq<Slot>): (k: nat)
    ensures k <= |slots|
    ensures forall i :: 0 <= i < k ==> slots[i].data.To?
    ensures k < |slots| ==> slots[k].data.Null?
  {
    if slots == [] || slots[0].data.Null? then 0 else 1 + SetPrefix(slots[1..])
  }

  /** The binding loop from slot `i`; it stops at the first empty slot, or fails at an unsupported type. */
  function BindSlots(c: CursorState, slots: seq<Slot>, i: nat): (CursorState, bool)
    requires i <= |slots|
    requires c.parms.Some? && i <= SetPrefix(slots) <= |c.parms.value|
    decreases |slots| - i
  {
    if i == |slots| || slots[i].data.Null? then (c, true)
    else if !Supported(slots[i].ty) then (c, false)
    else BindSlots(BindPos(c, i, BindOf(slots[i])), slots, i + 1)
  }

  /** After the statement is prepared: the parameters the server counts. */
  function ParamCount(t: Tape, d: Driver): int {
    Code(t, InSetSql(t, d, d.sql).driver.server)
  }

  /** The bindings have room for every slot that is set: the code does not check. */
  predicate RoomForSlots(t: Tape, d: Driver) {
    d.connected && InSetSql(t, d, d.sql).rc == 0 && ParamCount(t, d) > 0 ==> SetPrefix(d.slots) <= ParamCount(t, d)
  }

  function PhExecute(t: Tape, d: Driver, isCommit: bool): (r: Result)
    requires RoomForSlots(t, d)
    ensures SameTable(d, r.driver)
  {
    if !d.connected then Fail(d)
    else
      var r := InSetSql(t, d, d.sql);
      if r.rc < 0 then Fail(r.driver)
      else
        var a := AllocateParms(t, r.driver);
        if a.rc < 0 then Fail(PhFree(CloseScratch(a.driver)))
        else
          var (cursor, bound) := BindSlots(a.driver.scratch, a.driver.slots, 0);
          var filled := a.driver.(scratch := cursor);
          if !bound then Fail(PhFree(CloseScratch(filled)))
          else
            var b := BindParms(t, filled);
            if b.rc != 0 then Fail(PhFree(CloseScratch(b.driver)))
            else
              var e := InExec(t, b.driver, isCommit);
              if e.rc < 0 then Fail(e.driver) else Ok(PhFree(e.driver))
  }

  // ---------------------------------------------------------------- long columns

  /** Sets the statement up to take its first parameter in pieces. */
  function BeginLong(t: Tape, d: Driver, sql: Option<string>, bind: Option<Bind>): (r: Result)
    ensures SameTable(d, r.driver)
  {
    var p := PhSetSql(d, sql);
    if p.rc < 0 then Fail(p.driver)
    else
      var r := InSetSql(t, p.driver, p.driver.sql);
      if r.rc < 0 then Fail(r.driver)
      else
        var a := AllocateParms(t, r.driver);
        if a.rc < 0 || bind.None? then Fail(CloseScratch(a.driver))
        else
          var filled := a.driver.(scratch := BindPos(a.driver.scratch, 0, bind.value));
          var b := BindParms(t, filled);
          if b.rc != 0 then Fail(CloseScratch(b.driver)) else Ok(b.driver)
  }

  function LoadBind(colType: int): Option<Bind> {
    if colType == SQL_BINARY then Some(Bind(MYSQL_TYPE_BLOB, Null, 0, Some(0)))
    else if colType == SQL_TEXT then Some(Bind(MYSQL_TYPE_STRING, Null, 0, Some(0)))
    else None
  }

  function BeginLoadBinaryData(t: Tape, d: Driver, sql: Option<string>, colType: int): Result {
    BeginLong(t, d, sql, LoadBind(colType))
  }

  function TransferBinData(t: Tape, d: Driver, data: string): (r: Result)
    ensures SameTable(d, r.driver)
  {
    var b := SendScratch(t, d, data);
    if b.rc != 0 then Fail(CloseScratch(b.driver)) else Ok(b.driver)
  }

  function EndLoadBinaryData(t: Tape, d: Driver, isCommit: bool): Result {
    InExec(t, d, isCommit)
  }

  /** What setLongFld sends: `length` bytes of a binary message, or a text up to its terminator. */
  function LongData(msg: Pointer, length: nat, longType: int): string
    requires msg.To? && (longType == SQL_BINARY ==> length <= |msg.text|)
  {
    if longType == SQL_BINARY then msg.text[..length] else TextIn(msg.text)
  }

  function LongBind(msg: Pointer, length: nat, longType: int): Option<Bind>
    requires msg.To? && (longType == SQL_BINARY ==> length <= |msg.text|)
  {
    var size := |LongData(msg, length, longType)|;
    if longType == SQL_BINARY then Some(Bind(MYSQL_TYPE_BLOB, msg, size, Some(0)))
    else if longType == SQL_TEXT then Some(Bind(MYSQL_TYPE_STRING, msg, size, Some(0)))
    else None
  }

  function SetLongFld(t: Tape, d: Driver, sql: Option<string>, msg: Pointer, length: nat, longType: int,
                      isCommit: bool): (r: Result)
    requires msg.To? && longType == SQL_BINARY ==> length <= |msg.text|
    ensures SameTable(d, r.driver)
  {
    if msg.Null? then Fail(d)
    else
      var r := BeginLong(t, d, sql, LongBind(msg, length, longType));
      if r.rc < 0 then Fail(r.driver)
      else
        var s := TransferBinData(t, r.driver, LongData(msg, length, longType));
        if s.rc < 0 then s else InExec(t, s.driver, isCommit)
  }

  // ---------------------------------------------------------------- queries

  /** Closes and deletes a cursor that is not, or no longer, listed. */
  function Discard(s: Server, c: CursorState): (s': Server)
    ensures (Numbered(s) ==> Numbered(s')) && Silent(s, s')
  {
    var o := CloseCur(s, c);
    Destroy(o.server, o.cursor)
  }

  /** A cursor of its own for a query: opened, prepared, defined and executed, or thrown away (rc -1). */
  function OpenQuery(t: Tape, s: Server, connected: bool, sql: string): (o: Outcome)
    ensures (Numbered(s) ==> Numbered(o.server)) && Silent(s, o.server)
  {
    var o := OpenCur(t, s, NEW_CURSOR, connected);
    if o.rc < 0 then Outcome(Destroy(o.server, o.cursor), NEW_CURSOR, -1)
    else
      var p := PrepareCur(t, o.server, o.cursor, sql);
      if p.rc < 0 then Outcome(Discard(p.server, p.cursor), NEW_CURSOR, -1)
      else
        var b := Define(t, p.server, p.cursor);
        if b.rc < 0 then Outcome(Discard(b.server, b.cursor), NEW_CURSOR, -1)
        else
          var e := ExecuteSelect(t, b.server, b.cursor);
          if e.rc < 0 then Outcome(Discard(e.server, e.cursor), NEW_CURSOR, -1)
          else Outcome(e.server, e.cursor, 0)
  }

  /** The handle is taken from the counter whether or not the query succeeds. */
  function Query(t: Tape, d: Driver, sql: Option<string>): Result {
    if sql.None? then Fail(d)
    else
      var hd := d.index + 1;
      var o := OpenQuery(t, d.server, d.connected, sql.value);
      var d' := d.(server := o.server, index := hd);
      if o.rc < 0 then Fail(d')
      else Result(d'.(table := d.table + [Listed(hd, o.cursor)]), 0, Some(hd))
  }

  /** Position of the first entry with that handle, or the length of the table. */
  function Find(table: seq<Listed>, handle: int): (k: nat)
    ensures k <= |table|
    ensures k < |table| ==> table[k].handle == handle
    ensures forall i :: 0 <= i < k ==> table[i].handle != handle
  {
    if table == [] || table[0].handle == handle then 0 else 1 + Find(table[1..], handle)
  }

  function WithListed(d: Driver, k: nat, o: Outcome): Driver
    requires k < |d.table|
  {
    d.(server := o.server, table := d.table[k := d.table[k].(cursor := o.cursor)])
  }

  function FetchQuery(t: Tape, d: Driver, handle: int): Result {
    var k := Find(d.table, handle);
    if k == |d.table| then Fail(d)
    else
      var f := Fetch(t, d.server, d.table[k].cursor);
      Result(WithListed(d, k, f), FetchCode(f.rc), None)
  }

  function GetCurRec(t: Tape, d: Driver, handle: int): Result {
    var k := Find(d.table, handle);
    if k == |d.table| then Fail(d)
    else
      var a := AffectRec(t, d.server, d.table[k].cursor);
      Result(WithListed(d, k, a), 0, Some(a.rc))
  }

  function CloseQuery(d: Driver, handle: int): Result {
    var k := Find(d.table, handle);
    if k == |d.table| then Fail(d)
    else Ok(d.(server := Discard(d.server, d.table[k].cursor), table := d.table[..k] + d.table[k + 1..]))
  }

  /** changeDB and processDdl: one native call about the connection. */
  function Forward(t: Tape, d: Driver, text: Option<string>): Result {
    if text.None? then Fail(d)
    else
      var (s', code) := AskConnection(t, d.server);
      Result(d.(server := s'), if code != 0 then -1 else 0, None)
  }

  /** The destructor: listed cursors, then the scratch cursor, then the connection. */
  function DestroyDriver(d: Driver): Server {
    var s := Destroy(FreeTable(d).server, d.scratch);
    if d.connected then EndSession(s) else s
  }

  // ---------------------------------------------------------------- calls

  datatype Call =
    | CallConnect(user: string, password: string, host: string)
    | CallDisconnect
    | CallCheckConStatus(maxRetryTimes: int)
    | CallBeginTrans
    | CallCommitTrans
    | CallRollbackTrans
    | CallExecuteSql(sql: string, wantCount: bool, isCommit: bool)
    | CallGetRec(sql: string)
    | CallIsTable(name: string)
    | CallCheckSql(sql: string)
    | CallPhSetSql(text: Option<string>)
    | CallPhSetParm(n: nat, ty: int, value: Pointer, len: int)
    | CallPhFree
    | CallPhExecute(isCommit: bool)
    | CallSetLongFld(text: Option<string>, msg: Pointer, length: nat, longType: int, isCommit: bool)
    | CallBeginLoad(text: Option<string>, colType: int)
    | CallTransfer(data: string)
    | CallEndLoad(isCommit: bool)
    | CallQuery(text: Option<string>)
    | CallFetch(handle: int)
    | CallGetCurRec(handle: int)
    | CallCloseQuery(handle: int)
    | CallForward(text: Option<string>)

  /** The rewritten statement leaves room in the buffer for the store after its last character. */
  predicate FitsBuffer(text: Option<string>) {
    text.Some? && |text.value| < BUFFER_LENGTH ==>
      IsCString(text.value) && (text.value != "" ==> |Rewrite(text.value)| + 1 < BUFFER_LENGTH)
  }

  const INT_MAX := 0x7fff_ffff

  /** What the code leaves to its callers. */
  predicate Allowed(t: Tape, d: Driver, call: Call) {
    match call
    case CallPhSetSql(text) => FitsBuffer(text)
    case CallBeginLoad(text, _) => FitsBuffer(text)
    case CallQuery(_) => d.index < INT_MAX
    case CallPhSetParm(n, _, _, _) => n != SLOTS && |d.slots| == SLOTS
    case CallPhExecute(_) => RoomForSlots(t, d)
    case CallSetLongFld(text, msg, length, longType, _) =>
      FitsBuffer(text) && (msg.To? && longType == SQL_BINARY ==> length <= |msg.text|)
    case CallTransfer(_) => d.scratch.isOpen
    case CallEndLoad(_) => d.scratch.isOpen
    case _ => true
  }

  function Apply(t: Tape, d: Driver, call: Call): Result
    requires Allowed(t, d, call)
  {
    match call
    case CallConnect(user, password, host) => Connect(t, d, user, password, host)
    case CallDisconnect => Disconnect(d)
    case CallCheckConStatus(maxRetryTimes) => CheckConStatus(t, d, maxRetryTimes)
    case CallBeginTrans => Ok(BeginTrans(d))
    case CallCommitTrans => Ok(CommitTrans(d))
    case CallRollbackTrans => Ok(RollbackTrans(d))
    case CallExecuteSql(sql, wantCount, isCommit) => ExecuteSql(t, d, sql, wantCount, isCommit)
    case CallGetRec(sql) => GetRec(t, d, sql)
    case CallIsTable(name) => IsTable(t, d, name)
    case CallCheckSql(sql) => CheckSql(t, d, sql)
    case CallPhSetSql(text) => PhSetSql(d, text)
    case CallPhSetParm(n, ty, value, len) => PhSetParm(d, n, ty, value, len)
    case CallPhFree => Ok(PhFree(d))
    case CallPhExecute(isCommit) => PhExecute(t, d, isCommit)
    case CallSetLongFld(text, msg, length, longType, isCommit) =>
      SetLongFld(t, d, text, msg, length, longType, isCommit)
    case CallBeginLoad(text, colType) => BeginLoadBinaryData(t, d, text, colType)
    case CallTransfer(data) => TransferBinData(t, d, data)
    case CallEndLoad(isCommit) => EndLoadBinaryData(t, d, isCommit)
    case CallQuery(text) => Query(t, d, text)
    case CallFetch(handle) => FetchQuery(t, d, handle)
    case CallGetCurRec(handle) => GetCurRec(t, d, handle)
    case CallCloseQuery(handle) => CloseQuery(d, handle)
    case CallForward(text) => Forward(t, d, text)
  }

  /** A run: every call is one its caller may make in the state it finds. */
  predicate RunAllowed(t: Tape, d: Driver, calls: seq<Call>)
    decreases calls
  {
    calls == [] || (Allowed(t, d, calls[0]) && RunAllowed(t, Apply(t, d, calls[0]).driver, calls[1..]))
  }

  function Run(t: Tape, d: Driver, calls: seq<Call>): Driver
    requires RunAllowed(t, d, calls)
    decreases calls
  {
    if calls == [] then d else Run(t, Apply(t, d, calls[0]).driver, calls[1..])
  }
}
