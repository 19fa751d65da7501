/**
 What runs of the MySQL driver do to its cursor table, its scratch cursor and its connection.
 */
module MysqlRuns {
  import opened NativeServer
  import opened MysqlCursorSpec
  import opened MysqlSpec
  import opened MysqlBooks

  // ---------------------------------------------------------------- the cursor table

  predicate HasHandle(table: seq<Listed>, handle: int) {
    exists i :: 0 <= i < |table| && table[i].handle == handle
  }

  /**
   A query is all or nothing.  When it fails the table is what it was; when it succeeds the table
   gains at its end one open cursor, ready to be fetched from, under a handle not in the table.
   */
  lemma QueryAllOrNothing(t: Tape, d: Driver, sql: Option<string>)
    requires BooksOk(d)
    ensures var r := Query(t, d, sql);
            if r.rc == 0 then
              && sql.Some?
              && |r.driver.table| == |d.table| + 1
              && r.driver.table[..|d.table|] == d.table
              && (var last := r.driver.table[|d.table|];
                  && r.value == Some(last.handle) && !HasHandle(d.table, last.handle) && last.handle > d.index
                  && last.cursor.isOpen && DefineOk(last.cursor)
                  && last.cursor.stmt in r.driver.server.live)
            else r.rc == -1 && r.driver.table == d.table
    ensures var r := Query(t, d, sql); r.driver.scratch == d.scratch && Silent(d.server, r.driver.server)
  {
    hide OpenQuery, DefineOk;
    if sql.Some? {
      OpenQueryTidy(t, d.server, d.connected, sql.value);
      var o := OpenQuery(t, d.server, d.connected, sql.value);
      NewCursorBooks(d);
      if o.rc == 0 {
        assert Books(o.server, o.cursor, Held(d.scratch) + HeldAll(d.table));
        assert o.cursor.stmt in Held(o.cursor);
      }
    }
  }

  /** Closing a query removes it alone: the other queries keep their places, handles and cursors. */
  lemma CloseQueryRemovesOne(d: Driver, handle: int)
    requires BooksOk(d)
    ensures var r := CloseQuery(d, handle);
            if HasHandle(d.table, handle) then
              exists k :: 0 <= k < |d.table| && d.table[k].handle == handle
                          && r.rc == 0 && r.driver.table == Without(d.table, k) && !HasHandle(r.driver.table, handle)
            else r == Fail(d)
  {
    hide Discard, Books;
    var k := Find(d.table, handle);
    if k < |d.table| {
      assert CloseQuery(d, handle).driver.table == Without(d.table, k);
    }
  }

  /** Opening a query and closing it again leaves the table as it was, and no new resource live. */
  lemma QueryThenClose(t: Tape, d: Driver, sql: Option<string>)
    requires BooksOk(d)
    ensures var q := Query(t, d, sql);
            q.rc == 0 ==>
              var c := CloseQuery(q.driver, q.value.value);
              c.rc == 0 && c.driver.table == d.table && c.driver.server.live == d.server.live
  {
    hide OpenQuery, DefineOk, Discard, Numbered;
    QueryAllOrNothing(t, d, sql);
    QueryBooks(t, d, sql);
    var q := Query(t, d, sql);
    if q.rc == 0 {
      var h := q.value.value;
      var k := Find(q.driver.table, h);
      assert q.driver.table[|d.table|].handle == h;
      assert k == |d.table|;
      assert q.driver.table[..k] + q.driver.table[k + 1..] == d.table;
      CloseQueryBooks(q.driver, h);
    }
  }

  /** What is listed under a handle that had already been issued is what was listed under it before. */
  predicate OldHandlesKept(d: Driver, d': Driver) {
    && d.index <= d'.index
    && forall i :: 0 <= i < |d'.table| && d'.table[i].handle <= d.index ==>
         exists j :: 0 <= j < |d.table| && d.table[j].handle == d'.table[i].handle
                     && d.table[j].cursor.stmt == d'.table[i].cursor.stmt
  }

  lemma OldHandlesTrans(d0: Driver, d1: Driver, d2: Driver)
    requires OldHandlesKept(d0, d1) && OldHandlesKept(d1, d2)
    ensures OldHandlesKept(d0, d2)
  {
  }

  lemma SameTableKept(d: Driver, d': Driver)
    requires d'.index == d.index && (d'.table == d.table || d'.table == [])
    ensures OldHandlesKept(d, d')
  {
  }

  lemma CloseQueryKept(d: Driver, handle: int)
    ensures OldHandlesKept(d, CloseQuery(d, handle).driver)
  {
    hide Discard;
    var k := Find(d.table, handle);
    if k < |d.table| {
      var rest := d.table[..k] + d.table[k + 1..];
      forall i | 0 <= i < |rest|
        ensures exists j :: 0 <= j < |d.table| && d.table[j] == rest[i]
      {
        assert rest[i] == d.table[if i < k then i else i + 1];
      }
    }
  }

  lemma {:induction false} RetryTable(t: Tape, d: Driver, attempt: nat, maxRetryTimes: int)
    ensures var r := Retry(t, d, attempt, maxRetryTimes);
            r.driver.index == d.index && (r.driver.table == d.table || r.driver.table == [])
    decreases maxRetryTimes - attempt
  {
    hide DestroyAll;
    if attempt < maxRetryTimes {
      var r := ConnectNative(t, d.(connected := false));
      if r.rc != 0 {
        RetryTable(t, FreeTable(r.driver), attempt + 1, maxRetryTimes);
      }
    }
  }

  /** Only queries, fetches and connection checks touch the table. */
  predicate TouchesTable(call: Call) {
    call.CallQuery? || call.CallFetch? || call.CallGetCurRec? || call.CallCloseQuery? || call.CallCheckConStatus?
  }

  lemma OtherCallsLeaveTable(t: Tape, d: Driver, call: Call)
    requires Allowed(t, d, call) && !TouchesTable(call)
    ensures var d' := Apply(t, d, call).driver; d'.table == d.table && d'.index == d.index
  {
    hide CloseScratch, InSetSql, GetRec, InExec, ExecuteSql, PhExecute, BeginLong, SetLongFld, TransferBinData;
  }

  lemma ApplyKeepsOldHandles(t: Tape, d: Driver, call: Call)
    requires BooksOk(d) && Allowed(t, d, call)
    ensures OldHandlesKept(d, Apply(t, d, call).driver)
  {
    hide BooksOk, Query, CloseQuery, Retry;
    match call
    case CallQuery(text) =>
      QueryAllOrNothing(t, d, text);
      QueryIndex(t, d, text);
    case CallCloseQuery(handle) => CloseQueryKept(d, handle);
    case CallFetch(handle) =>
    case CallGetCurRec(handle) =>
    case CallCheckConStatus(n) =>
      var d' := d.(server := AskConnection(t, d.server).0);
      RetryTable(t, d', 0, n);
      SameTableKept(d, Apply(t, d, call).driver);
    case _ =>
      OtherCallsLeaveTable(t, d, call);
      SameTableKept(d, Apply(t, d, call).driver);
  }

  lemma QueryIndex(t: Tape, d: Driver, sql: Option<string>)
    ensures var d' := Query(t, d, sql).driver;
            d'.index == (if sql.Some? then d.index + 1 else d.index) && d'.connected == d.connected
  {
    hide OpenQuery;
  }

  predicate IsQuery(call: Call) {
    call.CallQuery? && call.text.Some?
  }

  /** How many of the calls are queries with a text, failing ones included. */
  function Queries(calls: seq<Call>): nat {
    if calls == [] then 0 else (if IsQuery(calls[0]) then 1 else 0) + Queries(calls[1..])
  }

  lemma ApplyIndex(t: Tape, d: Driver, call: Call)
    requires Allowed(t, d, call)
    ensures Apply(t, d, call).driver.index == d.index + if IsQuery(call) then 1 else 0
  {
    hide Query, CloseQuery, Retry;
    match call
    case CallQuery(text) => QueryIndex(t, d, text);
    case CallCloseQuery(handle) => CloseQueryIndex(d, handle);
    case CallFetch(handle) =>
    case CallGetCurRec(handle) =>
    case CallCheckConStatus(n) => RetryTable(t, d.(server := AskConnection(t, d.server).0), 0, n);
    case _ => OtherCallsLeaveTable(t, d, call);
  }

  lemma CloseQueryIndex(d: Driver, handle: int)
    ensures var d' := CloseQuery(d, handle).driver; d'.index == d.index && d'.connected == d.connected
  {
    hide Discard;
  }

  lemma {:induction false} RunIndex(t: Tape, d: Driver, calls: seq<Call>)
    requires RunAllowed(t, d, calls)
    ensures Run(t, d, calls).index == d.index + Queries(calls)
    decreases calls
  {
    hide Apply;
    if calls != [] {
      ApplyIndex(t, d, calls[0]);
      RunIndex(t, Apply(t, d, calls[0]).driver, calls[1..]);
    }
  }

  /** The handles of a driver are 1, 2, 3 and so on: that of a query is its number among the queries made. */
  lemma HandlesAreNumbered(t: Tape, s: Server, trans: bool, calls: seq<Call>, sql: Option<string>)
    requires RunAllowed(t, NewDriver(s, trans), calls)
    ensures var r := Query(t, Run(t, NewDriver(s, trans), calls), sql);
            r.rc == 0 ==> r.value == Some(Queries(calls) + 1)
  {
    hide Run, RunAllowed, OpenQuery, Queries, Discard;
    RunIndex(t, NewDriver(s, trans), calls);
  }

  /** No handle is ever reused: over any run an old handle names the old query or nothing at all. */
  lemma {:induction false} HandlesAreNeverReused(t: Tape, d: Driver, calls: seq<Call>)
    requires BooksOk(d) && RunAllowed(t, d, calls)
    ensures OldHandlesKept(d, Run(t, d, calls))
    decreases calls
  {
    hide BooksOk, Apply, OldHandlesKept;
    if calls == [] {
      SameTableKept(d, d);
    } else {
      var d' := Apply(t, d, calls[0]).driver;
      ApplyBooks(t, d, calls[0]);
      ApplyKeepsOldHandles(t, d, calls[0]);
      HandlesAreNeverReused(t, d', calls[1..]);
      OldHandlesTrans(d, d', Run(t, d', calls[1..]));
    }
  }

  // ---------------------------------------------------------------- the life of the scratch cursor

  /** Whether a load is in progress after a call, given the state before it and the code returned. */
  predicate LoadingAfter(d: Driver, call: Call, rc: int) {
    match call
    case CallBeginLoad(text, _) => rc == 0 || (d.scratch.isOpen && PhSetSql(d, text).rc != 0)
    case CallTransfer(_) => rc == 0
    case CallEndLoad(_) => false
    case CallDisconnect => false
    case CallCheckSql(_) => false
    case CallPhExecute(_) => d.scratch.isOpen && !d.connected
    case CallSetLongFld(text, msg, _, _, _) => d.scratch.isOpen && (msg.Null? || PhSetSql(d, text).rc != 0)
    case _ => d.scratch.isOpen
  }

  /** The scratch cursor is open between calls exactly while a load is in progress. */
  lemma ScratchLife(t: Tape, d: Driver, call: Call)
    requires BooksOk(d) && Allowed(t, d, call)
    ensures var r := Apply(t, d, call); r.driver.scratch.isOpen <==> LoadingAfter(d, call, r.rc)
  {
    hide BooksOk, CheckConStatus, ExecuteSql, GetRec, InSetSql, PhSetSql, PhExecute, SetLongFld, BeginLong,
      TransferBinData, InExec, Query, CloseQuery, CloseScratch, Disconnect, BindParm;
    match call
    case CallDisconnect => DisconnectBooks(d);
    case CallCheckConStatus(n) => CheckConStatusBooks(t, d, n);
    case CallExecuteSql(sql, wantCount, isCommit) => ExecuteSqlBooks(t, d, sql, wantCount, isCommit);
    case CallGetRec(sql) => GetRecBooks(t, d, sql);
    case CallIsTable(name) => GetRecBooks(t, d, ShowTables(name));
    case CallCheckSql(sql) =>
      InSetSqlBooks(t, d, sql);
      CloseScratchBooks(InSetSql(t, d, sql).driver);
    case CallPhSetSql(text) => PhSetSqlScratch(d, text);
    case CallPhExecute(isCommit) => PhExecuteBooks(t, d, isCommit);
    case CallSetLongFld(text, msg, length, longType, isCommit) =>
      SetLongFldBooks(t, d, text, msg, length, longType, isCommit);
      SetLongFldRefused(t, d, text, msg, length, longType, isCommit);
    case CallBeginLoad(text, colType) =>
      BeginLongBooks(t, d, text, LoadBind(colType));
      BeginLongRefused(t, d, text, LoadBind(colType));
    case CallTransfer(data) => TransferBooks(t, d, data);
    case CallEndLoad(isCommit) => InExecBooks(t, d, isCommit);
    case CallQuery(text) => QueryAllOrNothing(t, d, text);
    case CallCloseQuery(handle) => CloseQueryScratch(d, handle);
    case _ =>
  }

  lemma PhSetSqlScratch(d: Driver, sql: Option<string>)
    ensures PhSetSql(d, sql).driver.scratch == d.scratch
    ensures PhSetSql(d, sql).rc != 0 ==> PhSetSql(d, sql) == Fail(d)
  {
  }

  lemma CloseQueryScratch(d: Driver, handle: int)
    ensures CloseQuery(d, handle).driver.scratch == d.scratch
  {
    hide Discard;
  }

  lemma BeginLongRefused(t: Tape, d: Driver, sql: Option<string>, bind: Option<Bind>)
    ensures PhSetSql(d, sql).rc != 0 ==> BeginLong(t, d, sql, bind) == Fail(d)
  {
    hide PhSetSql, InSetSql, AllocateParms, BindParms, CloseScratch, BindPos;
    PhSetSqlScratch(d, sql);
    PhSetSqlCode(d, sql);
  }

  lemma PhSetSqlCode(d: Driver, sql: Option<string>)
    ensures PhSetSql(d, sql).rc == 0 || PhSetSql(d, sql).rc == -1
  {
  }

  lemma SetLongFldRefused(t: Tape, d: Driver, sql: Option<string>, msg: Pointer, length: nat, longType: int,
                          isCommit: bool)
    requires msg.To? && longType == SQL_BINARY ==> length <= |msg.text|
    ensures msg.Null? || PhSetSql(d, sql).rc != 0 ==> SetLongFld(t, d, sql, msg, length, longType, isCommit) == Fail(d)
  {
    hide BeginLong, TransferBinData, InExec, PhSetSql;
    if msg.To? && PhSetSql(d, sql).rc != 0 {
      BeginLongRefused(t, d, sql, LongBind(msg, length, longType));
    }
  }

  /** While a load is in progress these calls fail and change nothing at all. */
  lemma LoadIsUndisturbed(t: Tape, d: Driver, call: Call)
    requires BooksOk(d) && d.scratch.isOpen
    requires call.CallExecuteSql? || call.CallGetRec? || call.CallIsTable?
    ensures Apply(t, d, call) == Fail(d)
  {
    hide BooksOk, ExecuteSql, GetRec;
    match call
    case CallExecuteSql(sql, wantCount, isCommit) => ExecuteSqlBooks(t, d, sql, wantCount, isCommit);
    case CallGetRec(sql) => GetRecBooks(t, d, sql);
    case CallIsTable(name) => GetRecBooks(t, d, ShowTables(name));
  }

  /** From idle, only a load that has begun leaves the scratch cursor open. */
  lemma IdleStaysIdle(t: Tape, d: Driver, call: Call)
    requires BooksOk(d) && Allowed(t, d, call) && !d.scratch.isOpen
    ensures var r := Apply(t, d, call); r.driver.scratch.isOpen <==> call.CallBeginLoad? && r.rc == 0
  {
    hide BooksOk, Apply, PhSetSql;
    ScratchLife(t, d, call);
  }

  /** A load of several pieces ends with its last failed transfer, or with endLoadBinaryData. */
  lemma EndLoadEnds(t: Tape, d: Driver, isCommit: bool)
    requires BooksOk(d) && d.scratch.isOpen
    ensures var r := Apply(t, d, CallEndLoad(isCommit));
            !r.driver.scratch.isOpen && d.scratch.stmt !in r.driver.server.live
  {
    hide InExec, BooksOk;
    InExecBooks(t, d, isCommit);
    InExecReturnsStatement(t, d, isCommit);
  }

  lemma InExecReturnsStatement(t: Tape, d: Driver, isCommit: bool)
    requires BooksOk(d) && d.scratch.isOpen
    ensures d.scratch.stmt !in InExec(t, d, isCommit).driver.server.live
  {
    hide HeldAll, TableOk, HeldBuffers;
    var e := WriteScratch(t, d);
    var live := d.server.live;
    assert d.scratch.stmt in Held(d.scratch);
    assert live[d.scratch.stmt] == 1;
    assert InExec(t, d, isCommit).driver.server.live
      == ReleaseIf(ReleaseIf(e.driver.server, d.scratch.meta), d.scratch.stmt).live;
  }

  // ---------------------------------------------------------------- reconnecting

  /** The answer to connection attempt number `k` of a check that begins at `clock`. */
  function Attempt(t: Tape, clock: nat, k: nat): int {
    t(clock + 1 + k).code
  }

  lemma {:induction false} RetryResult(t: Tape, d: Driver, clock: nat, attempt: nat, maxRetryTimes: int)
    requires d.server.clock == clock + 1 + attempt
    requires forall j :: 0 <= j < attempt ==> Attempt(t, clock, j) != 0
    requires attempt > 0 ==> d.table == []
    ensures var r := Retry(t, d, attempt, maxRetryTimes);
            if exists k :: 0 <= attempt <= k < maxRetryTimes && Attempt(t, clock, k) == 0 then
              && 0 <= r.rc < maxRetryTimes
              && Attempt(t, clock, r.rc) == 0 && (forall j :: 0 <= j < r.rc ==> Attempt(t, clock, j) != 0)
              && r.driver.connected && !r.driver.trans
              && r.driver.table == (if r.rc == 0 then d.table else [])
              && r.driver.server.clock == clock + 2 + r.rc
            else
              && r.rc == LOST_CONNECTION
              && (attempt < maxRetryTimes ==> !r.driver.connected)
              && r.driver.table == (if attempt < maxRetryTimes then [] else d.table)
              && r.driver.server.clock == clock + 1 + (if attempt < maxRetryTimes then maxRetryTimes else attempt)
    decreases maxRetryTimes - attempt
  {
    hide DestroyAll;
    if attempt < maxRetryTimes {
      var r := ConnectNative(t, d.(connected := false));
      assert Code(t, d.server) == Attempt(t, clock, attempt);
      if r.rc != 0 {
        RetryResult(t, FreeTable(r.driver), clock, attempt + 1, maxRetryTimes);
      }
    }
  }

  /** checkConStatus finds the connection lost, or none. */
  predicate Lost(t: Tape, d: Driver) {
    !d.connected || Code(t, d.server) in LOST_CODES
  }

  /** Attempt k is the first of those allowed that succeeds. */
  predicate FirstSuccess(t: Tape, clock: nat, maxRetryTimes: int, k: int) {
    0 <= k < maxRetryTimes && Attempt(t, clock, k) == 0 && forall j :: 0 <= j < k ==> Attempt(t, clock, j) != 0
  }

  /**
   checkConStatus asks for the error once.  A connection that is not lost is left as it is, with -1.
   For a lost one it connects at most `maxRetryTimes` times: it returns k exactly when attempts 0..k-1
   failed and attempt k succeeded, and -99999 exactly when all failed; the table is untouched when the
   first attempt succeeds and empty after a failure.
   */
  lemma CheckConStatusResult(t: Tape, d: Driver, maxRetryTimes: int)
    ensures var r := CheckConStatus(t, d, maxRetryTimes);
            var clock := d.server.clock;
            && (r.rc == -1 <==> !Lost(t, d))
            && (forall k :: 0 <= k ==> (r.rc == k <==> Lost(t, d) && FirstSuccess(t, clock, maxRetryTimes, k)))
            && (r.rc == -99999 <==>
                  Lost(t, d) && forall j :: 0 <= j < maxRetryTimes ==> Attempt(t, clock, j) != 0)
            && (r.rc >= -1 || r.rc == -99999)
            && (r.driver.table == if r.rc == -1 || r.rc == 0 || maxRetryTimes <= 0 then d.table else [])
            && (r.rc >= -1 ==> r.driver.connected)
            && (r.rc == -1 ==> r.driver.trans == d.trans && LiveAsBefore(d, r.driver))
            && r.driver.server.clock ==
                 clock + 1 + (if r.rc >= 0 then r.rc + 1
                              else if r.rc == -99999 && maxRetryTimes > 0 then maxRetryTimes else 0)
  {
    if Lost(t, d) {
      RetryResult(t, d.(server := AskConnection(t, d.server).0), d.server.clock, 0, maxRetryTimes);
    }
  }

  /** Nothing acquired or returned, nothing written, committed or rolled back. */
  predicate LiveAsBefore(d: Driver, d': Driver) {
    d'.server.live == d.server.live && d'.server.journal == d.server.journal
  }

  // ---------------------------------------------------------------- the connection

  /** Whether a call makes the connection or ends it, if it does either. */
  function Link(t: Tape, d: Driver, call: Call): Option<bool> {
    match call
    case CallConnect(user, password, host) =>
      if |user| <= 63 && |password| <= 127 && |host| <= 63 && !d.connected && t(d.server.clock).code == 0
      then Some(true) else None
    case CallDisconnect => Some(false)
    case CallCheckConStatus(n) =>
      if n > 0 && Lost(t, d) then Some(exists k :: 0 <= k < n && Attempt(t, d.server.clock, k) == 0) else None
    case _ => None
  }

  lemma CheckConnected(t: Tape, d: Driver, n: int)
    ensures var link := Link(t, d, CallCheckConStatus(n));
            CheckConStatus(t, d, n).driver.connected == if link.Some? then link.value else d.connected
  {
    if Lost(t, d) {
      RetryResult(t, d.(server := AskConnection(t, d.server).0), d.server.clock, 0, n);
    }
  }

  lemma ApplyConnected(t: Tape, d: Driver, call: Call)
    requires Allowed(t, d, call)
    ensures var link := Link(t, d, call);
            Apply(t, d, call).driver.connected == if link.Some? then link.value else d.connected
  {
    hide CloseScratch, InSetSql, GetRec, InExec, ExecuteSql, PhExecute, BeginLong, SetLongFld, TransferBinData, Query,
      CloseQuery, FirstSuccess, CheckConStatus;
    match call
    case CallCheckConStatus(n) => CheckConnected(t, d, n);
    case CallQuery(text) => QueryIndex(t, d, text);
    case CallCloseQuery(handle) => CloseQueryIndex(d, handle);
    case _ =>
  }

  /** The last of the run's calls that made or ended the connection. */
  function LastLink(t: Tape, d: Driver, calls: seq<Call>): Option<bool>
    requires RunAllowed(t, d, calls)
    decreases calls
  {
    if calls == [] then None
    else
      var later := LastLink(t, Apply(t, d, calls[0]).driver, calls[1..]);
      if later.Some? then later else Link(t, d, calls[0])
  }

  lemma {:induction false} RunLink(t: Tape, d: Driver, calls: seq<Call>)
    requires RunAllowed(t, d, calls)
    ensures var link := LastLink(t, d, calls);
            Run(t, d, calls).connected == if link.Some? then link.value else d.connected
    decreases calls
  {
    hide Apply, Link;
    if calls != [] {
      ApplyConnected(t, d, calls[0]);
      RunLink(t, Apply(t, d, calls[0]).driver, calls[1..]);
    }
  }

  /**
   After any run of a new driver it is connected exactly when the last connect that succeeded, disconnect
   or check that tried to reconnect made a connection.
   */
  lemma ConnectedIff(t: Tape, s: Server, trans: bool, calls: seq<Call>)
    requires RunAllowed(t, NewDriver(s, trans), calls)
    ensures Run(t, NewDriver(s, trans), calls).connected <==> LastLink(t, NewDriver(s, trans), calls) == Some(true)
  {
    hide Run, LastLink;
    RunLink(t, NewDriver(s, trans), calls);
  }
}
