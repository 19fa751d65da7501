/**
 The two drivers against one specification of a table of open queries, call by call and over whole
 runs, and their reconnection loops against each other.  They are written independently and return
 different codes.
 */
module QueryTable {
  import opened NativeServer
  import M = MysqlSpec
  import MB = MysqlBooks
  import MR = MysqlRuns
  import MC = MysqlCursorSpec
  import MA = MysqlAnswers
  import O = OracleSpec
  import R = OracleRuns
  import OA = OracleAnswers

  /** An open query: its handle, and the native statement it stands for. */
  datatype Row = Row(handle: int, stmt: nat)

  /** What the library says to a fetch. */
  datatype Native = More | End | Error

  /** A request, and what the library says to it: grants it or not, has a row or not, counts so many. */
  datatype Request =
    | OpenQuery(granted: bool)
    | FetchRow(handle: int, native: Native)
    | RowCount(handle: int, count: int)
    | CloseQuery(handle: int)
    | CheckConnection
    | Other

  /** What the caller is told; `Refused` is a failure that does not say whether there is such a query. */
  datatype Answer = Opened(handle: int) | Refused | NoSuchQuery | Served | NoMoreRows | Counted(count: int)

  function Told(native: Native): Answer {
    match native case More => Served case End => NoMoreRows case Error => Refused
  }

  predicate Has(rows: seq<Row>, handle: int) {
    exists i :: 0 <= i < |rows| && rows[i].handle == handle
  }

  predicate Distinct(rows: seq<Row>) {
    forall i, j :: 0 <= i < j < |rows| ==> rows[i].handle != rows[j].handle
  }

  /**
   The table as an ordered map: queries are added at the end, and removed from wherever they are; a
   check of the connection keeps all of them or none.
   */
  predicate Step(rows: seq<Row>, request: Request, answer: Answer, rows': seq<Row>) {
    match request
    case OpenQuery(granted) =>
      if granted then
        && answer.Opened? && |rows'| == |rows| + 1 && rows'[..|rows|] == rows
        && rows'[|rows|].handle == answer.handle && !Has(rows, answer.handle)
      else answer == Refused && rows' == rows
    case FetchRow(handle, native) =>
      && rows' == rows
      && if !Has(rows, handle) then answer == NoSuchQuery || answer == Refused
         else answer == Told(native)
    case RowCount(handle, count) => rows' == rows && answer == if Has(rows, handle) then Counted(count) else NoSuchQuery
    case CloseQuery(handle) =>
      if Has(rows, handle) then
        && answer == Served
        && exists k :: 0 <= k < |rows| && rows[k].handle == handle && rows' == rows[..k] + rows[k + 1..]
      else answer == NoSuchQuery && rows' == rows
    case CheckConnection => rows' == rows || rows' == []
    case Other => rows' == rows
  }

  /** What is found under another handle is what it was: no request mixes queries up. */
  lemma OthersAreUntouched(rows: seq<Row>, request: Request, answer: Answer, rows': seq<Row>, row: Row)
    requires Step(rows, request, answer, rows') && row in rows && request != CloseQuery(row.handle)
             && request != CheckConnection
    ensures row in rows'
  {
    var i :| 0 <= i < |rows| && rows[i] == row;
    match request
    case OpenQuery(granted) =>
      if granted {
        assert rows'[..|rows|][i] == row;
      }
    case CloseQuery(handle) =>
      if Has(rows, handle) {
        var k :| 0 <= k < |rows| && rows[k].handle == handle && rows' == rows[..k] + rows[k + 1..];
        assert rows'[if i < k then i else i - 1] == row;
      }
    case _ =>
  }

  /** No request makes a handle name two queries. */
  lemma StepKeepsDistinct(rows: seq<Row>, request: Request, answer: Answer, rows': seq<Row>)
    requires Distinct(rows) && Step(rows, request, answer, rows')
    ensures Distinct(rows')
  {
    if request == OpenQuery(true) {
      forall i, j | 0 <= i < j < |rows'|
        ensures rows'[i].handle != rows'[j].handle
      {
        assert rows'[i] == rows'[..|rows|][i] == rows[i];
        if j < |rows| {
          assert rows'[j] == rows'[..|rows|][j] == rows[j];
        }
      }
    }
  }

  // ---------------------------------------------------------------- behaviours

  /** One request, what was answered, and the table afterwards. */
  datatype Event = Event(request: Request, answer: Answer, rows: seq<Row>)

  predicate Behaves(rows: seq<Row>, events: seq<Event>)
    decreases events
  {
    events == [] || (Step(rows, events[0].request, events[0].answer, events[0].rows)
                     && Behaves(events[0].rows, events[1..]))
  }

  function After(rows: seq<Row>, events: seq<Event>): seq<Row> {
    if events == [] then rows else events[|events| - 1].rows
  }

  /** In every behaviour handles stay unique, and a query stays until it is closed or the connection is checked. */
  lemma {:induction false} BehaviourKeepsRows(rows: seq<Row>, events: seq<Event>, row: Row)
    requires Behaves(rows, events)
    ensures Distinct(rows) ==> Distinct(After(rows, events))
    ensures row in rows && (forall i :: 0 <= i < |events| ==>
                              events[i].request != CloseQuery(row.handle) && events[i].request != CheckConnection)
            ==> row in After(rows, events)
    decreases events
  {
    hide Step, Distinct;
    if events != [] {
      var e, rest := events[0], events[1..];
      if Distinct(rows) {
        StepKeepsDistinct(rows, e.request, e.answer, e.rows);
      }
      if row in rows && e.request != CloseQuery(row.handle) && e.request != CheckConnection {
        OthersAreUntouched(rows, e.request, e.answer, e.rows, row);
      }
      BehaviourKeepsRows(e.rows, rest, row);
      assert rest != [] ==> rest[|rest| - 1] == events[|events| - 1];
      assert forall i :: 0 <= i < |rest| ==> rest[i] == events[i + 1];
    }
  }

  // ---------------------------------------------------------------- MySQL

  function MysqlRows(table: seq<M.Listed>): (rows: seq<Row>)
    ensures |rows| == |table| && forall i :: 0 <= i < |rows| ==> rows[i] == Row(table[i].handle, table[i].cursor.stmt)
  {
    seq(|table|, i requires 0 <= i < |table| => Row(table[i].handle, table[i].cursor.stmt))
  }

  /** The call as a request, with what the library is going to say to it. */
  function MysqlRequest(t: Tape, d: M.Driver, call: M.Call): Request {
    var code := t(d.server.clock).code;
    match call
    case CallQuery(text) => OpenQuery(text.Some? && d.connected && MA.Selects(t, d.server.clock))
    case CallFetch(handle) =>
      FetchRow(handle, if code == 0 then More else if code == 100 || code == 101 then End else Error)
    case CallGetCurRec(handle) => RowCount(handle, code)
    case CallCloseQuery(handle) => CloseQuery(handle)
    case CallCheckConStatus(_) => CheckConnection
    case _ => Other
  }

  /** From the code alone.  After a fetch, -1 leaves open whether there is such a query; elsewhere it does not. */
  function MysqlAnswer(request: Request, rc: int, value: Option<int>): Answer {
    match request
    case OpenQuery(_) => if rc == 0 && value.Some? then Opened(value.value) else Refused
    case FetchRow(_, _) => if rc == 0 then Served else if rc == -3 then NoMoreRows else Refused
    case RowCount(_, _) => if rc == -1 || value.None? then NoSuchQuery else Counted(value.value)
    case CloseQuery(_) => if rc == -1 then NoSuchQuery else Served
    case _ => if rc >= 0 then Served else Refused
  }

  lemma MysqlHas(table: seq<M.Listed>, handle: int)
    ensures Has(MysqlRows(table), handle) == MR.HasHandle(table, handle)
    ensures MR.HasHandle(table, handle) <==> M.Find(table, handle) < |table|
  {
    if MR.HasHandle(table, handle) {
      var i :| 0 <= i < |table| && table[i].handle == handle;
      assert MysqlRows(table)[i].handle == handle;
    }
    if Has(MysqlRows(table), handle) {
      var i :| 0 <= i < |MysqlRows(table)| && MysqlRows(table)[i].handle == handle;
      assert table[i].handle == handle;
    }
  }

  lemma MysqlRowsKept(t: Tape, d: M.Driver, handle: int)
    ensures MysqlRows(M.FetchQuery(t, d, handle).driver.table) == MysqlRows(d.table)
    ensures MysqlRows(M.GetCurRec(t, d, handle).driver.table) == MysqlRows(d.table)
  {
    hide Numbered, Silent;
  }

  lemma MysqlOpenStep(t: Tape, d: M.Driver, text: Option<string>)
    requires MB.BooksOk(d)
    ensures var (r, q) := (M.Query(t, d, text), MysqlRequest(t, d, M.CallQuery(text)));
            Step(MysqlRows(d.table), q, MysqlAnswer(q, r.rc, r.value), MysqlRows(r.driver.table))
  {
    hide M.Query, MB.BooksOk, MC.DefineOk, Silent, MA.Selects, MA.IsDescribed;
    MR.QueryAllOrNothing(t, d, text);
    MA.QueryAnswer(t, d, text);
    var r := M.Query(t, d, text);
    if r.rc == 0 {
      MysqlHas(d.table, r.value.value);
      assert MysqlRows(r.driver.table)[..|d.table|] == MysqlRows(d.table);
    }
  }

  lemma MysqlCloseStep(t: Tape, d: M.Driver, handle: int)
    requires MB.BooksOk(d)
    ensures var (r, q) := (M.CloseQuery(d, handle), CloseQuery(handle));
            Step(MysqlRows(d.table), q, MysqlAnswer(q, r.rc, r.value), MysqlRows(r.driver.table))
  {
    hide M.CloseQuery, MB.BooksOk, M.Find;
    var rows := MysqlRows(d.table);
    MysqlHas(d.table, handle);
    MR.CloseQueryRemovesOne(d, handle);
    if MR.HasHandle(d.table, handle) {
      var r := M.CloseQuery(d, handle);
      var k :| 0 <= k < |d.table| && d.table[k].handle == handle && r.driver.table == MB.Without(d.table, k);
      assert MysqlRows(r.driver.table) == rows[..k] + rows[k + 1..];
      assert rows[k].handle == handle;
    }
  }

  lemma MysqlReadStep(t: Tape, d: M.Driver, handle: int)
    ensures var (r, q) := (M.FetchQuery(t, d, handle), MysqlRequest(t, d, M.CallFetch(handle)));
            Step(MysqlRows(d.table), q, MysqlAnswer(q, r.rc, r.value), MysqlRows(r.driver.table))
    ensures var (r, q) := (M.GetCurRec(t, d, handle), MysqlRequest(t, d, M.CallGetCurRec(handle)));
            Step(MysqlRows(d.table), q, MysqlAnswer(q, r.rc, r.value), MysqlRows(r.driver.table))
  {
    hide M.FetchQuery, M.GetCurRec, M.Find, MysqlRows, MR.HasHandle, Has;
    MysqlHas(d.table, handle);
    MA.FetchQueryAnswer(t, d, handle);
    MysqlRowsKept(t, d, handle);
  }

  lemma MysqlCheckStep(t: Tape, d: M.Driver, n: int)
    ensures var (r, q) := (M.CheckConStatus(t, d, n), CheckConnection);
            Step(MysqlRows(d.table), q, MysqlAnswer(q, r.rc, r.value), MysqlRows(r.driver.table))
  {
    hide M.Retry;
    MR.RetryTable(t, d.(server := AskConnection(t, d.server).0), 0, n);
  }

  lemma MysqlOtherStep(t: Tape, d: M.Driver, call: M.Call)
    requires M.Allowed(t, d, call) && !MR.TouchesTable(call)
    ensures var (r, q) := (M.Apply(t, d, call), MysqlRequest(t, d, call));
            Step(MysqlRows(d.table), q, MysqlAnswer(q, r.rc, r.value), MysqlRows(r.driver.table))
  {
    hide M.Apply, MysqlRows;
    MR.OtherCallsLeaveTable(t, d, call);
  }

  /** Every call of the MySQL driver is a step of the table, as its code tells. */
  lemma MysqlRefines(t: Tape, d: M.Driver, call: M.Call)
    requires MB.BooksOk(d) && M.Allowed(t, d, call)
    ensures var (r, q) := (M.Apply(t, d, call), MysqlRequest(t, d, call));
            Step(MysqlRows(d.table), q, MysqlAnswer(q, r.rc, r.value), MysqlRows(r.driver.table))
  {
    hide M.Query, M.CloseQuery, M.FetchQuery, M.GetCurRec, M.CheckConStatus, MB.BooksOk, M.Find, M.ExecuteSql,
      M.GetRec, M.InSetSql, M.PhSetSql, M.PhExecute, M.SetLongFld, M.BeginLong, M.TransferBinData, M.InExec,
      M.CloseScratch, M.RoomForSlots, Step, MysqlAnswer, MysqlRows;
    match call
    case CallQuery(text) => MysqlOpenStep(t, d, text);
    case CallFetch(handle) => MysqlReadStep(t, d, handle);
    case CallGetCurRec(handle) => MysqlReadStep(t, d, handle);
    case CallCloseQuery(handle) => MysqlCloseStep(t, d, handle);
    case CallCheckConStatus(n) => MysqlCheckStep(t, d, n);
    case _ => MysqlOtherStep(t, d, call);
  }

  function MysqlEvents(t: Tape, d: M.Driver, calls: seq<M.Call>): seq<Event>
    requires M.RunAllowed(t, d, calls)
    decreases calls
  {
    if calls == [] then []
    else
      var (r, q) := (M.Apply(t, d, calls[0]), MysqlRequest(t, d, calls[0]));
      [Event(q, MysqlAnswer(q, r.rc, r.value), MysqlRows(r.driver.table))] + MysqlEvents(t, r.driver, calls[1..])
  }

  /** Every run of the MySQL driver is a behaviour of the table. */
  lemma {:induction false} MysqlRunRefines(t: Tape, d: M.Driver, calls: seq<M.Call>)
    requires MB.BooksOk(d) && M.RunAllowed(t, d, calls)
    ensures Behaves(MysqlRows(d.table), MysqlEvents(t, d, calls))
    ensures After(MysqlRows(d.table), MysqlEvents(t, d, calls)) == MysqlRows(M.Run(t, d, calls).table)
    decreases calls
  {
    hide M.Apply, Step, MB.BooksOk, MysqlRows, MysqlAnswer;
    if calls != [] {
      var r := M.Apply(t, d, calls[0]);
      MysqlRefines(t, d, calls[0]);
      MB.ApplyBooks(t, d, calls[0]);
      MysqlRunRefines(t, r.driver, calls[1..]);
      assert MysqlEvents(t, d, calls)[1..] == MysqlEvents(t, r.driver, calls[1..]);
    }
  }

  // ---------------------------------------------------------------- Oracle

  function OracleRows(table: seq<O.Listed>): (rows: seq<Row>)
    ensures |rows| == |table| && forall i :: 0 <= i < |rows| ==> rows[i] == Row(table[i].handle, table[i].cursor.stmt)
  {
    seq(|table|, i requires 0 <= i < |table| => Row(table[i].handle, table[i].cursor.stmt))
  }

  function OracleRequest(t: Tape, d: O.Driver, call: O.Call): Request {
    var (k, code) := (d.server.clock, t(d.server.clock).code);
    match call
    case CallQuery(_, _) =>
      OpenQuery(t(k).code == 0 && t(k + 1).code == 0 && t(k + 2).code == 0 && t(k + 3).code == 0)
    case CallFetch(handle) =>
      FetchRow(handle, if code == 0 || code == 99 then More else if code == 100 then End else Error)
    case CallGetCurRec(handle) => RowCount(handle, code)
    case CallCloseQuery(handle) => CloseQuery(handle)
    case CallCheckConStatus(_) => CheckConnection
    case _ => Other
  }

  /** From the code alone: 1 says that there is no such query. */
  function OracleAnswer(request: Request, rc: int, value: Option<int>): Answer {
    match request
    case OpenQuery(_) => if rc == 0 && value.Some? then Opened(value.value) else Refused
    case FetchRow(_, _) =>
      if rc == 1 then NoSuchQuery else if rc == 0 then Served else if rc == -3 then NoMoreRows else Refused
    case RowCount(_, _) => if rc == 1 || value.None? then NoSuchQuery else Counted(value.value)
    case CloseQuery(_) => if rc == 1 then NoSuchQuery else Served
    case _ => if rc >= 0 then Served else Refused
  }

  lemma OracleHas(table: seq<O.Listed>, handle: int)
    ensures Has(OracleRows(table), handle) == O.HasHandle(table, handle)
    ensures O.HasHandle(table, handle) <==> O.Find(table, handle) < |table|
  {
    if O.HasHandle(table, handle) {
      var i :| 0 <= i < |table| && table[i].handle == handle;
      assert OracleRows(table)[i].handle == handle;
    }
    if Has(OracleRows(table), handle) {
      var i :| 0 <= i < |OracleRows(table)| && OracleRows(table)[i].handle == handle;
      assert table[i].handle == handle;
    }
  }

  lemma OracleRowsKept(t: Tape, d: O.Driver, handle: int)
    ensures O.FetchQuery(t, d, handle).driver.table == O.GetCurRec(t, d, handle).driver.table == d.table
    ensures O.FetchQuery(t, d, handle).rc == 1 <==> O.Find(d.table, handle) == |d.table|
  {
    hide Numbered, Silent;
  }

  lemma OracleReadStep(t: Tape, d: O.Driver, handle: int)
    ensures var (r, q) := (O.FetchQuery(t, d, handle), OracleRequest(t, d, O.CallFetch(handle)));
            Step(OracleRows(d.table), q, OracleAnswer(q, r.rc, r.value), OracleRows(r.driver.table))
    ensures var (r, q) := (O.GetCurRec(t, d, handle), OracleRequest(t, d, O.CallGetCurRec(handle)));
            Step(OracleRows(d.table), q, OracleAnswer(q, r.rc, r.value), OracleRows(r.driver.table))
    ensures O.FetchQuery(t, d, handle).rc == 1 <==> !O.HasHandle(d.table, handle)
  {
    hide O.FetchQuery, O.GetCurRec, O.Find, OracleRows, O.HasHandle, Has;
    OracleHas(d.table, handle);
    OracleRowsKept(t, d, handle);
    OA.FetchQueryAnswer(t, d, handle);
  }

  lemma OracleOpenStep(t: Tape, d: O.Driver, text: string, draws: seq<int>)
    requires R.Idle(d) && draws != [] && !O.HasHandle(d.table, draws[|draws| - 1])
    ensures var (r, q) := (O.Query(t, d, text, draws), OracleRequest(t, d, O.CallQuery(text, draws)));
            Step(OracleRows(d.table), q, OracleAnswer(q, r.rc, r.value), OracleRows(r.driver.table))
  {
    hide O.Query, R.BooksOk;
    R.QueryAllOrNothing(t, d, text, draws);
    OA.QueryText(t, d, text, draws);
    var r := O.Query(t, d, text, draws);
    if r.rc == 0 {
      OracleHas(d.table, r.value.value);
      assert OracleRows(r.driver.table)[..|d.table|] == OracleRows(d.table);
    }
  }

  lemma OracleCloseStep(d: O.Driver, handle: int)
    requires R.Idle(d)
    ensures var (r, q) := (O.CloseQuery(d, handle), CloseQuery(handle));
            Step(OracleRows(d.table), q, OracleAnswer(q, r.rc, r.value), OracleRows(r.driver.table))
  {
    hide O.CloseQuery, R.BooksOk, O.Find;
    var rows := OracleRows(d.table);
    OracleHas(d.table, handle);
    R.CloseQueryRemovesOne(d, handle);
    if O.HasHandle(d.table, handle) {
      var r := O.CloseQuery(d, handle);
      var k :| 0 <= k < |d.table| && d.table[k].handle == handle && r.driver.table == R.Without(d.table, k);
      assert OracleRows(r.driver.table) == rows[..k] + rows[k + 1..];
      assert rows[k].handle == handle;
    }
  }

  lemma {:induction false} OracleRetryTable(t: Tape, d: O.Driver, attempt: nat, maxRetryTimes: int)
    ensures var r := O.Retry(t, d, attempt, maxRetryTimes); r.driver.table == d.table || r.driver.table == []
    decreases maxRetryTimes - attempt
  {
    hide O.DestroyAll, ConnectOver;
    if attempt < maxRetryTimes {
      var r := O.Attempt(t, d, d.connected);
      if r.rc != 0 {
        OracleRetryTable(t, O.FreeTable(r.driver), attempt + 1, maxRetryTimes);
      }
    }
  }

  lemma CleanupKeepsTable(t: Tape)
    ensures forall d: O.Driver {:trigger O.FailoverCleanup(t, d)} :: O.FailoverCleanup(t, d).table == d.table
    ensures forall d: O.Driver {:trigger O.GetErr(t, d)} :: O.GetErr(t, d).driver.table == d.table
  {
    forall d: O.Driver
      ensures O.FailoverCleanup(t, d).table == O.GetErr(t, d).driver.table == d.table
    {
      R.GetErrTable(t, d);
    }
  }

  lemma OracleOther(t: Tape, d: O.Driver, call: O.Call)
    requires O.Allowed(d, call) && OracleRequest(t, d, call) == Other
    ensures O.Apply(t, d, call).driver.table == d.table
  {
    hide O.OpenScratch, O.CloseScratch, O.PrepareScratch, O.AskScratch, O.WriteScratch, O.BindScratch, O.BindSlots,
      O.FailoverCleanup, O.GetErr, O.TableQuery, O.BindOf, Settle, Numbered, Silent, ConnectOver, FreeEnvironment;
    CleanupKeepsTable(t);
  }

  /**
   Every call of the Oracle driver is a step of the same table; its fetch even tells whether there
   is such a query.
   */
  lemma OracleRefines(t: Tape, d: O.Driver, call: O.Call)
    requires R.Idle(d) && O.Allowed(d, call)
    ensures var (r, q) := (O.Apply(t, d, call), OracleRequest(t, d, call));
            Step(OracleRows(d.table), q, OracleAnswer(q, r.rc, r.value), OracleRows(r.driver.table))
    ensures call.CallFetch? ==> (O.Apply(t, d, call).rc == O.NO_SUCH_QUERY <==> !O.HasHandle(d.table, call.handle))
  {
    hide O.Query, O.CloseQuery, O.FetchQuery, O.GetCurRec, O.GetErr, O.Retry, R.BooksOk, O.Find, O.HasHandle;
    match call
    case CallQuery(text, draws) => OracleOpenStep(t, d, text, draws);
    case CallFetch(handle) => OracleReadStep(t, d, handle);
    case CallGetCurRec(handle) => OracleReadStep(t, d, handle);
    case CallCloseQuery(handle) => OracleCloseStep(d, handle);
    case CallCheckConStatus(n) =>
      CleanupKeepsTable(t);
      OracleRetryTable(t, O.GetErr(t, d).driver, 0, n);
    case _ => OracleOther(t, d, call);
  }

  function OracleEvents(t: Tape, d: O.Driver, calls: seq<O.Call>): seq<Event>
    requires O.RunAllowed(t, d, calls)
    decreases calls
  {
    if calls == [] then []
    else
      var (r, q) := (O.Apply(t, d, calls[0]), OracleRequest(t, d, calls[0]));
      [Event(q, OracleAnswer(q, r.rc, r.value), OracleRows(r.driver.table))] + OracleEvents(t, r.driver, calls[1..])
  }

  /** Every run of the Oracle driver is a behaviour of the same table. */
  lemma {:induction false} OracleRunRefines(t: Tape, d: O.Driver, calls: seq<O.Call>)
    requires R.Idle(d) && O.RunAllowed(t, d, calls)
    ensures Behaves(OracleRows(d.table), OracleEvents(t, d, calls))
    ensures After(OracleRows(d.table), OracleEvents(t, d, calls)) == OracleRows(O.Run(t, d, calls).table)
    decreases calls
  {
    hide O.Apply, Step, R.Idle, OracleRows, OracleAnswer;
    if calls != [] {
      var r := O.Apply(t, d, calls[0]);
      OracleRefines(t, d, calls[0]);
      R.ApplyIdle(t, d, calls[0]);
      OracleRunRefines(t, r.driver, calls[1..]);
      assert OracleEvents(t, d, calls)[1..] == OracleEvents(t, r.driver, calls[1..]);
    }
  }

  // ---------------------------------------------------------------- reconnecting

  /**
   Given the same answers, the two reconnection loops make the same attempts and both succeed or
   both fail; the MySQL driver says which attempt it was, the Oracle driver always says 1.
   */
  lemma {:induction false} RetriesAgree(t: Tape, m: M.Driver, o: O.Driver, attempt: nat, maxRetryTimes: int)
    requires m.server.clock == o.server.clock
    ensures var rm, ro := M.Retry(t, m, attempt, maxRetryTimes), O.Retry(t, o, attempt, maxRetryTimes);
            && rm.driver.server.clock == ro.driver.server.clock
            && (rm.rc >= attempt || rm.rc == M.LOST_CONNECTION)
            && (rm.rc >= attempt <==> ro.rc == 1)
            && (rm.rc == M.LOST_CONNECTION <==> ro.rc == O.LOST_CONNECTION)
            && (rm.rc > attempt || (rm.rc < 0 && attempt < maxRetryTimes)
                ==> rm.driver.table == [] && ro.driver.table == [])
            && (rm.rc == attempt ==> rm.driver.table == m.table && ro.driver.table == o.table)
    decreases maxRetryTimes - attempt
  {
    hide M.DestroyAll, O.DestroyAll, Settle, Numbered, Silent, FreeEnvironment;
    if attempt < maxRetryTimes {
      var rm, ro := M.ConnectNative(t, m.(connected := false)), O.Attempt(t, o, o.connected);
      if rm.rc != 0 {
        RetriesAgree(t, M.FreeTable(rm.driver), O.FreeTable(ro.driver), attempt + 1, maxRetryTimes);
      }
    }
  }
}
