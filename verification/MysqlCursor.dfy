/** `mysql_cursor`: the class, each member proved to do what its specification function says. */
module MysqlCursors {
  import opened NativeServer
  import opened NativeLibrary
  import opened MysqlCursorSpec

  /** The release loop: one more column is one more buffer, or none. */
  lemma BuffersStep(s: Server, columns: seq<Column>, i: nat)
    requires i < |columns|
    ensures ReleaseAll(s, Buffers(columns[..i + 1]))
            == ReleaseIf(ReleaseAll(s, Buffers(columns[..i])), columns[i].buf)
  {
    hide ReleaseAll, Release, Numbered;
    assert columns[..i + 1][..i] == columns[..i];
    var ids := Buffers(columns[..i]);
    if columns[i].buf == 0 {
      assert Buffers(columns[..i + 1]) == ids;
    } else {
      ReleaseOneMore(s, ids, columns[i].buf);
    }
  }

  lemma NoBuffers(s: Server, columns: seq<Column>)
    ensures ReleaseAll(s, Buffers(columns[..0])) == s
  {
  }

  class MysqlCursor {
    var isOpen: bool
    var stmt: nat
    var meta: nat
    var parms: Option<seq<Bind>>
    var columns: Option<seq<Column>>
    var binds: Option<seq<ResultBind>>
    var itemNum: int
    var rowCount: int

    function State(): CursorState
      reads this
    {
      CursorState(isOpen, stmt, meta, parms, columns, binds, itemNum, rowCount)
    }

    constructor ()
      ensures State() == NEW_CURSOR
    {
      isOpen, stmt, meta, parms, columns, binds, itemNum, rowCount := false, 0, 0, None, None, None, 0, 0;
    }

    method OpenCur(lib: Library, connected: bool) returns (rc: int)
      modifies this, lib
      ensures Outcome(lib.server, State(), rc)
              == MysqlCursorSpec.OpenCur(lib.tape, old(lib.server), old(State()), connected)
    {
      if isOpen {
        return -1;
      }
      if !connected {
        return -1;
      }
      stmt := lib.StmtInit();
      if stmt == 0 {
        isOpen := false;
        return -1;
      } else {
        isOpen := true;
      }
      return 0;
    }

    method CloseCur(lib: Library) returns (rc: int)
      modifies this, lib
      ensures Outcome(lib.server, State(), rc) == MysqlCursorSpec.CloseCur(old(lib.server), old(State()))
    {
      hide NativeServer.Release, Numbered;
      if !isOpen {
        return -1;
      }
      if meta != 0 {
        lib.Release(meta);
        meta := 0;
      }
      if stmt != 0 {
        lib.Release(stmt);
        stmt := 0;
      }
      isOpen := false;
      rowCount := 0;
      return 0;
    }

    /** Frees every column buffer, then the two arrays. */
    method ReleaseDefine(lib: Library)
      requires CursorOk(State())
      modifies this, lib
      ensures Outcome(lib.server, State(), 0) == MysqlCursorSpec.ReleaseDefine(old(lib.server), old(State()))
    {
      hide ReleaseAll, Buffers, NativeServer.Release, Numbered, Silent;
      if columns.Some? && itemNum > 0 {
        NoBuffers(lib.server, columns.value);
        var i := 0;
        while i < itemNum
          invariant 0 <= i <= itemNum
          invariant State() == old(State())
          invariant lib.server == ReleaseAll(old(lib.server), Buffers(columns.value[..i]))
        {
          BuffersStep(old(lib.server), columns.value, i);
          if columns.value[i].buf != 0 {
            lib.Release(columns.value[i].buf);
          }
          i := i + 1;
        }
        assert columns.value[..i] == columns.value;
        columns := None;
      }
      if binds.Some? && itemNum > 0 {
        binds := None;
      }
      itemNum := 0;
    }

    method CountColumns(lib: Library) returns (rc: int)
      modifies this, lib
      ensures Outcome(lib.server, State(), rc) == MysqlCursorSpec.CountColumns(lib.tape, old(lib.server), old(State()))
    {
      if meta != 0 {
        lib.Release(meta);
        meta := 0;
      }
      meta := lib.ResultMetadata(stmt);
      if meta == 0 {
        return -1;
      }
      itemNum := lib.Ask(meta);
      if itemNum <= 0 {
        return -1;
      }
      return 0;
    }

    /** Names, types and lengths of the columns, one field after the other. */
    method DefineMetaInfo(lib: Library)
      requires itemNum > 0 && meta != 0
      requires columns == Some(seq(itemNum, _ => BLANK_COLUMN)) && binds == Some(seq(itemNum, _ => BLANK_RESULT_BIND))
      modifies this`columns, this`binds, lib
      ensures lib.server == UseMany(old(lib.server), meta, itemNum)
      ensures columns == Some(Described(lib.tape, old(lib.server).clock, itemNum))
      ensures binds == Some(DescribedBinds(lib.tape, old(lib.server).clock, itemNum))
    {
      hide Numbered, Silent;
      ghost var clock := lib.server.clock;
      ghost var described, bound := Described(lib.tape, clock, itemNum), DescribedBinds(lib.tape, clock, itemNum);
      var i := 0;
      while i < itemNum
        invariant 0 <= i <= itemNum
        invariant lib.server == UseMany(old(lib.server), meta, i)
        invariant columns.Some? && binds.Some? && |columns.value| == |binds.value| == itemNum
        invariant forall j :: 0 <= j < i ==> columns.value[j] == described[j]
        invariant forall j :: 0 <= j < i ==> binds.value[j] == bound[j]
        invariant forall j :: i <= j < itemNum ==>
                    columns.value[j] == BLANK_COLUMN && binds.value[j] == BLANK_RESULT_BIND
      {
        var field := lib.FetchField(meta);
        columns := Some(columns.value[i := columns.value[i].(name := field.name, ty := field.ty,
                                                             length := field.length)]);
        binds := Some(binds.value[i := binds.value[i].(unsigned := field.unsigned)]);
        i := i + 1;
      }
      assert columns.value == described && binds.value == bound;
    }

    method AllocateDefine(lib: Library) returns (rc: int)
      requires CursorOk(State())
      modifies this, lib
      ensures Outcome(lib.server, State(), rc)
              == MysqlCursorSpec.AllocateDefine(lib.tape, old(lib.server), old(State()))
    {
      hide MysqlCursorSpec.ReleaseDefine, MysqlCursorSpec.CountColumns, Numbered;
      ReleaseDefine(lib);
      rc := CountColumns(lib);
      if rc < 0 {
        return -1;
      }
      columns := Some(seq(itemNum, _ => BLANK_COLUMN));
      binds := Some(seq(itemNum, _ => BLANK_RESULT_BIND));
      DefineMetaInfo(lib);
      return 0;
    }

    /** A buffer for every column, and a binding that points at it. */
    method AllocateBuffers(lib: Library)
      requires columns.Some? && binds.Some? && |columns.value| == |binds.value| == itemNum
      modifies this`columns, this`binds, lib
      ensures lib.server == AcquireMany(old(lib.server), itemNum)
      ensures columns == Some(BufferedAll(old(columns.value), old(lib.server).clock))
      ensures binds == Some(BoundAll(columns.value, old(binds.value)))
    {
      hide BufferedAll, BoundAll, Numbered, Silent, NativeServer.Release;
      ghost var described, blank, s0 := columns.value, binds.value, lib.server;
      ghost var buffered := BufferedAll(described, s0.clock);
      ghost var bound := BoundAll(buffered, blank);
      var i := 0;
      while i < itemNum
        invariant 0 <= i <= itemNum
        invariant lib.server == AcquireMany(s0, i)
        invariant columns.Some? && binds.Some? && |columns.value| == |binds.value| == itemNum
        invariant forall j :: 0 <= j < i ==> columns.value[j] == buffered[j] && binds.value[j] == bound[j]
        invariant forall j :: i <= j < itemNum ==> columns.value[j] == described[j] && binds.value[j] == blank[j]
      {
        var column := columns.value[i];
        var bind := binds.value[i].(bufferType := column.ty, isNull := Some(i), length := Some(i), error := Some(i));
        var buf := lib.Malloc();
        column := column.(buf := buf);
        bind := bind.(bufferLength := if column.ty == MYSQL_TYPE_DATETIME then SIZEOF_MYSQL_TIME else column.length,
                      buffer := column.buf);
        columns := Some(columns.value[i := column]);
        binds := Some(binds.value[i := bind]);
        i := i + 1;
      }
      assert columns.value == buffered && binds.value == bound;
    }

    method Define(lib: Library) returns (rc: int)
      requires CursorOk(State())
      modifies this, lib
      ensures Outcome(lib.server, State(), rc) == MysqlCursorSpec.Define(lib.tape, old(lib.server), old(State()))
    {
      hide MysqlCursorSpec.AllocateDefine, BufferedAll, BoundAll, AcquireMany, Numbered;
      rc := AllocateDefine(lib);
      if rc < 0 {
        return;
      }
      AllocateBuffers(lib);
      var code := lib.Ask(stmt);
      if code != 0 {
        return -1;
      }
      return 0;
    }

    method AllocateParmBind(lib: Library) returns (rc: int)
      modifies this, lib
      ensures Outcome(lib.server, State(), rc)
              == MysqlCursorSpec.AllocateParmBind(lib.tape, old(lib.server), old(State()))
    {
      if stmt == 0 {
        return -1;
      }
      var count := lib.Ask(stmt);
      if count <= 0 {
        return -1;
      }
      parms := Some(seq(count, _ => BLANK_BIND));
      return 0;
    }

    method BindPos(position: nat, bind: Bind)
      requires parms.Some? ==> position < |parms.value|
      modifies this`parms
      ensures State() == MysqlCursorSpec.BindPos(old(State()), position, bind)
    {
      if parms.Some? {
        parms := Some(parms.value[position := bind]);
      }
    }

    method BindParm(lib: Library) returns (rc: int)
      modifies lib
      ensures Outcome(lib.server, State(), rc) == MysqlCursorSpec.BindParm(lib.tape, old(lib.server), old(State()))
    {
      rc := lib.BindAll(stmt, if parms.None? then map[] else AsMap(parms.value));
    }

    method BindLargeParm(lib: Library, data: string) returns (rc: int)
      modifies lib
      ensures Outcome(lib.server, State(), rc)
              == MysqlCursorSpec.BindLargeParm(lib.tape, old(lib.server), old(State()), data)
    {
      rc := lib.SendLong(stmt, data);
    }

    method Prepare(lib: Library, sql: string) returns (rc: int)
      modifies lib
      ensures Outcome(lib.server, State(), rc) == PrepareCur(lib.tape, old(lib.server), old(State()), sql)
    {
      var code := lib.Prepare(stmt, sql);
      if code != 0 {
        return -1;
      }
      return 0;
    }

    method ExecuteSelect(lib: Library) returns (rc: int)
      modifies lib
      ensures Outcome(lib.server, State(), rc) == MysqlCursorSpec.ExecuteSelect(lib.tape, old(lib.server), old(State()))
    {
      var code := lib.Ask(stmt);
      if code != 0 {
        return -1;
      }
      code := lib.Ask(stmt);
      if code != 0 {
        return -1;
      }
      return 0;
    }

    method ExecuteNonSelect(lib: Library) returns (rc: int)
      modifies lib
      ensures Outcome(lib.server, State(), rc)
              == MysqlCursorSpec.ExecuteNonSelect(lib.tape, old(lib.server), old(State()))
    {
      var code := lib.ExecuteWrite(stmt);
      if code != 0 {
        return -1;
      }
      return 0;
    }

    method Fetch(lib: Library) returns (rc: int)
      modifies this, lib
      ensures Outcome(lib.server, State(), rc) == MysqlCursorSpec.Fetch(lib.tape, old(lib.server), old(State()))
    {
      rowCount := rowCount + 1;
      rc := lib.Ask(stmt);
    }

    method AffectRec(lib: Library) returns (rc: int)
      modifies lib
      ensures Outcome(lib.server, State(), rc) == MysqlCursorSpec.AffectRec(lib.tape, old(lib.server), old(State()))
    {
      rc := lib.Ask(stmt);
    }

    /** The destructor. */
    method Destroy(lib: Library)
      requires CursorOk(State())
      modifies this, lib
      ensures lib.server == MysqlCursorSpec.Destroy(old(lib.server), old(State()))
    {
      if isOpen {
        var _ := CloseCur(lib);
      }
      parms := None;
      ReleaseDefine(lib);
    }
  }
}
