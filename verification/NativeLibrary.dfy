/** The native library as an object: one server, and the tape of its answers. */
module NativeLibrary {
  import opened NativeServer

  class Library {
    const tape: Tape
    var server: Server

    constructor (tape: Tape)
      ensures this.tape == tape && server == FRESH_SERVER
    {
      this.tape, server := tape, FRESH_SERVER;
    }

    method StmtInit() returns (stmt: nat)
      modifies this
      ensures (server, stmt) == NativeServer.StmtInit(tape, old(server))
    {
      var (s, p) := NativeServer.StmtInit(tape, server);
      server, stmt := s, p;
    }

    /** OCIHandleAlloc of a statement in the connection's environment. */
    method StmtInitIn(hasEnv: bool) returns (stmt: nat)
      modifies this
      ensures (server, stmt) == NativeServer.StmtInitIn(tape, old(server), hasEnv)
    {
      var (s, p) := NativeServer.StmtInitIn(tape, server, hasEnv);
      server, stmt := s, p;
    }

    method ResultMetadata(stmt: nat) returns (meta: nat)
      modifies this
      ensures (server, meta) == NativeServer.ResultMetadata(tape, old(server), stmt)
    {
      var (s, p) := NativeServer.ResultMetadata(tape, server, stmt);
      server, meta := s, p;
    }

    /** mysql_stmt_close, mysql_free_result, free, OCIHandleFree. */
    method Release(id: nat)
      modifies this
      ensures server == NativeServer.Release(old(server), id)
    {
      server := NativeServer.Release(server, id);
    }

    method Malloc() returns (buf: nat)
      modifies this
      ensures server == Acquire(old(server)) && buf == NextId(old(server))
    {
      buf := NextId(server);
      server := Acquire(server);
    }

    method FetchField(meta: nat) returns (field: Field)
      modifies this
      ensures server == Use(old(server), meta) && field == tape(old(server).clock).field
    {
      field := tape(server.clock).field;
      server := Use(server, meta);
    }

    method Ask(id: nat) returns (code: int)
      modifies this
      ensures (server, code) == NativeServer.Ask(tape, old(server), id)
    {
      var (s, c) := NativeServer.Ask(tape, server, id);
      server, code := s, c;
    }

    method AskConnection() returns (code: int)
      modifies this
      ensures (server, code) == NativeServer.AskConnection(tape, old(server))
    {
      var (s, c) := NativeServer.AskConnection(tape, server);
      server, code := s, c;
    }

    method Prepare(stmt: nat, sql: string) returns (code: int)
      modifies this
      ensures (server, code) == NativeServer.Prepare(tape, old(server), stmt, sql)
    {
      var (s, c) := NativeServer.Prepare(tape, server, stmt, sql);
      server, code := s, c;
    }

    method BindAll(stmt: nat, binds: map<int, Bind>) returns (code: int)
      modifies this
      ensures (server, code) == NativeServer.BindAll(tape, old(server), stmt, binds)
    {
      var (s, c) := NativeServer.BindAll(tape, server, stmt, binds);
      server, code := s, c;
    }

    method BindOne(stmt: nat, position: int, bind: Bind) returns (code: int)
      modifies this
      ensures (server, code) == NativeServer.BindOne(tape, old(server), stmt, position, bind)
    {
      var (s, c) := NativeServer.BindOne(tape, server, stmt, position, bind);
      server, code := s, c;
    }

    method SendLong(stmt: nat, data: string) returns (code: int)
      modifies this
      ensures (server, code) == NativeServer.SendLong(tape, old(server), stmt, data)
    {
      var (s, c) := NativeServer.SendLong(tape, server, stmt, data);
      server, code := s, c;
    }

    method ExecuteWrite(stmt: nat) returns (code: int)
      modifies this
      ensures (server, code) == NativeServer.ExecuteWrite(tape, old(server), stmt)
    {
      var (s, c) := NativeServer.ExecuteWrite(tape, server, stmt);
      server, code := s, c;
    }

    method StmtExecute(stmt: nat) returns (code: int)
      modifies this
      ensures (server, code) == NativeServer.StmtExecute(tape, old(server), stmt)
    {
      var (s, c) := NativeServer.StmtExecute(tape, server, stmt);
      server, code := s, c;
    }

    method Connect() returns (code: int)
      modifies this
      ensures (server, code) == NativeServer.Connect(tape, old(server))
    {
      var (s, c) := NativeServer.Connect(tape, server);
      server, code := s, c;
    }

    method ConnectOver(hasEnv: bool) returns (code: int)
      modifies this
      ensures (server, code) == NativeServer.ConnectOver(tape, old(server), hasEnv)
    {
      var (s, c) := NativeServer.ConnectOver(tape, server, hasEnv);
      server, code := s, c;
    }

    method FreeEnvironment()
      modifies this
      ensures server == NativeServer.FreeEnvironment(old(server))
    {
      server := NativeServer.FreeEnvironment(server);
    }

    method EndSession()
      modifies this
      ensures server == NativeServer.EndSession(old(server))
    {
      server := NativeServer.EndSession(server);
    }

    method Commit()
      modifies this
      ensures server == NativeServer.Commit(old(server))
    {
      server := NativeServer.Commit(server);
    }

    method Rollback()
      modifies this
      ensures server == NativeServer.Rollback(old(server))
    {
      server := NativeServer.Rollback(server);
    }
  }
}
