/** `db_connect`: the class, proved against the functions of OracleConnection.dfy. */
module DbConnects {
  import opened NativeServer
  import opened OracleConnection

  /** The native library as an object. */
  class OciLibrary {
    const tape: Tape
    var oci: Oci

    constructor (tape: Tape)
      ensures this.tape == tape && oci == FRESH_OCI
    {
      this.tape, oci := tape, FRESH_OCI;
    }

    method Initialize() returns (code: int)
      modifies this
      ensures oci == Answered(old(oci)) && code == CodeOf(tape, old(oci))
    {
      code := CodeOf(tape, oci);
      oci := Answered(oci);
    }

    method EnvInit() returns (h: nat)
      modifies this
      ensures (oci, h) == OracleConnection.EnvInit(tape, old(oci))
    {
      var (o, p) := OracleConnection.EnvInit(tape, oci);
      oci, h := o, p;
    }

    method HandleAlloc(env: nat) returns (h: nat)
      modifies this
      ensures (oci, h) == OracleConnection.HandleAlloc(tape, old(oci), env)
    {
      var (o, p) := OracleConnection.HandleAlloc(tape, oci, env);
      oci, h := o, p;
    }

    method HandleFree(h: nat)
      modifies this
      ensures oci == OracleConnection.HandleFree(old(oci), h)
    {
      oci := OracleConnection.HandleFree(oci, h);
    }

    method ServerAttach(srv: nat) returns (code: int)
      modifies this
      ensures (oci, code) == OracleConnection.ServerAttach(tape, old(oci), srv)
    {
      var (o, c) := OracleConnection.ServerAttach(tape, oci, srv);
      oci, code := o, c;
    }

    method SetServer(svc: nat, srv: nat) returns (code: int)
      modifies this
      ensures (oci, code) == OracleConnection.SetServer(tape, old(oci), svc, srv)
    {
      var (o, c) := OracleConnection.SetServer(tape, oci, svc, srv);
      oci, code := o, c;
    }

    method SetAttribute(h: nat) returns (code: int)
      modifies this
      ensures (oci, code) == OracleConnection.SetAttribute(tape, old(oci), h)
    {
      var (o, c) := OracleConnection.SetAttribute(tape, oci, h);
      oci, code := o, c;
    }

    method SessionBegin(svc: nat, auth: nat) returns (code: int)
      modifies this
      ensures (oci, code) == OracleConnection.SessionBegin(tape, old(oci), svc, auth)
    {
      var (o, c) := OracleConnection.SessionBegin(tape, oci, svc, auth);
      oci, code := o, c;
    }

    method SessionEnd(auth: nat)
      modifies this
      ensures oci == OracleConnection.SessionEnd(old(oci), auth)
    {
      oci := OracleConnection.SessionEnd(oci, auth);
    }

    method ServerDetach(srv: nat)
      modifies this
      ensures oci == OracleConnection.ServerDetach(old(oci), srv)
    {
      oci := OracleConnection.ServerDetach(oci, srv);
    }
  }

  class DbConnect {
    const lib: OciLibrary
    var envhp: nat
    var svchp: nat
    var errhp: nat
    var srvhp: nat
    var authp: nat
    var connected: bool
    var trans: bool

    ghost function State(): Conn
      reads this, lib
    {
      Conn(lib.oci, envhp, svchp, errhp, srvhp, authp, connected, trans)
    }

    ghost predicate Valid()
      reads this, lib
    {
      Bracketed(State())
    }

    /** The handles are whatever memory held; this is for an object whose memory was zero. */
    constructor (lib: OciLibrary, trans: bool)
      requires lib.oci == FRESH_OCI
      ensures Valid() && this.lib == lib && State() == NewConn(trans)
    {
      this.lib := lib;
      envhp, svchp, errhp, srvhp, authp := 0, 0, 0, 0, 0;
      connected, this.trans := false, trans;
      new;
      assert Children(NewConn(trans)) == {};
    }

    method FreeHandle()
      modifies this, lib
      ensures State() == OracleConnection.FreeHandle(old(State()))
    {
      hide OracleConnection.HandleFree;
      if srvhp != 0 {
        lib.HandleFree(srvhp);
        srvhp := 0;
      }
      if svchp != 0 {
        lib.HandleFree(svchp);
        svchp := 0;
      }
      if errhp != 0 {
        lib.HandleFree(errhp);
        errhp := 0;
      }
      if authp != 0 {
        lib.HandleFree(authp);
        authp := 0;
      }
      if envhp != 0 {
        lib.HandleFree(envhp);
        envhp := 0;
      }
    }

    method InitHandle() returns (rc: int)
      modifies this, lib
      ensures Result(State(), rc) == OracleConnection.InitHandle(lib.tape, old(State()))
    {
      hide OracleConnection.EnvInit, OracleConnection.HandleAlloc;
      var code := lib.Initialize();
      if code != 0 {
        return -1;
      }
      var h := lib.EnvInit();
      if h == 0 {
        return -1;
      }
      envhp := h;
      h := lib.HandleAlloc(envhp);
      if h == 0 {
        return -1;
      }
      svchp := h;
      h := lib.HandleAlloc(envhp);
      if h == 0 {
        return -1;
      }
      errhp := h;
      h := lib.HandleAlloc(envhp);
      if h == 0 {
        return -1;
      }
      srvhp := h;
      h := lib.HandleAlloc(envhp);
      if h == 0 {
        return -1;
      }
      authp := h;
      return 0;
    }

    method AttachServer() returns (rc: int)
      modifies lib
      ensures Result(State(), rc) == OracleConnection.AttachServer(lib.tape, old(State()))
    {
      hide OracleConnection.ServerAttach, OracleConnection.SetServer;
      var code := lib.ServerAttach(srvhp);
      if code != 0 {
        return -1;
      }
      code := lib.SetServer(svchp, srvhp);
      if code != 0 {
        return -1;
      }
      return 0;
    }

    /** deatchServer in the source. */
    method DetachServer()
      modifies lib
      ensures State() == OracleConnection.DetachServer(old(State()))
    {
      lib.SessionEnd(authp);
      lib.ServerDetach(srvhp);
    }

    method Connect() returns (rc: int)
      requires Valid()
      modifies this, lib
      ensures Valid() && Result(State(), rc) == OracleConnection.Connect(lib.tape, old(State()))
    {
      hide OracleConnection.InitHandle, OracleConnection.AttachServer, OracleConnection.FreeHandle,
        OracleConnection.DetachServer, OracleConnection.SetAttribute, OracleConnection.SessionBegin,
        OracleConnection.ServerDetach, Bracketed, AllGranted;
      if connected {
        return -1;
      }
      ConnectResult(lib.tape, State());
      rc := InitHandle();
      if rc != 0 {
        FreeHandle();
        return -1;
      }
      rc := AttachServer();
      if rc != 0 {
        FreeHandle();
        return -1;
      }
      var code := lib.SetAttribute(authp);
      if code != 0 {
        lib.ServerDetach(srvhp);
        FreeHandle();
        return -1;
      }
      code := lib.SetAttribute(authp);
      if code != 0 {
        lib.ServerDetach(srvhp);
        FreeHandle();
        return -1;
      }
      code := lib.SessionBegin(svchp, authp);
      if code != 0 {
        lib.ServerDetach(srvhp);
        FreeHandle();
        return -1;
      }
      code := lib.SetAttribute(svchp);
      if code != 0 {
        DetachServer();
        FreeHandle();
        return -1;
      }
      connected := true;
      trans := false;
      return 0;
    }

    method Disconnect() returns (rc: int)
      requires Valid()
      modifies this, lib
      ensures Valid() && Result(State(), rc) == OracleConnection.Disconnect(old(State()))
    {
      hide OracleConnection.FreeHandle, OracleConnection.DetachServer, Bracketed;
      DisconnectResult(State());
      if !connected {
        return -1;
      }
      DetachServer();
      FreeHandle();
      connected := false;
      return 0;
    }

    /** The destructor: after it nothing of this connection is live, attached or in session. */
    method Destroy()
      requires Valid()
      modifies this, lib
      ensures State() == OracleConnection.Disconnect(old(State())).conn
      ensures lib.oci.live == map[] && lib.oci.attached == {} && lib.oci.sessions == map[] && !lib.oci.misused
    {
      hide OracleConnection.FreeHandle, OracleConnection.DetachServer;
      DisconnectResult(State());
      if connected {
        var _ := Disconnect();
      }
      NothingIsLeft(State());
    }
  }
}
