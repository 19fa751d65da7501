/**
 `db_connect`: the five handles of an Oracle connection, and the attachment and the session that they
 bracket.  The native library is modelled finer here than in NativeServer.dfy: it knows which handle
 belongs to which environment, which servers are attached and which sessions have begun.
 */
module OracleConnection {
  import opened NativeServer

  datatype Oci = Oci(
    clock: nat,                 // answers given so far
    live: map<nat, nat>,        // each live handle, and the environment it was allocated in
    servers: map<nat, nat>,     // the server handle set in each service handle
    attached: set<nat>,         // server handles that are attached
    sessions: map<nat, nat>,    // sessions begun and not ended: authentication handle, server handle
    orphans: set<nat>,          // server handles freed while they were attached
    misused: bool)              // anything below that its comment forbids

  const FRESH_OCI := Oci(0, map[], map[], {}, map[], {}, false)

  function Answered(o: Oci): Oci { o.(clock := o.clock + 1) }

  function CodeOf(t: Tape, o: Oci): int { t(o.clock).code }

  function NewHandle(o: Oci): nat { o.clock + 1 }

  /** A new environment, or none (0). */
  function EnvInit(t: Tape, o: Oci): (Oci, nat) {
    if CodeOf(t, o) == 0 then (Answered(o).(live := o.live[NewHandle(o) := NewHandle(o)]), NewHandle(o))
      else (Answered(o), 0)
  }

  /** A new handle in an environment, which has to be live. */
  function HandleAlloc(t: Tape, o: Oci, env: nat): (Oci, nat) {
    var o' := Answered(o).(misused := o.misused || env !in o.live);
    if CodeOf(t, o) == 0 then (o'.(live := o.live[NewHandle(o) := env]), NewHandle(o)) else (o', 0)
  }

  predicate HasChildren(o: Oci, env: nat) {
    exists h :: h in o.live && h != env && o.live[h] == env
  }

  /** The handle has to be live, no environment of live handles, and no open session's. */
  function HandleFree(o: Oci, h: nat): Oci {
    o.(live := o.live - {h},
       servers := o.servers - {h},
       attached := o.attached - {h},
       orphans := if h in o.attached then o.orphans + {h} else o.orphans,
       misused := o.misused || h !in o.live || HasChildren(o, h) || h in o.sessions)
  }

  /** The handle has to be live and not attached already. */
  function ServerAttach(t: Tape, o: Oci, srv: nat): (Oci, int) {
    var o' := Answered(o).(misused := o.misused || srv !in o.live || srv in o.attached);
    (if CodeOf(t, o) == 0 then o'.(attached := o.attached + {srv}) else o', CodeOf(t, o))
  }

  /** Both handles have to be live. */
  function SetServer(t: Tape, o: Oci, svc: nat, srv: nat): (Oci, int) {
    var o' := Answered(o).(misused := o.misused || svc !in o.live || srv !in o.live);
    (if CodeOf(t, o) == 0 then o'.(servers := o.servers[svc := srv]) else o', CodeOf(t, o))
  }

  /** The handle has to be live. */
  function SetAttribute(t: Tape, o: Oci, h: nat): (Oci, int) {
    (Answered(o).(misused := o.misused || h !in o.live), CodeOf(t, o))
  }

  /** The service has to have an attached server, and the session not to have begun already. */
  function SessionBegin(t: Tape, o: Oci, svc: nat, auth: nat): (Oci, int) {
    var ok := svc in o.live && auth in o.live && auth !in o.sessions && svc in o.servers
      && o.servers[svc] in o.attached;
    var o' := Answered(o).(misused := o.misused || !ok);
    (if CodeOf(t, o) == 0 && svc in o.servers then o'.(sessions := o.sessions[auth := o.servers[svc]])
     else o', CodeOf(t, o))
  }

  /** The session has to be open.  Its status is not looked at by the driver. */
  function SessionEnd(o: Oci, auth: nat): Oci {
    Answered(o).(sessions := o.sessions - {auth}, misused := o.misused || auth !in o.sessions)
  }

  predicate HasSession(o: Oci, srv: nat) {
    exists auth :: auth in o.sessions && o.sessions[auth] == srv
  }

  /** The server has to be attached, and no session to be open on it. */
  function ServerDetach(o: Oci, srv: nat): Oci {
    Answered(o).(attached := o.attached - {srv}, misused := o.misused || srv !in o.attached || HasSession(o, srv))
  }

  // ---------------------------------------------------------------- the connection

  datatype Conn = Conn(
    oci: Oci,
    env: nat, svc: nat, err: nat, srv: nat, auth: nat,    // 0 is null
    connected: bool,
    trans: bool)

  datatype Result = Result(conn: Conn, rc: int)

  function FreeOne(o: Oci, h: nat): Oci {
    if h != 0 then HandleFree(o, h) else o
  }

  /** Server, service, error and authentication handle, and last the environment. */
  function FreeHandle(c: Conn): Conn {
    var o := FreeOne(FreeOne(FreeOne(FreeOne(FreeOne(c.oci, c.srv), c.svc), c.err), c.auth), c.env);
    c.(oci := o, env := 0, svc := 0, err := 0, srv := 0, auth := 0)
  }

  function Got(c: Conn, h: nat): Result {
    Result(c, if h == 0 then -1 else 0)
  }

  /** A handle that cannot be allocated keeps the value it had. */
  function InitEnv(t: Tape, c: Conn): Result {
    var (o, env) := EnvInit(t, c.oci);
    Got(c.(oci := o, env := if env == 0 then c.env else env), env)
  }

  function InitSvc(t: Tape, c: Conn): Result {
    var (o, h) := HandleAlloc(t, c.oci, c.env);
    Got(c.(oci := o, svc := if h == 0 then c.svc else h), h)
  }

  function InitErr(t: Tape, c: Conn): Result {
    var (o, h) := HandleAlloc(t, c.oci, c.env);
    Got(c.(oci := o, err := if h == 0 then c.err else h), h)
  }

  function InitSrv(t: Tape, c: Conn): Result {
    var (o, h) := HandleAlloc(t, c.oci, c.env);
    Got(c.(oci := o, srv := if h == 0 then c.srv else h), h)
  }

  function InitAuth(t: Tape, c: Conn): Result {
    var (o, h) := HandleAlloc(t, c.oci, c.env);
    Got(c.(oci := o, auth := if h == 0 then c.auth else h), h)
  }

  /** Handles are kept when the library has no new one, and nothing but the one handle changes. */
  lemma InitAnswers(t: Tape, c: Conn)
    ensures var (granted, h) := (CodeOf(t, c.oci) == 0, NewHandle(c.oci));
            var (e, v, r, s, a) := (InitEnv(t, c), InitSvc(t, c), InitErr(t, c), InitSrv(t, c), InitAuth(t, c));
            if granted then
              && e.rc == v.rc == r.rc == s.rc == a.rc == 0
              && e.conn == c.(oci := e.conn.oci, env := h) && v.conn == c.(oci := v.conn.oci, svc := h)
              && r.conn == c.(oci := r.conn.oci, err := h) && s.conn == c.(oci := s.conn.oci, srv := h)
              && a.conn == c.(oci := a.conn.oci, auth := h)
            else
              && e.rc == v.rc == r.rc == s.rc == a.rc == -1
              && e.conn == c.(oci := e.conn.oci) && v.conn == c.(oci := v.conn.oci)
              && r.conn == c.(oci := r.conn.oci) && s.conn == c.(oci := s.conn.oci)
              && a.conn == c.(oci := a.conn.oci)
  {
  }

  function InitHandle(t: Tape, c: Conn): Result {
    if CodeOf(t, c.oci) != 0 then Result(c.(oci := Answered(c.oci)), -1)
    else
      var r1 := InitEnv(t, c.(oci := Answered(c.oci)));
      if r1.rc != 0 then r1
      else
        var r2 := InitSvc(t, r1.conn);
        if r2.rc != 0 then r2
        else
          var r3 := InitErr(t, r2.conn);
          if r3.rc != 0 then r3
          else
            var r4 := InitSrv(t, r3.conn);
            if r4.rc != 0 then r4 else InitAuth(t, r4.conn)
  }

  /** An attachment that succeeds but cannot be set in the service handle is reported as a failure. */
  function AttachServer(t: Tape, c: Conn): Result {
    var (o1, attach) := ServerAttach(t, c.oci, c.srv);
    if attach != 0 then Result(c.(oci := o1), -1)
    else
      var (o2, told) := SetServer(t, o1, c.svc, c.srv);
      Result(c.(oci := o2), if told != 0 then -1 else 0)
  }

  function DetachServer(c: Conn): Conn {
    c.(oci := ServerDetach(SessionEnd(c.oci, c.auth), c.srv))
  }

  function DetachAndFree(c: Conn): Conn {
    FreeHandle(c.(oci := ServerDetach(c.oci, c.srv)))
  }

  /** From an attached server to a session that the service handle knows. */
  function BeginSession(t: Tape, c: Conn): Result {
    var (o1, user) := SetAttribute(t, c.oci, c.auth);
    if user != 0 then Result(DetachAndFree(c.(oci := o1)), -1)
    else
      var (o2, password) := SetAttribute(t, o1, c.auth);
      if password != 0 then Result(DetachAndFree(c.(oci := o2)), -1)
      else
        var (o3, begin) := SessionBegin(t, o2, c.svc, c.auth);
        if begin != 0 then Result(DetachAndFree(c.(oci := o3)), -1)
        else
          var (o4, session) := SetAttribute(t, o3, c.svc);
          if session != 0 then Result(FreeHandle(DetachServer(c.(oci := o4))), -1)
          else Result(c.(oci := o4, connected := true, trans := false), 0)
  }

  function Connect(t: Tape, c: Conn): Result {
    if c.connected then Result(c, -1)
    else
      var i := InitHandle(t, c);
      if i.rc != 0 then Result(FreeHandle(i.conn), -1)
      else
        var a := AttachServer(t, i.conn);
        if a.rc != 0 then Result(FreeHandle(a.conn), -1) else BeginSession(t, a.conn)
  }

  function Disconnect(c: Conn): Result {
    if !c.connected then Result(c, -1) else Result(FreeHandle(DetachServer(c)).(connected := false), 0)
  }

  // ---------------------------------------------------------------- what connecting and disconnecting keep

  /** All that is live is one environment, or none (0), and these handles in it; no session is open. */
  predicate Family(o: Oci, env: nat, children: set<nat>) {
    && !o.misused && o.sessions == map[]
    && 0 !in children && env !in children && (env == 0 ==> children == {})
    && o.live.Keys == (if env == 0 then {} else {env} + children)
    && (forall h :: h in o.live ==> o.live[h] == env && h <= o.clock)
  }

  function Children(c: Conn): set<nat> {
    {c.svc, c.err, c.srv, c.auth} - {0}
  }

  predicate Increasing(a: nat, b: nat) {
    (a == 0 ==> b == 0) && (b != 0 ==> a < b)
  }

  /** What initHandle can leave: the handles that are not null are live, and one may be attached. */
  predicate Partial(c: Conn) {
    && Family(c.oci, c.env, Children(c))
    && Increasing(c.env, c.svc) && Increasing(c.svc, c.err) && Increasing(c.err, c.srv) && Increasing(c.srv, c.auth)
    && c.oci.servers.Keys <= {c.svc} - {0} && c.oci.attached <= {c.srv} - {0}
  }

  /** Nothing of this connection is left in the library. */
  predicate Nothing(c: Conn) {
    Partial(c) && c.env == 0
  }

  /** Five live handles in one environment. */
  predicate Complete(c: Conn) {
    Partial(c) && c.auth != 0
  }

  predicate Attached(c: Conn) {
    Complete(c) && c.oci.servers == map[c.svc := c.srv] && c.oci.attached == {c.srv}
  }

  /** And, beyond that, an open session of the connection's own. */
  predicate InSession(c: Conn) {
    Attached(c.(oci := c.oci.(sessions := map[]))) && c.oci.sessions == map[c.auth := c.srv]
  }

  /** Connected is five live handles, one attachment and one session; not connected is nothing at all. */
  predicate Bracketed(c: Conn) {
    if c.connected then InSession(c) else Nothing(c)
  }

  /** Spelled out. */
  lemma NothingIsLeft(c: Conn)
    requires Nothing(c)
    ensures c.env == c.svc == c.err == c.srv == c.auth == 0
    ensures c.oci.live == map[] && c.oci.servers == map[] && c.oci.attached == {} && c.oci.sessions == map[]
            && !c.oci.misused
  {
  }

  lemma ChildFreed(o: Oci, env: nat, children: set<nat>, h: nat)
    requires Family(o, env, children) && (h == 0 || h in children) && 0 !in o.servers && 0 !in o.attached
    ensures var o' := FreeOne(o, h);
            && Family(o', env, children - {h}) && o'.clock == o.clock
            && o'.servers == o.servers - {h} && o'.attached == o.attached - {h}
            && o'.orphans == o.orphans + o.attached * {h}
  {
  }

  lemma EnvironmentFreed(o: Oci, env: nat)
    requires Family(o, env, {}) && o.servers == map[] && o.attached == {}
    ensures var o' := FreeOne(o, env);
            Family(o', 0, {}) && o'.servers == map[] && o'.attached == {} && o'.orphans == o.orphans
              && o'.clock == o.clock
  {
  }

  /** Children first, environment last: everything is freed, and an attachment that is left is orphaned. */
  lemma FreeHandleLeavesNothing(c: Conn)
    requires Partial(c)
    ensures var c' := FreeHandle(c);
            && Nothing(c') && c'.connected == c.connected && c'.trans == c.trans
            && c'.oci.orphans == c.oci.orphans + c.oci.attached && c'.oci.clock == c.oci.clock
  {
    hide Family, FreeOne;
    var o1 := FreeOne(c.oci, c.srv);
    ChildFreed(c.oci, c.env, Children(c), c.srv);
    var o2 := FreeOne(o1, c.svc);
    ChildFreed(o1, c.env, Children(c) - {c.srv}, c.svc);
    var o3 := FreeOne(o2, c.err);
    ChildFreed(o2, c.env, Children(c) - {c.srv} - {c.svc}, c.err);
    var o4 := FreeOne(o3, c.auth);
    ChildFreed(o3, c.env, Children(c) - {c.srv} - {c.svc} - {c.err}, c.auth);
    assert Children(c) - {c.srv} - {c.svc} - {c.err} - {c.auth} == {};
    EnvironmentFreed(o4, c.env);
    assert Children(FreeHandle(c)) == {};
  }

  predicate Granted(t: Tape, i: nat) { t(i).code == 0 }

  predicate AllGranted(t: Tape, from: nat, n: nat) {
    forall i :: from <= i < from + n ==> Granted(t, i)
  }

  lemma GrantedSoFar(t: Tape, from: nat)
    ensures AllGranted(t, from, 6) <==>
              Granted(t, from) && Granted(t, from + 1) && Granted(t, from + 2) && Granted(t, from + 3)
                && Granted(t, from + 4)
              && Granted(t, from + 5)
  {
  }

  /** The first `n` handles are there, and nothing is attached. */
  predicate Stage(c: Conn, n: nat) {
    && Partial(c) && c.oci.servers == map[] && c.oci.attached == {}
    && (c.env != 0 <==> n > 0) && (c.svc != 0 <==> n > 1) && (c.err != 0 <==> n > 2) && (c.srv != 0 <==> n > 3)
    && (c.auth != 0 <==> n > 4)
  }

  /** One more handle, or none. */
  predicate Staged(t: Tape, c: Conn, n: nat, r: Result) {
    && r.conn.oci.clock == c.oci.clock + 1 && r.conn.oci.orphans == c.oci.orphans && r.conn.connected == c.connected
    && (if Granted(t, c.oci.clock) then Stage(r.conn, n + 1) && r.rc == 0 else Stage(r.conn, n) && r.rc == -1)
    && r.conn.srv == if n == 3 && r.rc == 0 then c.oci.clock + 1 else c.srv
  }

  lemma AllocGives(t: Tape, o: Oci, env: nat, children: set<nat>)
    requires Family(o, env, children) && env != 0
    ensures var (o', h) := HandleAlloc(t, o, env);
            && Family(o', env, (children + {h}) - {0}) && (if Granted(t, o.clock) then h == o.clock + 1 else h == 0)
            && o' == o.(clock := o.clock + 1, live := o'.live)
    ensures env <= o.clock && forall h :: h in children ==> h <= o.clock
  {
    assert env in o.live && forall h :: h in children ==> h in o.live;
  }

  lemma InitEnvStages(t: Tape, c: Conn)
    requires Stage(c, 0)
    ensures Staged(t, c, 0, InitEnv(t, c))
  {
  }

  lemma InitSvcStages(t: Tape, c: Conn)
    requires Stage(c, 1)
    ensures Staged(t, c, 1, InitSvc(t, c))
  {
    hide Family, HandleAlloc;
    AllocGives(t, c.oci, c.env, Children(c));
    var c' := InitSvc(t, c).conn;
    assert Children(c') == (Children(c) + {c'.svc}) - {0};
  }

  lemma InitErrStages(t: Tape, c: Conn)
    requires Stage(c, 2)
    ensures Staged(t, c, 2, InitErr(t, c))
  {
    hide Family, HandleAlloc;
    AllocGives(t, c.oci, c.env, Children(c));
    var c' := InitErr(t, c).conn;
    assert c.svc in Children(c);
    assert Children(c') == (Children(c) + {c'.err}) - {0};
  }

  lemma InitSrvStages(t: Tape, c: Conn)
    requires Stage(c, 3)
    ensures Staged(t, c, 3, InitSrv(t, c))
  {
    hide Family, HandleAlloc;
    AllocGives(t, c.oci, c.env, Children(c));
    var c' := InitSrv(t, c).conn;
    assert c.err in Children(c);
    assert Children(c') == (Children(c) + {c'.srv}) - {0};
  }

  lemma InitAuthStages(t: Tape, c: Conn)
    requires Stage(c, 4)
    ensures Staged(t, c, 4, InitAuth(t, c))
  {
    hide Family, HandleAlloc;
    AllocGives(t, c.oci, c.env, Children(c));
    var c' := InitAuth(t, c).conn;
    assert c.srv in Children(c);
    assert Children(c') == (Children(c) + {c'.auth}) - {0};
  }

  /** The handles that initHandle got as far as, in the order it allocates them. */
  lemma InitHandleGives(t: Tape, c: Conn)
    requires Nothing(c)
    ensures var r := InitHandle(t, c);
            && Partial(r.conn) && r.conn.oci.orphans == c.oci.orphans && r.conn.connected == c.connected
            && r.conn.oci.servers == map[] && r.conn.oci.attached == {}
            && (if r.rc == 0 then Complete(r.conn) && r.conn.oci.clock == c.oci.clock + 6
                && r.conn.srv == c.oci.clock + 5
                else r.rc == -1)
            && (r.rc == 0 <==> AllGranted(t, c.oci.clock, 6))
  {
    hide Nothing, Stage, InitEnv, InitSvc, InitErr, InitSrv, InitAuth, AllGranted, Partial, Complete;
    var c0 := c.(oci := Answered(c.oci));
    NothingStages(c);
    GrantedSoFar(t, c.oci.clock);
    StageGives();
    InitEnvStages(t, c0);
    var r1 := InitEnv(t, c0);
    if r1.rc == 0 {
      InitSvcStages(t, r1.conn);
      var r2 := InitSvc(t, r1.conn);
      if r2.rc == 0 {
        InitErrStages(t, r2.conn);
        var r3 := InitErr(t, r2.conn);
        if r3.rc == 0 {
          InitSrvStages(t, r3.conn);
          var r4 := InitSrv(t, r3.conn);
          if r4.rc == 0 {
            InitAuthStages(t, r4.conn);
          }
        }
      }
    }
  }

  lemma NothingStages(c: Conn)
    requires Nothing(c)
    ensures Stage(c.(oci := Answered(c.oci)), 0)
  {
  }

  lemma StageGives()
    ensures forall c, n {:trigger Stage(c, n)} :: Stage(c, n) ==>
              Partial(c) && c.oci.servers == map[] && c.oci.attached == {} && (n > 4 ==> Complete(c))
  {
  }

  /** Six more answers: attach, set the server, two credentials, begin, set the session. */
  lemma AttachServerGives(t: Tape, c: Conn)
    requires Complete(c) && c.oci.servers == map[] && c.oci.attached == {} && !c.connected
    ensures var r := AttachServer(t, c);
            var k := c.oci.clock;
            && r.conn.oci.orphans == c.oci.orphans && !r.conn.connected
            && r.conn.oci.clock == (if Granted(t, k) then k + 2 else k + 1)
            && (if Granted(t, k) && Granted(t, k + 1) then r.rc == 0 && Attached(r.conn)
                else r.rc == -1 && Partial(r.conn) && r.conn.oci.attached == if Granted(t, k) then {c.srv} else {})
  {
    assert c.srv in Children(c) && c.svc in Children(c);
  }

  lemma DetachAndFreeLeavesNothing(c: Conn)
    requires Attached(c)
    ensures var c' := DetachAndFree(c); Nothing(c') && c'.oci.orphans == c.oci.orphans && c'.connected == c.connected
  {
    hide FreeHandle;
    var c1 := c.(oci := ServerDetach(c.oci, c.srv));
    assert Children(c1) == Children(c);
    FreeHandleLeavesNothing(c1);
  }

  /** The session is ended before the server is detached, and that before the handles are freed. */
  lemma DetachServerLeavesNothing(c: Conn)
    requires InSession(c)
    ensures var c' := FreeHandle(DetachServer(c));
            Nothing(c') && c'.oci.orphans == c.oci.orphans && c'.connected == c.connected
  {
    hide FreeHandle;
    var c1 := DetachServer(c);
    assert Children(c1) == Children(c);
    FreeHandleLeavesNothing(c1);
  }

  lemma AttributeSet(t: Tape, c: Conn, h: nat)
    requires (Attached(c) || InSession(c)) && h in Children(c)
    ensures var (o, code) := SetAttribute(t, c.oci, h);
            && (code == 0 <==> Granted(t, c.oci.clock)) && o == c.oci.(clock := c.oci.clock + 1)
            && (Attached(c) ==> Attached(c.(oci := o))) && (InSession(c) ==> InSession(c.(oci := o)))
  {
  }

  lemma SessionBegun(t: Tape, c: Conn)
    requires Attached(c)
    ensures var (o, code) := SessionBegin(t, c.oci, c.svc, c.auth);
            && (code == 0 <==> Granted(t, c.oci.clock))
            && o == c.oci.(clock := c.oci.clock + 1, sessions := o.sessions)
            && (if code == 0 then InSession(c.(oci := o)) else Attached(c.(oci := o)))
  {
    assert c.auth in Children(c) && c.svc in Children(c);
  }

  lemma BeginSessionGives(t: Tape, c: Conn)
    requires Attached(c) && !c.connected
    ensures var r := BeginSession(t, c);
            && Bracketed(r.conn) && r.conn.oci.orphans == c.oci.orphans
            && (if AllGranted(t, c.oci.clock, 4) then r.rc == 0 && r.conn.connected && !r.conn.trans
                else r.rc == -1 && !r.conn.connected)
  {
    hide DetachAndFree, FreeHandle, DetachServer, Partial, Attached, Complete, Nothing, SetAttribute,
      SessionBegin, AllGranted, Granted;
    FourGranted(t, c.oci.clock);
    AttributeSet(t, c, c.auth) by { AttachedGives(c); }
    var c1 := c.(oci := SetAttribute(t, c.oci, c.auth).0);
    DetachAndFreeLeavesNothing(c1);
    AttributeSet(t, c1, c.auth) by { AttachedGives(c); }
    var c2 := c.(oci := SetAttribute(t, c1.oci, c.auth).0);
    DetachAndFreeLeavesNothing(c2);
    SessionBegun(t, c2);
    var begin := SessionBegin(t, c2.oci, c.svc, c.auth);
    var c3 := c.(oci := begin.0);
    if begin.1 != 0 {
      DetachAndFreeLeavesNothing(c3);
    } else {
      AttributeSet(t, c3, c.svc) by { AttachedGives(c); }
      DetachServerLeavesNothing(c.(oci := SetAttribute(t, c3.oci, c.svc).0));
      SessionOfConnected(c.(oci := SetAttribute(t, c3.oci, c.svc).0));
    }
  }

  lemma AttachedGives(c: Conn)
    requires Attached(c)
    ensures c.svc in Children(c) && c.auth in Children(c)
  {
  }

  lemma SessionOfConnected(c: Conn)
    requires InSession(c)
    ensures InSession(c.(connected := true, trans := false))
  {
    assert Children(c.(connected := true, trans := false)) == Children(c);
  }

  lemma FourGranted(t: Tape, from: nat)
    ensures AllGranted(t, from, 4) <==>
              Granted(t, from) && Granted(t, from + 1) && Granted(t, from + 2) && Granted(t, from + 3)
  {
  }

  /** The twelve requests of a connection, in their groups. */
  lemma TwelveGranted(t: Tape, from: nat)
    ensures AllGranted(t, from, 7) <==> AllGranted(t, from, 6) && Granted(t, from + 6)
    ensures AllGranted(t, from, 12) <==> AllGranted(t, from, 7) && Granted(t, from + 7) && AllGranted(t, from + 8, 4)
  {
  }

  /**
   Connecting gives a whole connection or nothing.  It succeeds exactly when the library grants all
   twelve requests, and orphans a server exactly when it grants the attachment, the seventh, and
   refuses to set it in the service handle.
   */
  lemma ConnectResult(t: Tape, c: Conn)
    requires Bracketed(c) && !c.connected
    ensures var (r, k) := (Connect(t, c), c.oci.clock);
            && Bracketed(r.conn)
            && (if AllGranted(t, k, 12) then r.rc == 0 && r.conn.connected && !r.conn.trans
                else r.rc == -1 && !r.conn.connected)
            && r.conn.oci.orphans == c.oci.orphans + if AllGranted(t, k, 7) && !Granted(t, k + 7) then {k + 5} else {}
  {
    hide InitHandle, AttachServer, BeginSession, FreeHandle, Partial, Nothing, Attached, Complete, Granted, AllGranted;
    var k := c.oci.clock;
    TwelveGranted(t, k);
    InitHandleGives(t, c);
    var i := InitHandle(t, c).conn;
    if !AllGranted(t, k, 6) {
      FreeHandleLeavesNothing(i);
    } else {
      AttachServerGives(t, i);
      var a := AttachServer(t, i).conn;
      if Granted(t, k + 6) && Granted(t, k + 7) {
        BeginSessionGives(t, a);
      } else {
        FreeHandleLeavesNothing(a);
      }
    }
  }

  lemma DisconnectResult(c: Conn)
    requires Bracketed(c)
    ensures var r := Disconnect(c);
            && Bracketed(r.conn) && !r.conn.connected && r.conn.oci.orphans == c.oci.orphans
            && r.rc == if c.connected then 0 else -1
  {
    hide DetachServer, FreeHandle, Partial, Attached;
    if c.connected {
      DetachServerLeavesNothing(c);
      NothingDisconnected(FreeHandle(DetachServer(c)));
    }
  }

  lemma NothingDisconnected(c: Conn)
    requires Nothing(c)
    ensures Nothing(c.(connected := false))
  {
    assert Children(c.(connected := false)) == Children(c);
  }

  // ---------------------------------------------------------------- runs

  datatype Call = CallConnect | CallDisconnect

  function Apply(t: Tape, c: Conn, call: Call): Result {
    match call
    case CallConnect => Connect(t, c)
    case CallDisconnect => Disconnect(c)
  }

  function Run(t: Tape, c: Conn, calls: seq<Call>): Conn
    decreases calls
  {
    if calls == [] then c else Run(t, Apply(t, c, calls[0]).conn, calls[1..])
  }

  /** Over any run, what is open is bracketed: nothing is misused, doubled, or left behind by a failure. */
  lemma {:induction false} RunIsBracketed(t: Tape, c: Conn, calls: seq<Call>)
    requires Bracketed(c)
    ensures Bracketed(Run(t, c, calls))
    decreases calls
  {
    hide Bracketed, Connect, Disconnect;
    if calls != [] {
      if calls[0].CallConnect? {
        if c.connected {
          assert Apply(t, c, calls[0]).conn == c by { ConnectedStays(t, c); }
        } else {
          ConnectResult(t, c);
        }
      } else {
        DisconnectResult(c);
      }
      RunIsBracketed(t, Apply(t, c, calls[0]).conn, calls[1..]);
    }
  }

  lemma ConnectedStays(t: Tape, c: Conn)
    requires c.connected
    ensures Connect(t, c) == Result(c, -1)
  {
  }

  /** A connection that was never used, all handles null. */
  function NewConn(trans: bool): Conn { Conn(FRESH_OCI, 0, 0, 0, 0, 0, false, trans) }

  /** The destructor disconnects if need be: after any run, the library holds nothing. */
  lemma DestroyLeavesNothing(t: Tape, trans: bool, calls: seq<Call>)
    ensures var o := Disconnect(Run(t, NewConn(trans), calls)).conn.oci;
            o.live == map[] && o.attached == {} && o.sessions == map[] && !o.misused
  {
    hide Disconnect, Run;
    var c := Run(t, NewConn(trans), calls);
    assert Children(NewConn(trans)) == {};
    RunIsBracketed(t, NewConn(trans), calls);
    DisconnectResult(c);
    NothingIsLeft(Disconnect(c).conn);
  }

  /** The servers orphaned by the connects of a run: granted the attachment, refused to be set. */
  function Orphaned(t: Tape, c: Conn, calls: seq<Call>): set<nat>
    decreases calls
  {
    if calls == [] then {}
    else
      var k := c.oci.clock;
      (if calls[0].CallConnect? && !c.connected && AllGranted(t, k, 7) && !Granted(t, k + 7) then {k + 5} else {})
      + Orphaned(t, Apply(t, c, calls[0]).conn, calls[1..])
  }

  /** Each attachment is detached, but for those that could not be set in the service handle. */
  lemma {:induction false} OrphansOfRun(t: Tape, c: Conn, calls: seq<Call>)
    requires Bracketed(c)
    ensures Run(t, c, calls).oci.orphans == c.oci.orphans + Orphaned(t, c, calls)
    decreases calls
  {
    hide Bracketed, Connect, Disconnect, AllGranted, Granted;
    if calls != [] {
      if calls[0].CallConnect? {
        if c.connected {
          ConnectedStays(t, c);
        } else {
          ConnectResult(t, c);
        }
      } else {
        DisconnectResult(c);
      }
      OrphansOfRun(t, Apply(t, c, calls[0]).conn, calls[1..]);
    }
  }

  // ---------------------------------------------------------------- connecting over live handles

  /** Twelve requests in one answer: 0 if all are granted, negative if there is not even a new environment. */
  function Summary(t: Tape, from: nat): int {
    if !Granted(t, from) || !Granted(t, from + 1) then -1 else if AllGranted(t, from, 12) then 0 else 1
  }

  lemma InitCodes(t: Tape, c: Conn)
    ensures forall r: Result :: r in [InitEnv(t, c), InitSvc(t, c), InitErr(t, c), InitSrv(t, c), InitAuth(t, c)] ==>
              (r.rc == 0 <==> Granted(t, c.oci.clock)) && r.conn.oci.clock == c.oci.clock + 1
  {
  }

  lemma InitHandleCode(t: Tape, c: Conn)
    ensures var (r, k) := (InitHandle(t, c), c.oci.clock);
            (r.rc == 0 <==> AllGranted(t, k, 6)) && (r.rc == 0 ==> r.conn.oci.clock == k + 6)
  {
    hide InitEnv, InitSvc, InitErr, InitSrv, InitAuth;
    GrantedSoFar(t, c.oci.clock);
    var c0 := c.(oci := Answered(c.oci));
    InitCodes(t, c0);
    var c1 := InitEnv(t, c0).conn;
    InitCodes(t, c1);
    var c2 := InitSvc(t, c1).conn;
    InitCodes(t, c2);
    var c3 := InitErr(t, c2).conn;
    InitCodes(t, c3);
    InitCodes(t, InitSrv(t, c3).conn);
  }

  lemma LaterCodes(t: Tape, c: Conn)
    ensures var (r, k) := (AttachServer(t, c), c.oci.clock);
            (r.rc == 0 <==> Granted(t, k) && Granted(t, k + 1)) && (r.rc == 0 ==> r.conn.oci.clock == k + 2)
    ensures var (r, k) := (BeginSession(t, c), c.oci.clock);
            r.rc == 0 <==> Granted(t, k) && Granted(t, k + 1) && Granted(t, k + 2) && Granted(t, k + 3)
  {
    hide FreeHandle;
  }

  /** Whatever handles the connection still has, it takes twelve grants to connect. */
  lemma ConnectCode(t: Tape, c: Conn)
    requires !c.connected
    ensures Connect(t, c).rc == 0 <==> Summary(t, c.oci.clock) == 0
  {
    hide InitHandle, AttachServer, BeginSession, FreeHandle, Granted, AllGranted;
    TwelveGranted(t, c.oci.clock);
    GrantedSoFar(t, c.oci.clock);
    FourGranted(t, c.oci.clock + 8);
    InitHandleCode(t, c);
    var i := InitHandle(t, c).conn;
    LaterCodes(t, i);
    LaterCodes(t, AttachServer(t, i).conn);
  }

  /** A live handle that the connection does not know. */
  predicate Forgotten(c: Conn, h: nat) {
    && 0 < h <= c.oci.clock && h in c.oci.live
    && h != c.env && h != c.svc && h != c.err && h != c.srv && h != c.auth
  }

  lemma FreeHandleKeeps(c: Conn, h: nat)
    ensures Forgotten(c, h) ==> Forgotten(FreeHandle(c), h)
    ensures c.env != 0 ==> c.env !in FreeHandle(c).oci.live
  {
    hide FreeOne;
    FreeOneKeeps(c.oci, c.srv, h);
    var o1 := FreeOne(c.oci, c.srv);
    FreeOneKeeps(o1, c.svc, h);
    var o2 := FreeOne(o1, c.svc);
    FreeOneKeeps(o2, c.err, h);
    var o3 := FreeOne(o2, c.err);
    FreeOneKeeps(o3, c.auth, h);
    FreeOneKeeps(FreeOne(o3, c.auth), c.env, h);
  }

  lemma FreeOneKeeps(o: Oci, freed: nat, h: nat)
    ensures var o' := FreeOne(o, freed);
            o'.clock == o.clock && (freed != 0 ==> freed !in o'.live)
              && (h != freed ==> (h in o'.live <==> h in o.live))
  {
  }

  lemma AllocKeeps(t: Tape, c: Conn, h: nat)
    requires Forgotten(c, h)
    ensures Forgotten(InitSvc(t, c).conn, h) && Forgotten(InitErr(t, c).conn, h)
    ensures Forgotten(InitSrv(t, c).conn, h) && Forgotten(InitAuth(t, c).conn, h)
  {
  }

  lemma InitEnvForgets(t: Tape, c: Conn)
    requires InSession(c)
    ensures var r := InitEnv(t, c.(oci := Answered(c.oci)));
            && c.env != 0
            && if Granted(t, c.oci.clock + 1) then Forgotten(r.conn, c.env) && r.rc == 0
              else r.rc != 0 && r.conn.env == c.env
  {
    assert c.env in c.oci.live;
  }

  /** A new environment takes the place of the old one, and nothing later frees what is forgotten. */
  lemma InitHandleForgets(t: Tape, c: Conn)
    requires InSession(c)
    ensures var (r, k) := (InitHandle(t, c), c.oci.clock);
            if Granted(t, k) && Granted(t, k + 1) then Forgotten(r.conn, c.env)
            else r.rc != 0 && r.conn.env == c.env != 0
  {
    hide InitEnv, InitSvc, InitErr, InitSrv, InitAuth, InSession, Forgotten;
    var k := c.oci.clock;
    InitEnvForgets(t, c);
    if Granted(t, k) && Granted(t, k + 1) {
      var c1 := InitEnv(t, c.(oci := Answered(c.oci))).conn;
      AllocKeeps(t, c1, c.env);
      var c2 := InitSvc(t, c1).conn;
      AllocKeeps(t, c2, c.env);
      var c3 := InitErr(t, c2).conn;
      AllocKeeps(t, c3, c.env);
      AllocKeeps(t, InitSrv(t, c3).conn, c.env);
    }
  }

  lemma DetachKeeps(c: Conn, h: nat)
    requires Forgotten(c, h)
    ensures Forgotten(DetachAndFree(c), h) && Forgotten(FreeHandle(DetachServer(c)), h)
  {
    hide FreeHandle;
    FreeHandleKeeps(c.(oci := ServerDetach(c.oci, c.srv)), h);
    FreeHandleKeeps(DetachServer(c), h);
  }

  lemma LaterKeep(t: Tape, c: Conn, h: nat)
    requires Forgotten(c, h)
    ensures Forgotten(AttachServer(t, c).conn, h) && Forgotten(BeginSession(t, c).conn, h)
  {
    hide DetachAndFree, FreeHandle, DetachServer;
    var o1 := SetAttribute(t, c.oci, c.auth).0;
    var o2 := SetAttribute(t, o1, c.auth).0;
    var o3 := SessionBegin(t, o2, c.svc, c.auth).0;
    DetachKeeps(c.(oci := o1), h);
    DetachKeeps(c.(oci := o2), h);
    DetachKeeps(c.(oci := o3), h);
    DetachKeeps(c.(oci := SetAttribute(t, o3, c.svc).0), h);
  }

  /**
   A connection that is lost is connected anew over its old handles.  The old environment is freed
   exactly when there is no new one; otherwise it stays behind, whatever becomes of the attempt.
   */
  lemma ConnectOverResult(t: Tape, c: Conn)
    requires InSession(c)
    ensures var (r, summary) := (Connect(t, c.(connected := false)), Summary(t, c.oci.clock));
            (r.rc == 0 <==> summary == 0) && (c.env in r.conn.oci.live <==> summary >= 0)
  {
    hide InitHandle, AttachServer, BeginSession, FreeHandle, InSession, AllGranted, Granted;
    var c' := c.(connected := false);
    ConnectCode(t, c');
    assert InSession(c') by { StillInSession(c); }
    InitHandleForgets(t, c');
    var i := InitHandle(t, c').conn;
    FreeHandleKeeps(i, c.env);
    if Summary(t, c.oci.clock) >= 0 {
      LaterKeep(t, i, c.env);
      var a := AttachServer(t, i).conn;
      FreeHandleKeeps(a, c.env);
      LaterKeep(t, a, c.env);
    }
  }

  lemma StillInSession(c: Conn)
    requires InSession(c)
    ensures InSession(c.(connected := false))
  {
    assert Children(c.(connected := false)) == Children(c);
    assert Children(c.(oci := c.oci.(sessions := map[]), connected := false))
      == Children(c.(oci := c.oci.(sessions := map[])));
  }

  // ---------------------------------------------------------------- an orphan

  /** A library that refuses the eighth request and grants all others. */
  function RefusingEighth(): Tape {
    i => Reply(if i == 7 then -1 else 0, Field("", 0, 0, false))
  }

  /** It attaches the first connection's server, handle 5, which nobody detaches again. */
  lemma OneOrphan(trans: bool)
    ensures var r := Connect(RefusingEighth(), NewConn(trans)); r.rc == -1 && r.conn.oci.orphans == {5}
  {
    hide Connect;
    assert Children(NewConn(trans)) == {};
    ConnectResult(RefusingEighth(), NewConn(trans));
    assert !Granted(RefusingEighth(), 7);
  }
}
