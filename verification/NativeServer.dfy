/**
 The native client library and the database behind it, as far as the drivers can tell.

 The library answers every call as it likes: its answers are a tape, indexed by the number of
 answers given so far, and everything proved about the drivers holds for every tape.  What the
 library has to keep is explicit: which resources it has handed out (statements, metadata results,
 column buffers), what each statement was prepared from and bound to, and the journal of writes.
 */
module NativeServer {

  /** One column of a result, as mysql_fetch_field describes it. */
  datatype Field = Field(name: string, ty: int, length: nat, unsigned: bool)

  /** `code` is the status or count a call returns (0 is success); `field` a column description. */
  datatype Reply = Reply(code: int, field: Field)

  type Tape = nat -> Reply

  /** A caller's pointer, with the text that it points to. */
  datatype Pointer = Null | To(address: nat, text: string)

  /** One parameter binding; `length` is the content of the length cell, when one is given. */
  datatype Bind = Bind(ty: int, buffer: Pointer, size: int, length: Option<int>)

  datatype Option<+T> = None | Some(value: T)

  /** A prepared statement: its text, the parameters bound to it, the pieces of long data sent. */
  datatype Statement = Statement(sql: string, binds: map<int, Bind>, long: string)

  datatype Fate = Pending | Committed | RolledBack

  /** A write the server has executed, and what has become of it. */
  datatype Entry = Entry(write: Statement, fate: Fate)

  datatype Server = Server(
    clock: nat,                      // answers given so far
    live: multiset<nat>,             // resources handed out and not returned
    stmts: map<nat, Statement>,      // what each statement handle was prepared from
    journal: seq<Entry>,             // every write executed, in order
    failing: bool,                   // a write has failed and nothing was rolled back since
    commitAfterFailure: bool,        // a commit was asked for while `failing`
    misused: bool,                   // a resource was used or returned while not live
    children: set<nat>,              // statements allocated in the environment of the connection (Oracle)
    gone: set<nat>)                  // statements that were live when their environment was freed (Oracle)

  const FRESH_SERVER := Server(0, multiset{}, map[], [], false, false, false, {}, {})

  // ---------------------------------------------------------------- resources

  /** Every live resource has been handed out once, and none was freed with its environment. */
  predicate Numbered(s: Server) {
    && (forall id :: id in s.live ==> 0 < id <= s.clock && s.live[id] == 1)
    && (forall id :: id in s.gone ==> 0 < id <= s.clock && id !in s.live)
  }

  /** No write is executed, no transaction ends and no environment is freed. */
  predicate Silent(s: Server, s': Server) {
    && s'.journal == s.journal
    && s'.failing == s.failing
    && s'.commitAfterFailure == s.commitAfterFailure
    && s'.gone == s.gone && (s.misused ==> s'.misused)
  }

  /** The number the next resource gets; never null, never reused. */
  function NextId(s: Server): nat { s.clock + 1 }

  function Acquire(s: Server): (r: Server)
    ensures (Numbered(s) ==> Numbered(r)) && Silent(s, r)
  {
    s.(clock := s.clock + 1, live := s.live + multiset{NextId(s)})
  }

  function Release(s: Server, id: nat): (r: Server)
    ensures r.clock == s.clock
    ensures (Numbered(s) ==> Numbered(r)) && Silent(s, r)
  {
    s.(live := s.live - multiset{id}, misused := s.misused || id !in s.live)
  }

  /** An answer is given about resource `id`. */
  function Use(s: Server, id: nat): (r: Server)
    ensures (Numbered(s) ==> Numbered(r)) && Silent(s, r)
  {
    s.(clock := s.clock + 1, misused := s.misused || id !in s.live)
  }

  /** Released one after the other, in order. */
  function ReleaseAll(s: Server, ids: seq<nat>): (r: Server)
    ensures r.clock == s.clock
    ensures (Numbered(s) ==> Numbered(r)) && Silent(s, r)
  {
    if ids == [] then s else Release(ReleaseAll(s, ids[..|ids| - 1]), ids[|ids| - 1])
  }

  /** The resources in a list, with their multiplicity. */
  function Items(ids: seq<nat>): multiset<nat> {
    if ids == [] then multiset{} else Items(ids[..|ids| - 1]) + multiset{ids[|ids| - 1]}
  }

  lemma ItemsAppend(ids: seq<nat>, id: nat)
    ensures Items(ids + [id]) == Items(ids) + multiset{id}
  {
    assert (ids + [id])[..|ids|] == ids;
  }

  /** `n` resources handed out in a row, and their numbers. */
  function AcquireMany(s: Server, n: nat): (r: Server)
    ensures r == s.(clock := s.clock + n, live := r.live)
    ensures Numbered(s) ==> Numbered(r)
  {
    if n == 0 then s else Acquire(AcquireMany(s, n - 1))
  }

  function NextItems(s: Server, n: nat): multiset<nat> {
    if n == 0 then multiset{} else NextItems(s, n - 1) + multiset{s.clock + n}
  }

  /** The same resource asked `n` times. */
  function UseMany(s: Server, id: nat, n: nat): (r: Server)
    ensures (Numbered(s) ==> Numbered(r)) && Silent(s, r)
  {
    s.(clock := s.clock + n, misused := s.misused || (n > 0 && id !in s.live))
  }

  /** An answer that concerns no resource. */
  function Answer(s: Server): (r: Server)
    ensures (Numbered(s) ==> Numbered(r)) && Silent(s, r)
  { s.(clock := s.clock + 1) }

  function Code(t: Tape, s: Server): int { t(s.clock).code }

  // ---------------------------------------------------------------- statements

  /** Creates a statement; the handle is 0 (null) when the library refuses. */
  function StmtInit(t: Tape, s: Server): (r: (Server, nat))
    ensures (Numbered(s) ==> Numbered(r.0)) && Silent(s, r.0)
  {
    if Code(t, s) == 0 then (Acquire(s), NextId(s)) else (Answer(s), 0)
  }

  /** A description of the statement's result, or 0 (null) when there is none. */
  function ResultMetadata(t: Tape, s: Server, stmt: nat): (r: (Server, nat))
    ensures (Numbered(s) ==> Numbered(r.0)) && Silent(s, r.0)
  {
    var misused := s.misused || stmt !in s.live;
    if Code(t, s) == 0 then (Acquire(s).(misused := misused), NextId(s)) else (Answer(s).(misused := misused), 0)
  }

  function StatementOf(s: Server, stmt: nat): Statement {
    if stmt in s.stmts then s.stmts[stmt] else Statement("", map[], "")
  }

  function Prepare(t: Tape, s: Server, stmt: nat, sql: string): (r: (Server, int))
    ensures (Numbered(s) ==> Numbered(r.0)) && Silent(s, r.0)
  {
    var code := Code(t, s);
    var s' := Use(s, stmt);
    (if code == 0 then s'.(stmts := s'.stmts[stmt := Statement(sql, map[], "")]) else s', code)
  }

  /** Replaces all bindings (mysql_stmt_bind_param). */
  function BindAll(t: Tape, s: Server, stmt: nat, binds: map<int, Bind>): (r: (Server, int))
    ensures (Numbered(s) ==> Numbered(r.0)) && Silent(s, r.0)
  {
    var code := Code(t, s);
    var s' := Use(s, stmt);
    (if code == 0 then s'.(stmts := s'.stmts[stmt := StatementOf(s, stmt).(binds := binds)]) else s', code)
  }

  /** Adds one binding (OCIBindByPos); a negative code is a failure. */
  function BindOne(t: Tape, s: Server, stmt: nat, position: int, bind: Bind): (r: (Server, int))
    ensures (Numbered(s) ==> Numbered(r.0)) && Silent(s, r.0)
  {
    var code := Code(t, s);
    var s' := Use(s, stmt);
    var text := StatementOf(s, stmt);
    (if code >= 0 then s'.(stmts := s'.stmts[stmt := text.(binds := text.binds[position := bind])]) else s', code)
  }

  /** Appends a piece of long data to the statement's first parameter. */
  function SendLong(t: Tape, s: Server, stmt: nat, data: string): (r: (Server, int))
    ensures (Numbered(s) ==> Numbered(r.0)) && Silent(s, r.0)
  {
    var code := Code(t, s);
    var s' := Use(s, stmt);
    var text := StatementOf(s, stmt);
    (if code == 0 then s'.(stmts := s'.stmts[stmt := text.(long := text.long + data)]) else s', code)
  }

  /** A call about a statement that only answers: execute for reading, fetch, row counts, ... */
  function Ask(t: Tape, s: Server, stmt: nat): (r: (Server, int))
    ensures (Numbered(s) ==> Numbered(r.0)) && Silent(s, r.0)
  {
    (Use(s, stmt), Code(t, s))
  }

  /** A call about the connection that only answers. */
  function AskConnection(t: Tape, s: Server): (r: (Server, int))
    ensures (Numbered(s) ==> Numbered(r.0)) && Silent(s, r.0)
  {
    (Answer(s), Code(t, s))
  }

  /** Executes a statement as a write: it joins the journal, or leaves the server failing. */
  function ExecuteWrite(t: Tape, s: Server, stmt: nat): (r: (Server, int))
    ensures Numbered(s) ==> Numbered(r.0)
  {
    var code := Code(t, s);
    var s' := Use(s, stmt);
    (if code == 0 then s'.(journal := s'.journal + [Entry(StatementOf(s, stmt), Pending)])
     else s'.(failing := true), code)
  }

  const SUCCESS_WITH_INFO := 1

  /** The statuses of OCI after which a statement has been executed. */
  predicate IsDone(code: int) {
    code == 0 || code == SUCCESS_WITH_INFO
  }

  /** The same for OCI, which can execute a statement and have something to say about it. */
  function StmtExecute(t: Tape, s: Server, stmt: nat): (r: (Server, int))
    ensures Numbered(s) ==> Numbered(r.0)
  {
    var code := Code(t, s);
    var s' := Use(s, stmt);
    (if IsDone(code) then s'.(journal := s'.journal + [Entry(StatementOf(s, stmt), Pending)])
     else s'.(failing := true), code)
  }

  // ---------------------------------------------------------------- transactions

  /** Gives every pending write the same fate. */
  function Settle(journal: seq<Entry>, fate: Fate): (r: seq<Entry>)
    ensures |r| == |journal|
    ensures forall i :: 0 <= i < |r| ==>
              r[i] == if journal[i].fate.Pending? then journal[i].(fate := fate) else journal[i]
  {
    if journal == [] then []
    else
      var e := journal[|journal| - 1];
      Settle(journal[..|journal| - 1], fate) + [if e.fate.Pending? then e.(fate := fate) else e]
  }

  function Commit(s: Server): (r: Server)
    ensures Numbered(s) ==> Numbered(r)
  {
    s.(clock := s.clock + 1,
       journal := Settle(s.journal, Committed),
       commitAfterFailure := s.commitAfterFailure || s.failing)
  }

  function Rollback(s: Server): (r: Server)
    ensures Numbered(s) ==> Numbered(r)
  {
    s.(clock := s.clock + 1, journal := Settle(s.journal, RolledBack), failing := false)
  }

  /** The session ends, and the server rolls its open transaction back. */
  function EndSession(s: Server): (r: Server)
    ensures Numbered(s) ==> Numbered(r)
  {
    s.(journal := Settle(s.journal, RolledBack), failing := false)
  }

  /** An attempt to connect; whatever session there was is over. */
  function Connect(t: Tape, s: Server): (r: (Server, int))
    ensures Numbered(s) ==> Numbered(r.0)
  {
    (Answer(EndSession(s)), Code(t, s))
  }

  // ---------------------------------------------------------------- environments

  /** A statement of the connection's environment; without an environment it is nobody's child. */
  function StmtInitIn(t: Tape, s: Server, hasEnv: bool): (r: (Server, nat))
    ensures (Numbered(s) ==> Numbered(r.0)) && Silent(s, r.0)
  {
    var (s', p) := StmtInit(t, s);
    (if hasEnv && p != 0 then s'.(children := s'.children + {p}) else s', p)
  }

  /** Frees the environment, and with it the statements that were allocated in it. */
  function FreeEnvironment(s: Server): (r: Server)
    ensures r.clock == s.clock && (Numbered(s) ==> Numbered(r))
  {
    s.(live := s.live - multiset(s.children),
       gone := s.gone + (set id | id in s.children && id in s.live),
       children := {})
  }

  /**
   An attempt to connect that may overwrite an environment.  Refused before there is a new one (a
   negative answer), it frees the old one, if there is one; otherwise the old one is forgotten.
   */
  function ConnectOver(t: Tape, s: Server, hasEnv: bool): (r: (Server, int))
    ensures r.0.clock == s.clock + 1 && (Numbered(s) ==> Numbered(r.0))
  {
    var (s', code) := Connect(t, s);
    (if hasEnv && code < 0 then FreeEnvironment(s') else s'.(children := {}), code)
  }

  predicate NothingPending(journal: seq<Entry>) {
    forall i :: 0 <= i < |journal| ==> !journal[i].fate.Pending?
  }

  /** `later` has every write of `earlier`, in place, and no settled fate has changed. */
  predicate Extends(earlier: seq<Entry>, later: seq<Entry>) {
    && |earlier| <= |later|
    && (forall i :: 0 <= i < |earlier| ==> later[i].write == earlier[i].write)
    && (forall i :: 0 <= i < |earlier| && !earlier[i].fate.Pending? ==> later[i] == earlier[i])
  }

  // ---------------------------------------------------------------- what a piece of driver code does to the books

  /**
   Code that held `before` and now holds `after` has kept the books: it used only what was live,
   returned each resource it no longer holds once, and acquired each one it newly holds.
   */
  predicate Balanced(s: Server, s': Server, before: multiset<nat>, after: multiset<nat>) {
    before <= s.live && !s.misused ==> s'.live + before == s.live + after && !s'.misused
  }

  lemma BalancedTrans(s0: Server, s1: Server, s2: Server, a: multiset<nat>, b: multiset<nat>, c: multiset<nat>)
    requires Balanced(s0, s1, a, b) && Balanced(s1, s2, b, c)
    ensures Balanced(s0, s2, a, c)
  {
    assert b + multiset{} == b && c + multiset{} == c;
    BalancedThen(s0, s1, s2, a, b, c, multiset{});
  }

  /** One step after another: the second returns `x` and acquires `y`, and leaves `rest` alone. */
  lemma BalancedThen(s0: Server, s1: Server, s2: Server,
                     a: multiset<nat>, x: multiset<nat>, y: multiset<nat>, rest: multiset<nat>)
    requires Balanced(s0, s1, a, x + rest) && Balanced(s1, s2, x, y)
    ensures Balanced(s0, s2, a, y + rest)
  {
    if a <= s0.live && !s0.misused {
      forall id
        ensures s1.live[id] + a[id] == s0.live[id] + x[id] + rest[id] && a[id] <= s0.live[id]
      {
        assert (s1.live + a)[id] == (s0.live + (x + rest))[id];
      }
      assert x <= s1.live;
      assert forall id :: s2.live[id] + x[id] == (s2.live + x)[id] == s1.live[id] + y[id];
    }
  }

  /** What others hold does not matter. */
  lemma BalancedFrame(s: Server, s': Server, a: multiset<nat>, b: multiset<nat>, rest: multiset<nat>)
    requires Balanced(s, s', a, b)
    ensures Balanced(s, s', a + rest, b + rest)
  {
    if a + rest <= s.live && !s.misused {
      assert a <= s.live;
      assert forall id :: s'.live[id] + a[id] == (s'.live + a)[id] == s.live[id] + b[id];
    }
  }

  lemma AcquireBalanced(s: Server)
    ensures Balanced(s, Acquire(s), multiset{}, multiset{NextId(s)})
  {
  }

  lemma ReleaseBalanced(s: Server, id: nat)
    ensures Balanced(s, Release(s, id), multiset{id}, multiset{})
  {
    if multiset{id} <= s.live {
      assert id in s.live;
    }
  }

  lemma {:induction false} ReleaseAllBalanced(s: Server, ids: seq<nat>)
    ensures Balanced(s, ReleaseAll(s, ids), Items(ids), multiset{})
  {
    if ids == [] {
    } else {
      var init, last := ids[..|ids| - 1], ids[|ids| - 1];
      var s' := ReleaseAll(s, init);
      ReleaseAllBalanced(s, init);
      BalancedFrame(s, s', Items(init), multiset{}, multiset{last});
      ReleaseBalanced(s', last);
      BalancedThen(s, s', Release(s', last), Items(ids), multiset{last}, multiset{}, multiset{});
    }
  }

  lemma AcquireOneMore(s: Server, s': Server, held: multiset<nat>)
    requires Balanced(s, s', multiset{}, held)
    ensures Balanced(s, Acquire(s'), multiset{}, held + multiset{NextId(s')})
  {
    assert multiset{} + held == held;
    AcquireBalanced(s');
    assert multiset{NextId(s')} + held == held + multiset{NextId(s')};
    BalancedThen(s, s', Acquire(s'), multiset{}, multiset{}, multiset{NextId(s')}, held);
  }

  lemma {:induction false} AcquireManyBalanced(s: Server, n: nat)
    ensures Balanced(s, AcquireMany(s, n), multiset{}, NextItems(s, n))
  {
    if n == 0 {
    } else {
      AcquireManyBalanced(s, n - 1);
      AcquireOneMore(s, AcquireMany(s, n - 1), NextItems(s, n - 1));
    }
  }

  lemma ReleaseOneMore(s: Server, ids: seq<nat>, id: nat)
    ensures ReleaseAll(s, ids + [id]) == Release(ReleaseAll(s, ids), id)
  {
    assert (ids + [id])[..|ids|] == ids;
  }
}
