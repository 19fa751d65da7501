/**
 `dbHandle::loadLibrary` run by any number of threads: a flag that is read without the lock, a mutex,
 and one function pointer per symbol.  Every step that another thread can see is a step here, and any
 thread may take the next one.
 */
module Loader {
  import opened NativeServer

  /** What dlsym answers for each symbol of the list, always the same; None is an error. */
  type Library = seq<Option<nat>>

  datatype Pc =
    | ReadFlag
    | WantLock
    | Open
    | OpenFailed
    | Resolve(k: nat)       // about to look symbol k up, or past the last one
    | Check(k: nat)         // symbol k is assigned, dlerror is asked
    | Unlock
    | Returned
    | ThrewOpen
    | ThrewSymbol(k: nat)

  datatype State = State(
    flag: bool,                   // bLoadHandleFlag
    owner: Option<nat>,           // who holds loadLibMutex
    symbols: seq<Option<nat>>,    // the function pointers, None for null
    opens: nat,                   // calls of dlopen that succeeded
    threads: seq<Pc>)

  predicate Finished(pc: Pc) {
    pc.Returned? || pc.ThrewOpen? || pc.ThrewSymbol?
  }

  /** Between lock and unlock. */
  predicate Loading(pc: Pc) {
    pc.Open? || pc.OpenFailed? || pc.Resolve? || pc.Check? || pc.Unlock?
  }

  function Start(lib: Library, n: nat): State {
    State(false, None, seq(|lib|, _ => None), 0, seq(n, _ => ReadFlag))
  }

  /** One step of thread `thread`; `opens` is what dlopen answers if it is asked. */
  datatype Move = Move(thread: nat, opens: bool)

  predicate Enabled(s: State, t: nat) {
    t < |s.threads| && !Finished(s.threads[t]) && (s.threads[t].WantLock? ==> s.owner.None?)
  }

  predicate WellFormed(lib: Library, s: State) {
    && |s.symbols| == |lib|
    && forall t :: 0 <= t < |s.threads| ==>
         match s.threads[t] {
           case Resolve(k) => k <= |lib|
           case Check(k) => k < |lib|
           case ThrewSymbol(k) => k < |lib|
           case _ => true
         }
  }

  function Goes(s: State, t: nat, pc: Pc): State
    requires t < |s.threads|
  {
    s.(threads := s.threads[t := pc])
  }

  function Step(lib: Library, s: State, m: Move): (s': State)
    requires WellFormed(lib, s) && Enabled(s, m.thread)
    ensures WellFormed(lib, s') && |s'.threads| == |s.threads|
  {
    var t := m.thread;
    match s.threads[t]
    case ReadFlag => Goes(s, t, if s.flag then Returned else WantLock)
    case WantLock => Goes(s.(owner := Some(t)), t, Open)
    case Open => if m.opens then Goes(s.(opens := s.opens + 1), t, Resolve(0)) else Goes(s, t, OpenFailed)
    case OpenFailed => Goes(s.(owner := None), t, ThrewOpen)
    case Resolve(k) =>
      if k < |lib| then Goes(s.(symbols := s.symbols[k := lib[k]]), t, Check(k)) else Goes(s.(flag := true), t, Unlock)
    case Check(k) => Goes(s, t, if lib[k].None? then ThrewSymbol(k) else Resolve(k + 1))
    case Unlock => Goes(s.(owner := None), t, Returned)
  }

  predicate RunAllowed(lib: Library, s: State, moves: seq<Move>)
    requires WellFormed(lib, s)
    decreases moves
  {
    moves == [] || (Enabled(s, moves[0].thread) && RunAllowed(lib, Step(lib, s, moves[0]), moves[1..]))
  }

  function Run(lib: Library, s: State, moves: seq<Move>): (s': State)
    requires WellFormed(lib, s) && RunAllowed(lib, s, moves)
    ensures WellFormed(lib, s')
    decreases moves
  {
    if moves == [] then s else Run(lib, Step(lib, s, moves[0]), moves[1..])
  }

  // ---------------------------------------------------------------- what every interleaving keeps

  predicate ResolvedUpTo(lib: Library, symbols: seq<Option<nat>>, k: nat)
    requires |symbols| == |lib|
  {
    k <= |lib| && forall j :: 0 <= j < k ==> lib[j].Some? && symbols[j] == lib[j]
  }

  predicate Resolvable(lib: Library) {
    forall j :: 0 <= j < |lib| ==> lib[j].Some?
  }

  predicate ThreadOk(lib: Library, s: State, t: nat)
    requires |s.symbols| == |lib| && t < |s.threads|
  {
    match s.threads[t]
    case Resolve(k) => ResolvedUpTo(lib, s.symbols, k)
    case Check(k) => k < |lib| && ResolvedUpTo(lib, s.symbols, k) && s.symbols[k] == lib[k]
    case ThrewSymbol(k) => k < |lib| && lib[k].None?
    case Unlock => s.flag
    case Returned => s.flag
    case _ => true
  }

  predicate Inv(lib: Library, s: State) {
    && WellFormed(lib, s)
    && (forall j :: 0 <= j < |lib| && s.symbols[j].Some? ==> s.symbols[j] == lib[j])
    && (s.flag ==> ResolvedUpTo(lib, s.symbols, |lib|))
    && (forall t :: 0 <= t < |s.threads| ==>
          ((Loading(s.threads[t]) || s.threads[t].ThrewSymbol?) <==> s.owner == Some(t)))
    && (s.owner.Some? ==> s.owner.value < |s.threads|)
    && (forall t :: 0 <= t < |s.threads| ==> ThreadOk(lib, s, t))
  }

  lemma StartKeepsInv(lib: Library, n: nat)
    ensures Inv(lib, Start(lib, n))
  {
  }

  /** What one step does to the parts that all threads see. */
  lemma StepKeepsInv(lib: Library, s: State, m: Move)
    requires Inv(lib, s) && Enabled(s, m.thread)
    ensures Inv(lib, Step(lib, s, m))
    ensures s.flag ==> Step(lib, s, m).flag && Step(lib, s, m).symbols == s.symbols
  {
    var s' := Step(lib, s, m);
    assert forall j :: 0 <= j < |lib| && s.symbols[j].Some? ==> s'.symbols[j] == s.symbols[j];
    forall t | 0 <= t < |s'.threads|
      ensures ThreadOk(lib, s', t)
      ensures (Loading(s'.threads[t]) || s'.threads[t].ThrewSymbol?) <==> s'.owner == Some(t)
    {
      assert ThreadOk(lib, s, t) && ThreadOk(lib, s, m.thread);
    }
  }

  /** Every interleaving keeps the invariant, and once the flag is set it and the pointers stay. */
  lemma {:induction false} RunKeepsInv(lib: Library, s: State, moves: seq<Move>)
    requires Inv(lib, s) && RunAllowed(lib, s, moves)
    ensures Inv(lib, Run(lib, s, moves))
    ensures s.flag ==> Run(lib, s, moves).flag && Run(lib, s, moves).symbols == s.symbols
    decreases moves
  {
    hide Step, ThreadOk;
    if moves != [] {
      StepKeepsInv(lib, s, moves[0]);
      RunKeepsInv(lib, Step(lib, s, moves[0]), moves[1..]);
    }
  }

  /** At most one thread is between lock and unlock. */
  lemma AtMostOneIsLoading(lib: Library, n: nat, moves: seq<Move>, t: nat, u: nat)
    requires RunAllowed(lib, Start(lib, n), moves)
    requires var s := Run(lib, Start(lib, n), moves);
             t < |s.threads| && u < |s.threads| && Loading(s.threads[t]) && Loading(s.threads[u])
    ensures t == u
  {
    StartKeepsInv(lib, n);
    RunKeepsInv(lib, Start(lib, n), moves);
  }

  /**
   A thread that returns sees every symbol resolved, whatever it and the others did, and so does any
   thread at any later time.
   */
  lemma ReturnedSeesAllResolved(lib: Library, n: nat, moves: seq<Move>, later: seq<Move>, t: nat)
    requires RunAllowed(lib, Start(lib, n), moves) && RunAllowed(lib, Run(lib, Start(lib, n), moves), later)
    requires var s := Run(lib, Start(lib, n), moves); t < |s.threads| && s.threads[t].Returned?
    ensures Resolvable(lib) && Run(lib, Run(lib, Start(lib, n), moves), later).symbols == lib
  {
    StartKeepsInv(lib, n);
    RunKeepsInv(lib, Start(lib, n), moves);
    var s := Run(lib, Start(lib, n), moves);
    assert ThreadOk(lib, s, t);
    assert s.symbols == lib;
    RunKeepsInv(lib, s, later);
  }

  /** The flag is never set too early: when it is, every symbol is resolved. */
  lemma FlagMeansResolved(lib: Library, n: nat, moves: seq<Move>)
    requires RunAllowed(lib, Start(lib, n), moves)
    ensures var s := Run(lib, Start(lib, n), moves); s.flag ==> Resolvable(lib) && s.symbols == lib
  {
    StartKeepsInv(lib, n);
    RunKeepsInv(lib, Start(lib, n), moves);
  }

  /** A finished thread has given the mutex back unless it threw on a symbol, and then it still holds it. */
  lemma OnlyASymbolKeepsTheMutex(lib: Library, n: nat, moves: seq<Move>, t: nat)
    requires RunAllowed(lib, Start(lib, n), moves)
    requires var s := Run(lib, Start(lib, n), moves); t < |s.threads| && Finished(s.threads[t])
    ensures var s := Run(lib, Start(lib, n), moves); s.owner == Some(t) <==> s.threads[t].ThrewSymbol?
  {
    StartKeepsInv(lib, n);
    RunKeepsInv(lib, Start(lib, n), moves);
  }

  // ---------------------------------------------------------------- the mutex that is never released

  /** The holder of the mutex has finished. */
  predicate Stuck(s: State) {
    s.owner.Some? && s.owner.value < |s.threads| && Finished(s.threads[s.owner.value])
  }

  /** From then on nothing is released, no flag is set and nobody returns. */
  lemma {:induction false} StuckForEver(lib: Library, s: State, moves: seq<Move>)
    requires Inv(lib, s) && Stuck(s) && RunAllowed(lib, s, moves)
    ensures var s' := Run(lib, s, moves);
            && Stuck(s') && !s'.flag && s'.symbols == s.symbols && s'.owner == s.owner
            && forall t :: 0 <= t < |s'.threads| ==> !s'.threads[t].Returned?
    decreases moves
  {
    assert ThreadOk(lib, s, s.owner.value);
    assert !s.flag;
    forall t | 0 <= t < |s.threads|
      ensures !s.threads[t].Returned?
    {
      assert ThreadOk(lib, s, t);
    }
    if moves != [] {
      StepKeepsInv(lib, s, moves[0]);
      StuckForEver(lib, Step(lib, s, moves[0]), moves[1..]);
    }
  }

  lemma {:induction false} RunConcatenates(lib: Library, s: State, a: seq<Move>, b: seq<Move>)
    requires WellFormed(lib, s) && RunAllowed(lib, s, a) && RunAllowed(lib, Run(lib, s, a), b)
    ensures RunAllowed(lib, s, a + b) && Run(lib, s, a + b) == Run(lib, Run(lib, s, a), b)
    decreases a
  {
    hide Step;
    if a == [] {
      assert a + b == b;
    } else {
      RunConcatenates(lib, Step(lib, s, a[0]), a[1..], b);
      assert (a + b)[1..] == a[1..] + b;
    }
  }

  lemma RunNothing(lib: Library, s: State)
    requires WellFormed(lib, s)
    ensures RunAllowed(lib, s, []) && Run(lib, s, []) == s
  {
  }

  lemma RunAppends(lib: Library, s: State, moves: seq<Move>, m: Move)
    requires WellFormed(lib, s) && RunAllowed(lib, s, moves) && Enabled(Run(lib, s, moves), m.thread)
    ensures RunAllowed(lib, s, moves + [m]) && Run(lib, s, moves + [m]) == Step(lib, Run(lib, s, moves), m)
  {
    var s' := Run(lib, s, moves);
    assert RunAllowed(lib, s', [m]) && Run(lib, s', [m]) == Step(lib, s', m);
    RunConcatenates(lib, s, moves, [m]);
  }

  /** Thread `t` at symbol `k`, everybody else where they were in `s`. */
  function Reached(lib: Library, s: State, t: nat, k: nat): State
    requires |s.symbols| == |lib| && t < |s.threads| && k <= |lib|
  {
    s.(owner := Some(t), symbols := lib[..k] + s.symbols[k..], opens := s.opens + 1,
       threads := s.threads[t := Resolve(k)])
  }

  /** A thread that goes on alone gets to symbol `k` if every symbol before it can be resolved. */
  lemma {:induction false} AloneUpTo(lib: Library, s: State, t: nat, k: nat) returns (moves: seq<Move>)
    requires WellFormed(lib, s) && t < |s.threads| && s.threads[t].WantLock? && s.owner.None?
    requires k <= |lib| && (forall j :: 0 <= j < k ==> lib[j].Some?)
    ensures RunAllowed(lib, s, moves) && Run(lib, s, moves) == Reached(lib, s, t, k)
    decreases k
  {
    var m := Move(t, true);
    if k == 0 {
      moves := [];
      assert lib[..0] + s.symbols[0..] == s.symbols;
    } else {
      moves := AloneUpTo(lib, s, t, k - 1);
      assert (lib[..k - 1] + s.symbols[k - 1..])[k - 1 := lib[k - 1]] == lib[..k] + s.symbols[k..];
    }
    RunAppends(lib, s, moves, m);
    RunAppends(lib, s, moves + [m], m);
    moves := moves + [m] + [m];
  }

  /** The first symbol that is missing. */
  function Missing(lib: Library): (k: nat)
    requires !Resolvable(lib)
    ensures k < |lib| && lib[k].None? && forall j :: 0 <= j < k ==> lib[j].Some?
  {
    if lib[0].None? then 0
    else
      assert !Resolvable(lib[1..]) by { var j :| 0 <= j < |lib| && lib[j].None?; assert lib[1..][j - 1].None?; }
      1 + Missing(lib[1..])
  }

  lemma MissingIs(lib: Library, k: nat)
    requires k < |lib| && lib[k].None? && forall j :: 0 <= j < k ==> lib[j].Some?
    ensures !Resolvable(lib) && Missing(lib) == k
  {
  }

  predicate GetsStuck(lib: Library, n: nat, moves: seq<Move>) {
    RunAllowed(lib, Start(lib, n), moves) && Stuck(Run(lib, Start(lib, n), moves))
  }

  lemma GetStuck(lib: Library, n: nat) returns (moves: seq<Move>)
    requires n > 0 && !Resolvable(lib)
    ensures GetsStuck(lib, n, moves)
  {
    var k := Missing(lib);
    var m := Move(0, true);
    var s := Step(lib, Start(lib, n), m);
    var alone := AloneUpTo(lib, s, 0, k);
    RunAppends(lib, s, alone, m);
    RunAppends(lib, s, alone + [m], m);
    moves := [m] + (alone + [m] + [m]);
    assert moves[1..] == alone + [m] + [m];
  }

  /** The mutex can be lost for ever exactly when some symbol of the list is missing from the library. */
  lemma CanGetStuckIffASymbolIsMissing(lib: Library, n: nat)
    requires n > 0
    ensures (exists moves :: GetsStuck(lib, n, moves)) <==> !Resolvable(lib)
  {
    StartKeepsInv(lib, n);
    if !Resolvable(lib) {
      var moves := GetStuck(lib, n);
    } else {
      forall moves | RunAllowed(lib, Start(lib, n), moves)
        ensures !GetsStuck(lib, n, moves)
      {
        RunKeepsInv(lib, Start(lib, n), moves);
        var s := Run(lib, Start(lib, n), moves);
        assert s.owner.Some? ==> ThreadOk(lib, s, s.owner.value);
      }
    }
  }

  // ---------------------------------------------------------------- progress

  /** Steps that a thread has left at most. */
  function Left(lib: Library, pc: Pc): nat {
    match pc
    case ReadFlag => 2 * |lib| + 5
    case WantLock => 2 * |lib| + 4
    case Open => 2 * |lib| + 3
    case OpenFailed => 1
    case Resolve(k) => if k <= |lib| then 2 * (|lib| - k) + 2 else 0
    case Check(k) => if k < |lib| then 2 * (|lib| - k) + 1 else 0
    case Unlock => 1
    case _ => 0
  }

  function LeftAll(lib: Library, threads: seq<Pc>): nat {
    if threads == [] then 0 else Left(lib, threads[0]) + LeftAll(lib, threads[1..])
  }

  lemma {:induction false} LeftAllUpdate(lib: Library, threads: seq<Pc>, t: nat, pc: Pc)
    requires t < |threads|
    ensures LeftAll(lib, threads[t := pc]) + Left(lib, threads[t]) == LeftAll(lib, threads) + Left(lib, pc)
  {
    if t == 0 {
      assert threads[t := pc][1..] == threads[1..];
    } else {
      LeftAllUpdate(lib, threads[1..], t - 1, pc);
      assert threads[t := pc][1..] == threads[1..][t - 1 := pc];
    }
  }

  lemma StepsRunOut(lib: Library, s: State, m: Move)
    requires WellFormed(lib, s) && Enabled(s, m.thread)
    ensures LeftAll(lib, Step(lib, s, m).threads) < LeftAll(lib, s.threads)
  {
    LeftAllUpdate(lib, s.threads, m.thread, Step(lib, s, m).threads[m.thread]);
  }

  /** No run is longer than the threads have steps: nobody spins. */
  lemma {:induction false} RunsAreBounded(lib: Library, s: State, moves: seq<Move>)
    requires WellFormed(lib, s) && RunAllowed(lib, s, moves)
    ensures |moves| <= LeftAll(lib, s.threads)
    decreases moves
  {
    hide Step, LeftAll;
    if moves != [] {
      StepsRunOut(lib, s, moves[0]);
      RunsAreBounded(lib, Step(lib, s, moves[0]), moves[1..]);
    }
  }

  /** While the mutex is not lost, some unfinished thread can move. */
  lemma SomebodyCanMove(lib: Library, s: State, t: nat)
    requires Inv(lib, s) && !Stuck(s) && t < |s.threads| && !Finished(s.threads[t])
    ensures exists u :: 0 <= u < |s.threads| && Enabled(s, u)
  {
    if s.owner.Some? {
      assert Enabled(s, s.owner.value);
    } else {
      assert Enabled(s, t);
    }
  }

  /**
   When every symbol can be resolved, a run that nobody can continue has every thread finished; it has
   returned with every symbol resolved, or thrown because its own dlopen failed.
   */
  lemma EverybodyFinishes(lib: Library, n: nat, moves: seq<Move>)
    requires Resolvable(lib) && RunAllowed(lib, Start(lib, n), moves)
    requires var s := Run(lib, Start(lib, n), moves); forall u :: 0 <= u < |s.threads| ==> !Enabled(s, u)
    ensures var s := Run(lib, Start(lib, n), moves);
            && s.owner.None?
            && forall t :: 0 <= t < |s.threads| ==> s.threads[t].Returned? || s.threads[t].ThrewOpen?
  {
    StartKeepsInv(lib, n);
    RunKeepsInv(lib, Start(lib, n), moves);
    var s := Run(lib, Start(lib, n), moves);
    assert s.owner.Some? ==> ThreadOk(lib, s, s.owner.value);
    forall t | 0 <= t < |s.threads|
      ensures s.threads[t].Returned? || s.threads[t].ThrewOpen?
    {
      assert ThreadOk(lib, s, t);
      if !Finished(s.threads[t]) {
        SomebodyCanMove(lib, s, t);
      }
    }
  }

  // ---------------------------------------------------------------- how often the library is opened

  /** Threads that are past dlopen, or returned. */
  function Past(threads: seq<Pc>): (n: nat)
    ensures n <= |threads|
  {
    if threads == [] then 0
    else
      var pc := threads[0];
      (if pc.Resolve? || pc.Check? || pc.Unlock? || pc.Returned? || pc.ThrewSymbol? then 1 else 0) + Past(threads[1..])
  }

  lemma {:induction false} PastUpdate(threads: seq<Pc>, t: nat, pc: Pc)
    requires t < |threads|
    ensures Past(threads[t := pc]) + Past([threads[t]]) == Past(threads) + Past([pc])
  {
    if t == 0 {
      assert threads[t := pc][1..] == threads[1..];
    } else {
      PastUpdate(threads[1..], t - 1, pc);
      assert threads[t := pc][1..] == threads[1..][t - 1 := pc];
    }
  }

  /** Each thread opens the library at most once. */
  lemma {:induction false} OpensAreBounded(lib: Library, s: State, moves: seq<Move>)
    requires WellFormed(lib, s) && RunAllowed(lib, s, moves) && s.opens <= Past(s.threads)
    ensures Run(lib, s, moves).opens <= Past(Run(lib, s, moves).threads) <= |s.threads|
    decreases moves
  {
    hide Past;
    if moves != [] {
      var s' := Step(lib, s, moves[0]);
      StepCounts(lib, s, moves[0]);
      OpensAreBounded(lib, s', moves[1..]);
    }
  }

  lemma StepCounts(lib: Library, s: State, m: Move)
    requires WellFormed(lib, s) && Enabled(s, m.thread)
    ensures Step(lib, s, m).opens - s.opens <= Past(Step(lib, s, m).threads) - Past(s.threads)
  {
    PastUpdate(s.threads, m.thread, Step(lib, s, m).threads[m.thread]);
  }

  /** One thread after the other, those before `t` done and the others waiting for the lock. */
  function Served(lib: Library, n: nat, t: nat): State {
    State(t > 0, None, if t > 0 then lib else seq(|lib|, _ => None), t,
          seq(n, i => if i < t then Returned else WantLock))
  }

  lemma {:induction false} AllReadFlag(lib: Library, n: nat, t: nat) returns (moves: seq<Move>)
    requires t <= n
    ensures RunAllowed(lib, Start(lib, n), moves)
    ensures Run(lib, Start(lib, n), moves)
            == Start(lib, n).(threads := seq(n, i => if i < t then WantLock else ReadFlag))
    decreases t
  {
    if t == 0 {
      moves := [];
      assert Start(lib, n).threads == seq(n, i => if i < 0 then WantLock else ReadFlag);
    } else {
      moves := AllReadFlag(lib, n, t - 1);
      RunAppends(lib, Start(lib, n), moves, Move(t - 1, true));
      moves := moves + [Move(t - 1, true)];
      assert Run(lib, Start(lib, n), moves).threads == seq(n, i => if i < t then WantLock else ReadFlag);
    }
  }

  lemma ServeOne(lib: Library, n: nat, t: nat) returns (moves: seq<Move>)
    requires t < n && Resolvable(lib)
    ensures WellFormed(lib, Served(lib, n, t)) && RunAllowed(lib, Served(lib, n, t), moves)
    ensures Run(lib, Served(lib, n, t), moves) == Served(lib, n, t + 1)
  {
    var s, m := Served(lib, n, t), Move(t, true);
    var alone := AloneUpTo(lib, s, t, |lib|);
    RunAppends(lib, s, alone, m);
    RunAppends(lib, s, alone + [m], m);
    moves := alone + [m] + [m];
    assert Run(lib, s, moves).symbols == lib;
    assert Run(lib, s, moves).threads == Served(lib, n, t + 1).threads;
  }

  lemma {:induction false} ServeUpTo(lib: Library, n: nat, t: nat) returns (moves: seq<Move>)
    requires t <= n && Resolvable(lib)
    ensures WellFormed(lib, Served(lib, n, 0)) && RunAllowed(lib, Served(lib, n, 0), moves)
    ensures Run(lib, Served(lib, n, 0), moves) == Served(lib, n, t)
    decreases t
  {
    if t == 0 {
      moves := [];
    } else {
      moves := ServeUpTo(lib, n, t - 1);
      var next := ServeOne(lib, n, t - 1);
      RunConcatenates(lib, Served(lib, n, 0), moves, next);
      moves := moves + next;
    }
  }

  /**
   The flag is not read again under the lock, so the library can be opened as often as there are
   threads, and no more often.
   */
  lemma OpensAtMostOncePerThread(lib: Library, n: nat)
    requires Resolvable(lib)
    ensures forall moves :: RunAllowed(lib, Start(lib, n), moves) ==> Run(lib, Start(lib, n), moves).opens <= n
    ensures exists moves :: RunAllowed(lib, Start(lib, n), moves) && Run(lib, Start(lib, n), moves).opens == n
  {
    forall moves | RunAllowed(lib, Start(lib, n), moves)
      ensures Run(lib, Start(lib, n), moves).opens <= n
    {
      OpensAreBounded(lib, Start(lib, n), moves);
    }
    var asked := AllReadFlag(lib, n, n);
    var served := ServeUpTo(lib, n, n);
    assert Run(lib, Start(lib, n), asked) == Served(lib, n, 0) by {
      assert Run(lib, Start(lib, n), asked).threads == Served(lib, n, 0).threads;
    }
    RunConcatenates(lib, Start(lib, n), asked, served);
    assert Run(lib, Start(lib, n), asked + served).opens == n;
  }

  // ---------------------------------------------------------------- the code of one thread

  /** The handle object; `lib` is the library that is there to be opened. */
  class DbHandle {
    const lib: Library
    const symbols: array<Option<nat>>
    var flag: bool
    var owner: Option<nat>
    var opens: nat
    ghost var threads: seq<Pc>

    ghost function Snapshot(): State
      reads this, symbols
    {
      State(flag, owner, symbols[..], opens, threads)
    }

    constructor (lib: Library, ghost n: nat)
      ensures this.lib == lib && fresh(symbols) && Snapshot() == Start(lib, n)
    {
      this.lib := lib;
      symbols := new Option<nat>[|lib|](_ => None);
      flag, owner, opens, threads := false, None, 0, seq(n, _ => ReadFlag);
    }

    /** Assigns the function pointer first, and asks whether that was an error afterwards. */
    method LoadFunc(k: nat, ghost t: nat, ghost s: State, ghost moves: seq<Move>)
        returns (found: bool, ghost more: seq<Move>)
      requires WellFormed(lib, s) && RunAllowed(lib, s, moves) && Run(lib, s, moves) == Snapshot()
      requires t < |threads| && threads[t] == Resolve(k) && k < |lib|
      modifies symbols, this`threads
      ensures found == lib[k].Some? && more == moves + [Move(t, true), Move(t, true)]
      ensures symbols[..] == old(symbols[..])[k := lib[k]]
      ensures threads == old(threads)[t := if found then Resolve(k + 1) else ThrewSymbol(k)]
      ensures RunAllowed(lib, s, more) && Run(lib, s, more) == Snapshot()
    {
      ghost var m := Move(t, true);
      RunAppends(lib, s, moves, m);
      symbols[k] := lib[k];
      threads := threads[t := Check(k)];
      assert Snapshot() == Run(lib, s, moves + [m]);
      RunAppends(lib, s, moves + [m], m);
      found := lib[k].Some?;
      threads := threads[t := if found then Resolve(k + 1) else ThrewSymbol(k)];
      more := moves + [m] + [m];
    }

    /** loadDBFunc: the symbols of the list one after the other, up to the first that is missing. */
    method LoadDBFunc(t: nat, ghost s: State, ghost moves: seq<Move>)
        returns (missing: Option<nat>, ghost more: seq<Move>)
      requires WellFormed(lib, s) && RunAllowed(lib, s, moves) && Run(lib, s, moves) == Snapshot()
      requires t < |threads| && threads[t] == Resolve(0)
      modifies symbols, this`threads
      ensures missing == if Resolvable(lib) then None else Some(Missing(lib))
      ensures threads == old(threads)[t := if missing.None? then Resolve(|lib|) else ThrewSymbol(missing.value)]
      ensures RunAllowed(lib, s, more) && Run(lib, s, more) == Snapshot()
    {
      hide Step;
      more := moves;
      var k := 0;
      while k < |lib|
        invariant k <= |lib| && threads == old(threads)[t := Resolve(k)]
        invariant RunAllowed(lib, s, more) && Run(lib, s, more) == Snapshot()
        invariant forall j :: 0 <= j < k ==> lib[j].Some?
      {
        var found;
        found, more := LoadFunc(k, t, s, more);
        if !found {
          MissingIs(lib, k);
          return Some(k), more;
        }
        k := k + 1;
      }
      missing := None;
    }

    /**
     loadLibrary while nobody else moves and nobody holds the mutex: its steps are a run of the
     protocol.
     */
    method LoadLibrary(t: nat, canOpen: bool) returns (outcome: Pc, ghost moves: seq<Move>)
      requires WellFormed(lib, Snapshot()) && t < |threads| && threads[t] == ReadFlag && owner == None
      modifies this, symbols
      ensures RunAllowed(lib, old(Snapshot()), moves) && Run(lib, old(Snapshot()), moves) == Snapshot()
      ensures threads == old(threads)[t := outcome]
      ensures outcome ==
              if old(flag) || (canOpen && Resolvable(lib)) then Returned
              else if !canOpen then ThrewOpen
              else ThrewSymbol(Missing(lib))
      ensures flag == outcome.Returned? && owner == if outcome.ThrewSymbol? then Some(t) else None
    {
      hide Run, RunAllowed, WellFormed, Resolvable, Missing, Loading;
      ghost var s := Snapshot();
      ghost var m := Move(t, canOpen);
      moves := [];
      RunNothing(lib, s);
      RunAppends(lib, s, moves, m);
      moves := moves + [m];
      if flag {
        threads := threads[t := Returned];
        return Returned, moves;
      }
      threads := threads[t := WantLock];
      RunAppends(lib, s, moves, m);
      moves := moves + [m];
      owner := Some(t);
      threads := threads[t := Open];
      RunAppends(lib, s, moves, m);
      moves := moves + [m];
      if !canOpen {
        threads := threads[t := OpenFailed];
        RunAppends(lib, s, moves, m);
        moves := moves + [m];
        owner := None;
        threads := threads[t := ThrewOpen];
        return ThrewOpen, moves;
      }
      opens := opens + 1;
      threads := threads[t := Resolve(0)];
      var missing;
      missing, moves := LoadDBFunc(t, s, moves);
      if missing.Some? {
        return ThrewSymbol(missing.value), moves;
      }
      RunAppends(lib, s, moves, m);
      moves := moves + [m];
      flag := true;
      threads := threads[t := Unlock];
      RunAppends(lib, s, moves, m);
      moves := moves + [m];
      owner := None;
      threads := threads[t := Returned];
      return Returned, moves;
    }
  }
}
