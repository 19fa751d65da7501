/**
 The journal of writes as a replay of events.  What a call does to the journal is a short trace of
 events, decided by its arguments, the state and the answers; a run replays the traces of its calls.
 */
module Journals {
  import opened NativeServer

  /** What happens to the journal; `Failed` is a write that the server was asked to execute and refused. */
  datatype Event = Wrote(write: Statement) | Failed | CommitAll | RollBackAll

  /** The part of a server that events change. */
  datatype Log = Log(journal: seq<Entry>, failing: bool, commitAfterFailure: bool)

  function LogOf(s: Server): Log {
    Log(s.journal, s.failing, s.commitAfterFailure)
  }

  function Note(l: Log, e: Event): Log {
    match e
    case Wrote(write) => l.(journal := l.journal + [Entry(write, Pending)])
    case Failed => l.(failing := true)
    case CommitAll => l.(journal := Settle(l.journal, Committed), commitAfterFailure := l.commitAfterFailure
                         || l.failing)
    case RollBackAll => l.(journal := Settle(l.journal, RolledBack), failing := false)
  }

  /** The events of the server: OCI executes a statement when it answers 0 or 1, MySQL when it answers 0. */
  lemma ServerNotes(t: Tape, s: Server, stmt: nat)
    ensures var (code, wrote) := (t(s.clock).code, Wrote(StatementOf(s, stmt)));
            && LogOf(ExecuteWrite(t, s, stmt).0) == Note(LogOf(s), if code == 0 then wrote else Failed)
            && LogOf(StmtExecute(t, s, stmt).0) == Note(LogOf(s), if code == 0 || code == 1 then wrote else Failed)
    ensures LogOf(Commit(s)) == Note(LogOf(s), CommitAll)
    ensures LogOf(Rollback(s)) == LogOf(EndSession(s)) == Note(LogOf(s), RollBackAll)
  {
    hide Settle;
  }

  function Replay(l: Log, events: seq<Event>): Log
    decreases events
  {
    if events == [] then l else Replay(Note(l, events[0]), events[1..])
  }

  lemma {:induction false} ReplayConcat(l: Log, a: seq<Event>, b: seq<Event>)
    ensures Replay(l, a + b) == Replay(Replay(l, a), b)
    decreases a
  {
    hide Note;
    if a == [] {
      assert a + b == b;
    } else {
      ReplayConcat(Note(l, a[0]), a[1..], b);
      assert (a + b)[1..] == a[1..] + b;
    }
  }

  /** A call that was to execute `write`, and got as far as asking if `at` is the position of the answer. */
  function WriteTrace(t: Tape, at: Option<nat>, write: Statement, isCommit: bool): seq<Event> {
    if at.None? then []
    else if t(at.value).code != 0 then [Failed, RollBackAll]
    else if isCommit then [Wrote(write), CommitAll]
    else [Wrote(write)]
  }

  lemma ReplayShort(l: Log, e: Event, f: Event)
    ensures Replay(l, []) == l && Replay(l, [e]) == Note(l, e) && Replay(l, [e, f]) == Note(Note(l, e), f)
  {
    hide Note;
    assert [e, f] == [e] + [f];
    ReplayConcat(l, [e], [f]);
  }

  /** A write that is committed at once is committed together with all that was pending. */
  lemma CommittedAtOnce(l: Log, write: Statement)
    ensures var j := Replay(l, [Wrote(write), CommitAll]).journal;
            && |j| == |l.journal| + 1 && Extends(l.journal, j) && NothingPending(j)
            && j[|l.journal|] == Entry(write, Committed)
  {
    ReplayShort(l, Wrote(write), CommitAll);
  }

  lemma WriteTraceReplays(t: Tape, l: Log, at: nat, write: Statement, isCommit: bool)
    ensures Replay(l, WriteTrace(t, Some(at), write, isCommit)) ==
            if t(at).code != 0 then Note(Note(l, Failed), RollBackAll)
            else if isCommit then Note(Note(l, Wrote(write)), CommitAll)
            else Note(l, Wrote(write))
  {
    hide Note;
    ReplayShort(l, Failed, RollBackAll);
    ReplayShort(l, Wrote(write), CommitAll);
  }

  /** Rolling back twice is rolling back once. */
  lemma RollBackTwice(l: Log)
    ensures Note(Note(l, RollBackAll), RollBackAll) == Note(l, RollBackAll)
  {
  }

  // ---------------------------------------------------------------- what becomes of a write

  /** What the next end of a transaction does to a write that is pending before these events. */
  function FateAfter(events: seq<Event>): Fate {
    if events == [] then Pending
    else match events[0]
      case CommitAll => Committed
      case RollBackAll => RolledBack
      case _ => FateAfter(events[1..])
  }

  /** The writes among the events, in order, each with what becomes of it. */
  function WritesOf(events: seq<Event>): seq<Entry> {
    if events == [] then []
    else if events[0].Wrote? then [Entry(events[0].write, FateAfter(events[1..]))] + WritesOf(events[1..])
    else WritesOf(events[1..])
  }

  /**
   The journal in closed form: the writes that were there, those still pending settled by the first
   end of a transaction, and then the writes of the events, each settled by the first end after it.
   */
  lemma {:induction false} ReplayJournal(l: Log, events: seq<Event>)
    ensures Replay(l, events).journal == Settle(l.journal, FateAfter(events)) + WritesOf(events)
    decreases events
  {
    hide Settle;
    if events == [] {
      SettlePending(l.journal);
      assert l.journal + [] == l.journal;
    } else {
      var l', rest := Note(l, events[0]), events[1..];
      ReplayJournal(l', rest);
      match events[0] {
        case Wrote(write) =>
          SettleAppend(l.journal, Entry(write, Pending), FateAfter(rest));
          assert Settle(l.journal, FateAfter(rest)) + [Entry(write, FateAfter(rest))] + WritesOf(rest)
            == Settle(l.journal, FateAfter(rest)) + WritesOf(events);
        case CommitAll => SettledStays(l.journal, Committed, FateAfter(rest));
        case RollBackAll => SettledStays(l.journal, RolledBack, FateAfter(rest));
        case Failed =>
      }
    }
  }

  lemma SettlePending(journal: seq<Entry>)
    ensures Settle(journal, Pending) == journal
  {
  }

  lemma SettleAppend(journal: seq<Entry>, e: Entry, fate: Fate)
    ensures Settle(journal + [e], fate) == Settle(journal, fate) + [if e.fate.Pending? then e.(fate := fate) else e]
  {
    assert (journal + [e])[..|journal|] == journal;
  }

  lemma SettledStays(journal: seq<Entry>, fate: Fate, later: Fate)
    requires !fate.Pending?
    ensures Settle(Settle(journal, fate), later) == Settle(journal, fate)
  {
  }

  function Statements(entries: seq<Entry>): seq<Statement> {
    seq(|entries|, i requires 0 <= i < |entries| => entries[i].write)
  }

  lemma OneStatement(write: Statement, fate: Fate, rest: seq<Entry>)
    ensures Statements([Entry(write, fate)] + rest) == [write] + Statements(rest)
  {
  }

  lemma StatementsOfRun(journal: seq<Entry>, events: seq<Event>)
    ensures Statements(Settle(journal, FateAfter(events)) + WritesOf(events))
            == Statements(journal) + Statements(WritesOf(events))
  {
    hide FateAfter, WritesOf;
  }

  lemma EventThen(e: Event, rest: seq<Event>)
    ensures WritesOf([e] + rest) == (if e.Wrote? then [Entry(e.write, FateAfter(rest))] else []) + WritesOf(rest)
  {
    hide FateAfter;
    assert ([e] + rest)[1..] == rest;
  }

  lemma WriteTraceThen(t: Tape, at: nat, write: Statement, isCommit: bool, rest: seq<Event>)
    ensures Statements(WritesOf(WriteTrace(t, Some(at), write, isCommit) + rest)) ==
              (if t(at).code == 0 then [write] else []) + Statements(WritesOf(rest))
  {
    hide WritesOf, FateAfter;
    EventThen(Failed, [RollBackAll] + rest);
    EventThen(RollBackAll, rest);
    EventThen(Wrote(write), rest);
    EventThen(Wrote(write), [CommitAll] + rest);
    EventThen(CommitAll, rest);
    assert [Failed, RollBackAll] + rest == [Failed] + ([RollBackAll] + rest);
    assert [Wrote(write), CommitAll] + rest == [Wrote(write)] + ([CommitAll] + rest);
  }

  // ---------------------------------------------------------------- commits over a failure

  /** No write has failed without a rollback, and none was ever followed by a commit before that rollback. */
  predicate Clean(s: Server) {
    !s.failing && !s.commitAfterFailure
  }

  /** Whether a commit follows a failure with no rollback in between. */
  predicate CommitsOver(failing: bool, events: seq<Event>)
    decreases events
  {
    events != []
    && match events[0]
       case CommitAll => failing || CommitsOver(failing, events[1..])
       case RollBackAll => CommitsOver(false, events[1..])
       case Failed => CommitsOver(true, events[1..])
       case Wrote(_) => CommitsOver(failing, events[1..])
  }

  lemma {:induction false} ReplayCommitsOver(l: Log, events: seq<Event>)
    ensures Replay(l, events).commitAfterFailure <==> l.commitAfterFailure || CommitsOver(l.failing, events)
    decreases events
  {
    hide Settle;
    if events != [] {
      ReplayCommitsOver(Note(l, events[0]), events[1..]);
    }
  }
}
