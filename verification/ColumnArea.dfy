/** `db_cursor`'s describing, defining and output: the arrays, proved against OracleColumns.dfy. */
module ColumnAreas {
  import opened NativeServer
  import opened NativeLibrary
  import opened OracleColumns
  import opened Basics
  import opened LongColumn

  /** One more column freed is one more buffer returned, or none. */
  lemma IdsStep(s: Server, buffers: seq<Buffer>, n: nat)
    requires n < |buffers|
    ensures ReleaseAll(s, Ids(buffers[..n + 1])) ==
            if buffers[n].id == 0 then ReleaseAll(s, Ids(buffers[..n]))
              else Release(ReleaseAll(s, Ids(buffers[..n])), buffers[n].id)
  {
    hide ReleaseAll, Release;
    assert buffers[..n + 1][..n] == buffers[..n];
    var ids := Ids(buffers[..n]);
    if buffers[n].id == 0 {
      assert ids + [] == ids;
    } else {
      ReleaseOneMore(s, ids, buffers[n].id);
    }
  }

  class ColumnArea {
    const describes: array<Describe>
    const buffers: array<Buffer>
    const memory: array<map<Slot, Value>>
    const bound: array<Bound>
    var itemNum: int

    ghost predicate Valid() {
      describes.Length == buffers.Length == memory.Length == bound.Length == MAXITEMS
    }

    ghost function State(): (a: Area)
      requires Valid()
      reads this, describes, buffers, memory, bound
      ensures Sized(a)
    {
      Area(describes[..], buffers[..], memory[..], bound[..], itemNum)
    }

    /** initDef */
    constructor ()
      ensures Valid() && fresh(describes) && fresh(buffers) && fresh(memory) && fresh(bound)
      ensures State() == BlankArea()
    {
      describes := new Describe[MAXITEMS](_ => BLANK_DESCRIBE);
      buffers := new Buffer[MAXITEMS](_ => NO_BUFFER);
      memory := new map<Slot, Value>[MAXITEMS](_ => Reset(map[]));
      bound := new Bound[MAXITEMS](_ => Bound(FloatSlot, 0, 0));
      itemNum := 0;
      new;
      assert State().buffers == BlankArea().buffers;
    }

    method FreeDef(lib: Library)
      requires Valid()
      modifies lib, buffers, memory
      ensures Outcome(lib.server, State(), 0) == OracleColumns.FreeDef(old(lib.server), old(State()))
    {
      hide ReleaseAll, Ids, Release, Numbered, Silent;
      ghost var a := State();
      NoneFreed(lib.server, a.buffers);
      var n := 0;
      while n < MAXITEMS
        invariant 0 <= n <= MAXITEMS
        invariant lib.server == ReleaseAll(old(lib.server), Ids(a.buffers[..n]))
        invariant forall i :: 0 <= i < n ==> buffers[i] == NO_BUFFER && memory[i] == Reset(a.memory[i])
        invariant forall i :: n <= i < MAXITEMS ==> buffers[i] == a.buffers[i] && memory[i] == a.memory[i]
      {
        IdsStep(old(lib.server), a.buffers, n);
        memory[n] := Reset(memory[n]);
        if buffers[n].id != 0 {
          lib.Release(buffers[n].id);
        }
        buffers[n] := NO_BUFFER;
        n := n + 1;
      }
      assert a.buffers[..n] == a.buffers;
      assert State() == OracleColumns.FreeDef(old(lib.server), a).area;
    }

    static lemma NoneFreed(s: Server, buffers: seq<Buffer>)
      ensures ReleaseAll(s, Ids(buffers[..0])) == s
    {
    }

    /** The switch over the type, with the buffer that some types need. */
    method BufferFor(lib: Library, pos: nat, c: Column)
      requires Valid() && pos < MAXITEMS
      modifies lib, buffers
      ensures (lib.server, State()) == NewBuffer(old(lib.server), old(State()), pos, c)
    {
      if BoundOf(c).slot.BufferSlot? {
        var id := lib.Malloc();
        buffers[pos] := Buffer(id, BoundOf(c).length);
      }
    }

    method ImplicitDefine(lib: Library, stmt: nat, columns: seq<Column>) returns (rc: int)
      requires Valid() && |columns| <= MAXITEMS
      modifies this, lib, describes, buffers, memory, bound
      ensures Outcome(lib.server, State(), rc)
              == OracleColumns.ImplicitDefine(lib.tape, old(lib.server), stmt, old(State()), columns)
    {
      hide OracleColumns.FreeDef, NewBuffer, DescribeOf, BoundOf, Ask, Numbered, Silent;
      ghost var s, a := lib.server, State();
      forall i | 0 <= i < MAXITEMS {
        describes[i] := BLANK_DESCRIBE;
      }
      assert describes[..] == NoDescribes();
      assert State() == a.(describes := NoDescribes());
      FreeDef(lib);
      ghost var freed := State();
      assert Outcome(lib.server, freed, 0) == OracleColumns.FreeDef(s, a.(describes := NoDescribes()));
      var param := lib.Ask(stmt);
      if param != 0 || columns == [] {
        return -1;
      }
      ghost var s1 := lib.server;
      var pos := 0;
      while true
        invariant 0 <= pos < |columns|
        invariant DefineFrom(lib.tape, lib.server, stmt, State(), columns, pos)
                  == DefineFrom(lib.tape, s1, stmt, freed, columns, 0)
        decreases |columns| - pos
      {
        var more: bool;
        rc, more := DefineOne(lib, stmt, columns, pos);
        if !more {
          return rc;
        }
        pos := pos + 1;
      }
    }

    /** One round of the loop; `more` if it goes on with the next column. */
    method DefineOne(lib: Library, stmt: nat, columns: seq<Column>, pos: nat) returns (rc: int, more: bool)
      requires Valid() && pos < |columns| <= MAXITEMS
      modifies this, lib, describes, buffers, bound
      ensures more ==> pos + 1 < |columns|
      ensures DefineFrom(lib.tape, old(lib.server), stmt, old(State()), columns, pos) ==
              if more then DefineFrom(lib.tape, lib.server, stmt, State(), columns, pos + 1)
              else Outcome(lib.server, State(), rc)
    {
      hide NewBuffer, DescribeOf, BoundOf, Ask, Numbered, Silent;
      ghost var a := State();
      var c := columns[pos];
      describes[pos] := BLANK_DESCRIBE.(dbType := c.dbType);
      var code := lib.Ask(stmt);
      if code != 0 {
        itemNum := pos;
        return 0, false;
      }
      describes[pos] := describes[pos].(dbSize := c.size);
      code := lib.Ask(stmt);
      if code != 0 {
        itemNum := pos;
        return 0, false;
      }
      describes[pos] := DescribeOf(c);
      assert State() == Described(a, pos, DescribeOf(c));
      BufferFor(lib, pos, c);
      code := lib.Ask(stmt);
      if code != 0 {
        return -1, false;
      }
      bound[pos] := BoundOf(c);
      code := lib.Ask(stmt);
      if code != 0 || pos + 1 == |columns| {
        itemNum := pos + 1;
        return 0, false;
      }
      return 0, true;
    }

    /** What the library does when it fetches a row. */
    method FetchRow(row: seq<Option<Value>>)
      requires Valid() && |row| <= MAXITEMS
      modifies memory
      ensures State() == Fetched(old(State()), row)
    {
      forall i | 0 <= i < |row| && row[i].Some? {
        memory[i] := memory[i][bound[i].slot := Stored(bound[i], row[i].value)];
      }
      assert State().memory == Fetched(old(State()), row).memory;
    }

    /** The branch of one column that is not NULL. */
    method OutputOne(tape: Tape, clock: nat, n: nat) returns (field: Shown, after: nat)
      requires Valid() && n < MAXITEMS
      ensures (field, after) == OutputField(tape, clock, State(), false, n)
    {
      var slot := SourceOf(describes[n].dbType);
      after := clock;
      if slot !in memory[n] {
        return Shown(None), after;
      }
      match memory[n][slot]
      case Whole(v) =>
        field := Shown(if slot != FloatSlot && Converted(slot, v).None? then None else Some(Whole(v)));
      case Double(x) =>
        var y := Narrowed(x);
        field := Shown(if y.None? then None else Some(Double(y.value)));
      case Text(text) =>
        field := Shown(Some(Text(TextIn(text))));
      case Raw(bytes) =>
        if slot.PieceWise? {
          var source := new PieceSource(tape, clock, bytes);
          var longColumn, _ := FetchDefineFld(source);
          field, after := Shown(Some(Raw(TextIn(longColumn[..])))), source.clock;
        } else {
          field := Shown(Some(Raw(bytes)));
        }
    }

    /** 1 when there is nothing that could be shown. */
    method Output(tape: Tape, clock: nat, nulls: seq<bool>) returns (rc: int, fields: seq<Shown>, after: nat)
      requires Valid() && itemNum <= |nulls| <= MAXITEMS
      ensures rc == if 0 < itemNum <= MAXITEMS then 0 else 1
      ensures rc == 0 ==> |fields| == itemNum && after == OutputClock(tape, clock, State(), nulls, itemNum)
      ensures rc == 0 ==> forall i :: 0 <= i < itemNum ==>
        fields[i] == OutputField(tape, OutputClock(tape, clock, State(), nulls, i), State(), nulls[i], i).0
      ensures rc == 1 ==> fields == [] && after == clock
    {
      hide OutputField, OutputClock;
      ghost var a := State();
      OutputStarts(tape, clock, a, nulls);
      fields, after := [], clock;
      if itemNum <= 0 || itemNum > MAXITEMS {
        return 1, fields, after;
      }
      var n := 0;
      while n < itemNum
        invariant 0 <= n <= itemNum && |fields| == n && after == OutputClock(tape, clock, a, nulls, n)
        invariant forall i :: 0 <= i < n ==>
                    fields[i] == OutputField(tape, OutputClock(tape, clock, a, nulls, i), a, nulls[i], i).0
      {
        OutputSteps(tape, clock, a, nulls, n);
        var field := NullValue;
        if nulls[n] {
          NullIsNull(tape, after, a, n);
        } else {
          field, after := OutputOne(tape, after, n);
        }
        fields := fields + [field];
        n := n + 1;
      }
      rc := 0;
    }

    static lemma OutputStarts(tape: Tape, clock: nat, a: Area, nulls: seq<bool>)
      requires Sized(a) && |nulls| <= MAXITEMS
      ensures OutputClock(tape, clock, a, nulls, 0) == clock
    {
    }

    static lemma OutputSteps(tape: Tape, clock: nat, a: Area, nulls: seq<bool>, n: nat)
      requires Sized(a) && n < |nulls| <= MAXITEMS
      ensures OutputClock(tape, clock, a, nulls, n + 1)
              == OutputField(tape, OutputClock(tape, clock, a, nulls, n), a, nulls[n], n).1
    {
    }

    static lemma NullIsNull(tape: Tape, clock: nat, a: Area, n: nat)
      requires Sized(a) && n < MAXITEMS
      ensures OutputField(tape, clock, a, true, n) == (NullValue, clock)
    {
    }
  }
}
