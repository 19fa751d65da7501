/**
 The columns of an Oracle result: where `implicitDefine` has the library put each column's values,
 where `output` reads them, and who owns the buffers in between.
 */
module OracleColumns {
  import opened NativeServer
  import opened Basics
  import opened LongColumn
  import opened FloatingPoint

  const MAXITEMS: nat := 150

  const SQLT_NUM := 2
  const SQLT_INT := 3
  const SQLT_FLT := 4
  const SQLT_STR := 5
  const SQLT_VNU := 6
  const SQLT_LNG := 8
  const SQLT_DAT := 12
  const SQLT_BIN := 23
  const SQLT_LBI := 24

  const SIZEOF_NUMBER := 22
  const LONG_LENGTH := 65536

  /** The scale of a number with a binary precision, or none. */
  const NO_SCALE := -127

  /** A column of the result as the server describes it. */
  datatype Column = Column(dbType: int, size: nat, name: string, precision: int, scale: int)

  /** _describe */
  datatype Describe = Describe(dbType: int, dbSize: int, name: string, precision: int, scale: int)

  const BLANK_DESCRIBE := Describe(0, 0, "", 0, 0)

  /** The members of _define that hold a value; a long column is fetched piece by piece instead. */
  datatype Slot = FloatSlot | IntSlot | NumberSlot | BufferSlot | PieceWise

  /** What a column has in one row; the bytes of a raw value are characters here. */
  datatype Value = Whole(n: int) | Double(x: real) | Text(text: string) | Raw(bytes: string)

  /** What the library was told about one column. */
  datatype Bound = Bound(slot: Slot, length: int, sqlType: int)

  /** The buffer of one column and its size; no buffer is number 0. */
  datatype Buffer = Buffer(id: nat, size: int)

  const NO_BUFFER := Buffer(0, 0)

  /** Type and size as implicitDefine keeps them: a number is renamed after what it is fetched into. */
  function DescribeOf(c: Column): Describe {
    Describe(if c.dbType == SQLT_NUM then BoundOf(c).sqlType else c.dbType,
             if c.dbType == SQLT_NUM then 30 else if c.dbType == SQLT_DAT then 20 else c.size,
             c.name, c.precision, c.scale)
  }

  function BoundOf(c: Column): Bound {
    if c.dbType == SQLT_NUM then
      if c.scale != 0 || c.precision == 0 then Bound(FloatSlot, 8, SQLT_FLT)
      else if c.precision < 10 then Bound(IntSlot, 4, SQLT_INT)
      else Bound(NumberSlot, SIZEOF_NUMBER, SQLT_VNU)
    else if c.dbType == SQLT_LNG || c.dbType == SQLT_LBI then Bound(PieceWise, LONG_LENGTH, c.dbType)
    else if c.dbType == SQLT_BIN then Bound(BufferSlot, c.size + 1, SQLT_BIN)
    else Bound(BufferSlot, if c.dbType == SQLT_DAT then 21 else c.size + 1, SQLT_STR)
  }

  /** Where output looks for the value of a column of this type. */
  function SourceOf(dbType: int): Slot {
    if dbType == SQLT_FLT then FloatSlot
    else if dbType == SQLT_INT then IntSlot
    else if dbType == SQLT_VNU then NumberSlot
    else if dbType == SQLT_LBI then PieceWise
    else BufferSlot
  }

  /**
   The types that are read from somewhere else than they were fetched into: LONG, and what the
   describing code does not expect a server to report as it stands, INTEGER, FLOAT and VARNUM.
   */
  const MISREAD := {SQLT_INT, SQLT_FLT, SQLT_VNU, SQLT_LNG}

  lemma ReadsWhatWasBound(c: Column)
    ensures SourceOf(DescribeOf(c).dbType) == BoundOf(c).slot <==> c.dbType !in MISREAD
  {
  }

  /**
   What the library is told, in its own numbers: a number with a scale or without digits is fetched as an
   8-byte FLOAT (4), one of up to 9 digits as a 4-byte INTEGER (3) and any other as a 22-byte VARNUM (6);
   LONG (8) and LONG RAW (24) in pieces of up to 65536 bytes; RAW (23) as it is, and all else as a
   NUL-terminated string (5), each with one byte more than the column has, a date (12) with 21.
   */
  lemma BoundAs(c: Column)
    ensures BoundOf(c) ==
      if c.dbType == 2 && (c.scale != 0 || c.precision == 0) then Bound(FloatSlot, 8, 4)
      else if c.dbType == 2 && c.precision <= 9 then Bound(IntSlot, 4, 3)
      else if c.dbType == 2 then Bound(NumberSlot, 22, 6)
      else if c.dbType == 8 || c.dbType == 24 then Bound(PieceWise, 65536, c.dbType)
      else if c.dbType == 23 then Bound(BufferSlot, c.size + 1, 23)
      else Bound(BufferSlot, if c.dbType == 12 then 21 else c.size + 1, 5)
  {
  }

  /** A column keeps its name; a number gets the type it is fetched as. */
  lemma DescribedAs(c: Column)
    ensures DescribeOf(c).name == c.name && DescribeOf(c).precision == c.precision && DescribeOf(c).scale == c.scale
    ensures DescribeOf(c).dbType == if c.dbType == 2 then BoundOf(c).sqlType else c.dbType
    ensures DescribeOf(c).dbSize == if c.dbType == 2 then 30 else if c.dbType == 12 then 20 else c.size
  {
  }

  // ---------------------------------------------------------------- precision

  /** A whole number fetched into a slot and read back, or nothing when the conversion overflows. */
  function Converted(slot: Slot, v: int): Option<int> {
    match slot
    case IntSlot => if -0x8000_0000 <= v < 0x8000_0000 then Some(v) else None
    case NumberSlot => if -0x8000_0000_0000_0000 <= v < 0x8000_0000_0000_0000 then Some(v) else None
    case _ => None
  }

  /** An int holds the whole numbers of 32 bits, the number slot those of 64; the other slots hold none. */
  lemma ConvertedIff(slot: Slot, v: int)
    ensures Converted(slot, v) ==
              if slot.IntSlot? && -2147483648 <= v <= 2147483647 then Some(v)
              else if slot.NumberSlot? && -9223372036854775808 <= v <= 9223372036854775807 then Some(v)
              else None
  {
  }

  predicate Suffices(slot: Slot, digits: nat) {
    forall v :: -Pow10(digits) < v < Pow10(digits) ==> Converted(slot, v) == Some(v)
  }

  /** Nine digits are what an int holds, eighteen what a long long holds, and not one more. */
  lemma SlotSufficesFor(digits: nat)
    ensures Suffices(IntSlot, digits) <==> digits <= 9
    ensures Suffices(NumberSlot, digits) <==> digits <= 18
  {
    assert Pow10(9) == 1000000000 && Pow10(10) == 10000000000;
    assert Pow10(18) == 1000000000000000000 && Pow10(19) == 10000000000000000000;
    var tooMuch, wayTooMuch := 0x8000_0000, 0x8000_0000_0000_0000;
    if digits <= 9 {
      Pow10Grows(digits, 9);
    } else {
      Pow10Grows(10, digits);
      assert Converted(IntSlot, tooMuch).None?;
    }
    if digits <= 18 {
      Pow10Grows(digits, 18);
    } else {
      Pow10Grows(19, digits);
      assert Converted(NumberSlot, wayTooMuch).None?;
    }
  }

  /** A column of whole numbers is fetched without loss exactly when it has no more than 18 digits. */
  lemma WholeNumbersAreExact(c: Column)
    requires c.dbType == SQLT_NUM && c.scale == 0 && c.precision > 0
    ensures Suffices(BoundOf(c).slot, c.precision) <==> c.precision <= 18
  {
    hide Suffices;
    SlotSufficesFor(c.precision);
  }

  /** A number that goes through the double slot: fetched as a double, and put out as a float. */
  function Narrowed(x: real): Option<real> {
    var d := Rounded(DOUBLE, x);
    if d.None? then None else Rounded(SINGLE, d.value)
  }

  /** On the way through the slot exactly the numbers that a float has stay what they are. */
  lemma NarrowedExactlyIff(x: real)
    ensures Narrowed(x) == Some(x) <==> IsNumber(SINGLE, x)
  {
    hide Rounded;
    if IsNumber(SINGLE, x) {
      SingleIsDouble(x);
      RoundsExactlyIff(DOUBLE, x);
      RoundsExactlyIff(SINGLE, x);
    } else if Rounded(DOUBLE, x).Some? {
      RoundedIsNumber(SINGLE, Rounded(DOUBLE, x).value);
    }
  }

  lemma SingleIsDouble(x: real)
    requires IsNumber(SINGLE, x)
    ensures IsNumber(DOUBLE, x)
  {
    hide Pow2, At;
    var m, e :| Represents(SINGLE, m, e, x);
    Pow2Grows(24, 53);
    assert Represents(DOUBLE, m, e, x);
  }

  // ---------------------------------------------------------------- describing and defining

  /**
   m_describe, m_define and m_itemNum.  `memory` has the values that the slots of each column hold,
   `bound` what the library knows, `nulls` the indicators.
   */
  datatype Area = Area(
    describes: seq<Describe>,
    buffers: seq<Buffer>,
    memory: seq<map<Slot, Value>>,
    bound: seq<Bound>,
    itemNum: int)

  datatype Outcome = Outcome(server: Server, area: Area, rc: int)

  /** initDef */
  function BlankArea(): (a: Area)
    ensures Sized(a)
  {
    Area(seq(MAXITEMS, _ => BLANK_DESCRIBE), seq(MAXITEMS, _ => NO_BUFFER), seq(MAXITEMS, _ => Reset(map[])),
         seq(MAXITEMS, _ => Bound(FloatSlot, 0, 0)), 0)
  }

  predicate Sized(a: Area) {
    |a.describes| == |a.buffers| == |a.memory| == |a.bound| == MAXITEMS
  }

  function Ids(buffers: seq<Buffer>): seq<nat> {
    if buffers == [] then []
    else
      var last := buffers[|buffers| - 1].id;
      Ids(buffers[..|buffers| - 1]) + (if last == 0 then [] else [last])
  }

  /** The slots of a column that is defined anew; the number slot is the one that is not reset. */
  function Reset(m: map<Slot, Value>): map<Slot, Value> {
    (m - {BufferSlot, PieceWise})[FloatSlot := Double(0.0)][IntSlot := Whole(0)]
  }

  /** freeDef: buffers are returned and slots reset. */
  function FreeDef(s: Server, a: Area): Outcome {
    Outcome(ReleaseAll(s, Ids(a.buffers)),
            a.(buffers := seq(|a.buffers|, _ => NO_BUFFER),
               memory := seq(|a.memory|, i requires 0 <= i < |a.memory| => Reset(a.memory[i]))),
            0)
  }

  function Described(a: Area, pos: nat, d: Describe): Area
    requires Sized(a) && pos < MAXITEMS
  {
    a.(describes := a.describes[pos := d])
  }

  /** A column that is fetched into a buffer gets one of its own. */
  function NewBuffer(s: Server, a: Area, pos: nat, c: Column): (r: (Server, Area))
    requires Sized(a) && pos < MAXITEMS
    ensures Sized(r.1)
  {
    if BoundOf(c).slot.BufferSlot?
      then (Acquire(s), a.(buffers := a.buffers[pos := Buffer(NextId(s), BoundOf(c).length)]))
    else (s, a)
  }

  /**
   The loop of implicitDefine from column `pos` on, whose descriptor has been obtained.  A column
   whose size or name cannot be had ends the loop, but is no error.
   */
  function DefineFrom(t: Tape, s: Server, stmt: nat, a: Area, columns: seq<Column>, pos: nat): (o: Outcome)
    requires Sized(a) && pos < |columns| <= MAXITEMS
    ensures Sized(o.area)
    decreases |columns| - pos
  {
    var c := columns[pos];
    var (s1, size) := Ask(t, s, stmt);
    if size != 0 then Outcome(s1, Described(a, pos, BLANK_DESCRIBE.(dbType := c.dbType)).(itemNum := pos), 0)
    else
      var (s2, name) := Ask(t, s1, stmt);
      if name != 0 then
        Outcome(s2, Described(a, pos, BLANK_DESCRIBE.(dbType := c.dbType, dbSize := c.size)).(itemNum := pos), 0)
      else
        var (s3, a3) := NewBuffer(s2, Described(a, pos, DescribeOf(c)), pos, c);
        var (s4, define) := Ask(t, s3, stmt);
        if define != 0 then Outcome(s4, a3, -1)
        else
          var a4 := a3.(bound := a3.bound[pos := BoundOf(c)]);
          var (s5, more) := Ask(t, s4, stmt);
          if more != 0 || pos + 1 == |columns| then Outcome(s5, a4.(itemNum := pos + 1), 0)
          else DefineFrom(t, s5, stmt, a4, columns, pos + 1)
  }

  function NoDescribes(): (d: seq<Describe>)
    ensures |d| == MAXITEMS && forall i :: 0 <= i < |d| ==> d[i] == BLANK_DESCRIBE
  {
    seq(MAXITEMS, _ => BLANK_DESCRIBE)
  }

  function ImplicitDefine(t: Tape, s: Server, stmt: nat, a: Area, columns: seq<Column>): (o: Outcome)
    requires Sized(a) && |columns| <= MAXITEMS
    ensures Sized(o.area)
  {
    var f := FreeDef(s, a.(describes := NoDescribes()));
    var (s1, param) := Ask(t, f.server, stmt);
    if param != 0 || columns == [] then Outcome(s1, f.area, -1) else DefineFrom(t, s1, stmt, f.area, columns, 0)
  }

  /** The first `n` columns are described and bound as they should be, each with a buffer if it needs one. */
  predicate Matches(a: Area, columns: seq<Column>, n: nat)
    requires Sized(a)
  {
    n <= |columns| <= MAXITEMS && forall i :: 0 <= i < n ==>
      && a.describes[i] == DescribeOf(columns[i])
      && a.bound[i] == BoundOf(columns[i])
      && (if a.bound[i].slot.BufferSlot? then a.buffers[i].id != 0 && a.buffers[i].size == a.bound[i].length
          else a.buffers[i] == NO_BUFFER)
  }

  predicate NoBufferFrom(a: Area, n: nat)
    requires Sized(a)
  {
    forall i :: n <= i < MAXITEMS ==> a.buffers[i] == NO_BUFFER
  }

  lemma {:induction false} DefineFromMatches(t: Tape, s: Server, stmt: nat, a: Area, columns: seq<Column>, pos: nat)
    requires Sized(a) && pos < |columns| <= MAXITEMS && Matches(a, columns, pos) && NoBufferFrom(a, pos)
    ensures var o := DefineFrom(t, s, stmt, a, columns, pos);
            o.area.memory == a.memory && (o.rc == 0 || o.rc == -1)
            && (o.rc == 0 ==> pos <= o.area.itemNum <= |columns| && Matches(o.area, columns, o.area.itemNum)
                              && NoBufferFrom(o.area, o.area.itemNum))
    decreases |columns| - pos
  {
    hide Ask, DescribeOf, BoundOf, Numbered, Silent;
    var c := columns[pos];
    var (s2, _) := Ask(t, Ask(t, s, stmt).0, stmt);
    var (s3, a3) := NewBuffer(s2, Described(a, pos, DescribeOf(c)), pos, c);
    var a4 := a3.(bound := a3.bound[pos := BoundOf(c)]);
    var s5 := Ask(t, Ask(t, s3, stmt).0, stmt).0;
    assert Matches(a4, columns, pos + 1) && NoBufferFrom(a4, pos + 1);
    if pos + 1 < |columns| {
      DefineFromMatches(t, s5, stmt, a4, columns, pos + 1);
    }
  }

  /** Whatever was there before, a define that succeeds leaves every column bound as it is described. */
  lemma DefineMatches(t: Tape, s: Server, stmt: nat, a: Area, columns: seq<Column>)
    requires Sized(a) && |columns| <= MAXITEMS
    ensures var o := ImplicitDefine(t, s, stmt, a, columns);
            && (o.rc == 0 ==> 0 <= o.area.itemNum <= |columns| && Matches(o.area, columns, o.area.itemNum))
            && forall i :: 0 <= i < MAXITEMS ==> o.area.memory[i] == Reset(a.memory[i])
  {
    hide DefineFrom, Matches, Reset;
    var f := FreeDef(s, a.(describes := NoDescribes()));
    if columns != [] {
      NothingMatched(f.area, columns);
      DefineFromMatches(t, Ask(t, f.server, stmt).0, stmt, f.area, columns, 0);
    }
  }

  /** The answers that a column takes: size, name, binding, next column, and the number of its buffer. */
  function AnswersOf(c: Column): nat {
    if c.dbType == 2 || c.dbType == 8 || c.dbType == 24 then 4 else 5
  }

  /** Where the answers of column number `m` begin, when those of number `pos` begin at `clock`. */
  function ColumnAt(columns: seq<Column>, pos: nat, clock: nat, m: nat): nat
    requires pos <= m <= |columns|
    decreases m - pos
  {
    if pos == m then clock else ColumnAt(columns, pos + 1, clock + AnswersOf(columns[pos]), m)
  }

  /** The column has a size and a name. */
  predicate Named(t: Tape, at: nat) {
    t(at).code == 0 && t(at + 1).code == 0
  }

  /** It is bound. */
  predicate IsDefined(t: Tape, c: Column, at: nat) {
    t(at + AnswersOf(c) - 2).code == 0
  }

  /** And there is another one. */
  predicate HasNext(t: Tape, c: Column, at: nat) {
    t(at + AnswersOf(c) - 1).code == 0
  }

  /** Every column up to this one is named, bound and followed by another. */
  predicate GoesOnTo(t: Tape, columns: seq<Column>, pos: nat, clock: nat, m: nat)
    requires pos <= m <= |columns|
  {
    forall i {:trigger ColumnAt(columns, pos, clock, i)} :: pos <= i < m ==>
      var at := ColumnAt(columns, pos, clock, i);
      Named(t, at) && IsDefined(t, columns[i], at) && HasNext(t, columns[i], at)
  }

  /**
   How many columns a define counts.  When the columns before number `m` are named, bound and followed by
   another, and number `m` is not, then: without size or name, the columns before it are all; not bound, the
   define fails; and otherwise it is the last.
   */
  lemma {:induction false} DefineCounts(t: Tape, s: Server, stmt: nat, a: Area, columns: seq<Column>, pos: nat, m: nat)
    requires Sized(a) && pos <= m < |columns| <= 150 && GoesOnTo(t, columns, pos, s.clock, m)
    requires var at := ColumnAt(columns, pos, s.clock, m);
             m + 1 == |columns| || !(Named(t, at) && IsDefined(t, columns[m], at) && HasNext(t, columns[m], at))
    ensures var (o, at) := (DefineFrom(t, s, stmt, a, columns, pos), ColumnAt(columns, pos, s.clock, m));
            && o.rc == (if Named(t, at) && !IsDefined(t, columns[m], at) then -1 else 0)
            && (o.rc == 0 ==> o.area.itemNum == if Named(t, at) then m + 1 else m)
            && (!Named(t, at) ==>
                  var size := if t(at).code == 0 then columns[m].size else 0;
                  o.area.describes[m] == Describe(columns[m].dbType, size, "", 0, 0))
    decreases |columns| - pos
  {
    hide DescribeOf, Numbered, Silent, BoundOf, NewBuffer;
    var c := columns[pos];
    var d := Described(a, pos, DescribeOf(c));
    var s2 := Ask(t, Ask(t, s, stmt).0, stmt).0;
    var (s3, a3) := NewBuffer(s2, d, pos, c);
    NewBufferClock(s2, d, pos, c);
    var s4 := Ask(t, s3, stmt).0;
    if pos < m {
      assert ColumnAt(columns, pos, s.clock, pos) == s.clock;
      var a4 := a3.(bound := a3.bound[pos := BoundOf(c)]);
      var s5 := Ask(t, s4, stmt).0;
      assert s5.clock == s.clock + AnswersOf(c);
      forall i {:trigger ColumnAt(columns, pos + 1, s5.clock, i)} | pos + 1 <= i <= m
        ensures ColumnAt(columns, pos + 1, s5.clock, i) == ColumnAt(columns, pos, s.clock, i)
      {
      }
      DefineCounts(t, s5, stmt, a4, columns, pos + 1, m);
    }
  }

  lemma NewBufferClock(s: Server, a: Area, pos: nat, c: Column)
    requires Sized(a) && pos < MAXITEMS
    ensures NewBuffer(s, a, pos, c).0.clock == s.clock + AnswersOf(c) - 4
  {
  }

  lemma NothingMatched(a: Area, columns: seq<Column>)
    requires Sized(a) && |columns| <= MAXITEMS
    ensures Matches(a, columns, 0)
  {
  }

  // ---------------------------------------------------------------- who owns the buffers

  /** Live are the statement, the buffers of the columns, and what others hold. */
  predicate Books(s: Server, stmt: nat, buffers: seq<Buffer>, others: multiset<nat>) {
    !s.misused && s.live == Items(Ids(buffers)) + (multiset{stmt} + others)
  }

  lemma {:induction false} IdsOfNone(buffers: seq<Buffer>)
    requires forall i :: 0 <= i < |buffers| ==> buffers[i].id == 0
    ensures Ids(buffers) == []
  {
    if buffers != [] {
      IdsOfNone(buffers[..|buffers| - 1]);
    }
  }

  function Held(b: Buffer): multiset<nat> {
    if b.id == 0 then multiset{} else multiset{b.id}
  }

  lemma HeldLast(buffers: seq<Buffer>)
    requires buffers != []
    ensures Items(Ids(buffers)) == Items(Ids(buffers[..|buffers| - 1])) + Held(buffers[|buffers| - 1])
  {
    hide Items;
    var ids, last := Ids(buffers[..|buffers| - 1]), buffers[|buffers| - 1];
    if last.id == 0 {
      assert ids + [] == ids;
    } else {
      ItemsAppend(ids, last.id);
    }
  }

  lemma {:induction false} IdsWithOneMore(buffers: seq<Buffer>, pos: nat, b: Buffer)
    requires pos < |buffers| && buffers[pos].id == 0
    ensures Items(Ids(buffers[pos := b])) == Items(Ids(buffers)) + Held(b)
  {
    hide Ids, Items;
    var init, last := buffers[..|buffers| - 1], buffers[|buffers| - 1];
    HeldLast(buffers);
    HeldLast(buffers[pos := b]);
    if pos == |buffers| - 1 {
      assert buffers[pos := b][..pos] == init;
    } else {
      IdsWithOneMore(init, pos, b);
      assert buffers[pos := b][..|buffers| - 1] == init[pos := b];
    }
  }

  lemma FreeDefBooks(s: Server, stmt: nat, a: Area, others: multiset<nat>)
    requires Books(s, stmt, a.buffers, others) && Sized(a)
    ensures var f := FreeDef(s, a);
            Books(f.server, stmt, f.area.buffers, others) && NoBufferFrom(f.area, 0) && Sized(f.area)
    ensures FreeDef(s, a).server.live == multiset{stmt} + others && !FreeDef(s, a).server.misused
  {
    hide Ids;
    var f := FreeDef(s, a);
    var held, rest := Items(Ids(a.buffers)), multiset{stmt} + others;
    ReleaseAllBalanced(s, Ids(a.buffers));
    IdsOfNone(f.area.buffers);
    assert held <= s.live;
    assert f.server.live + held == (held + rest) + multiset{};
    assert forall id :: f.server.live[id] + held[id] == (f.server.live + held)[id] == held[id] + rest[id];
    assert f.server.live == rest;
    assert Items([]) + rest == rest;
  }

  lemma AskBooks(t: Tape, s: Server, stmt: nat, buffers: seq<Buffer>, others: multiset<nat>)
    requires Books(s, stmt, buffers, others)
    ensures Books(Ask(t, s, stmt).0, stmt, buffers, others)
  {
  }

  lemma NewBufferBooks(s: Server, stmt: nat, a: Area, pos: nat, c: Column, others: multiset<nat>)
    requires Sized(a) && pos < MAXITEMS && Books(s, stmt, a.buffers, others) && a.buffers[pos] == NO_BUFFER
    ensures var (s', a') := NewBuffer(s, a, pos, c); Books(s', stmt, a'.buffers, others)
  {
    hide Ids, Items;
    if BoundOf(c).slot.BufferSlot? {
      var b := Buffer(NextId(s), BoundOf(c).length);
      IdsWithOneMore(a.buffers, pos, b);
      var held, rest := Items(Ids(a.buffers)), multiset{stmt} + others;
      assert (held + rest) + multiset{b.id} == (held + multiset{b.id}) + rest;
    }
  }

  lemma {:induction false} DefineFromBooks(t: Tape, s: Server, stmt: nat, a: Area, columns: seq<Column>, pos: nat,
                                              others: multiset<nat>)
    requires Sized(a) && pos < |columns| <= MAXITEMS && NoBufferFrom(a, pos) && Books(s, stmt, a.buffers, others)
    ensures var o := DefineFrom(t, s, stmt, a, columns, pos); Books(o.server, stmt, o.area.buffers, others)
    decreases |columns| - pos
  {
    hide Ask, DescribeOf, BoundOf, Numbered, Silent, Books, NewBuffer;
    var c := columns[pos];
    var s1 := Ask(t, s, stmt).0;
    AskBooks(t, s, stmt, a.buffers, others);
    var s2 := Ask(t, s1, stmt).0;
    AskBooks(t, s1, stmt, a.buffers, others);
    var d := Described(a, pos, DescribeOf(c));
    var (s3, a3) := NewBuffer(s2, d, pos, c);
    NewBufferBooks(s2, stmt, d, pos, c, others);
    NewBufferFits(s2, d, pos, c);
    var s4 := Ask(t, s3, stmt).0;
    AskBooks(t, s3, stmt, a3.buffers, others);
    var a4 := a3.(bound := a3.bound[pos := BoundOf(c)]);
    AskBooks(t, s4, stmt, a4.buffers, others);
    if pos + 1 < |columns| {
      DefineFromBooks(t, Ask(t, s4, stmt).0, stmt, a4, columns, pos + 1, others);
    }
  }

  lemma NewBufferFits(s: Server, a: Area, pos: nat, c: Column)
    requires Sized(a) && pos < MAXITEMS && NoBufferFrom(a, pos)
    ensures var (s', a') := NewBuffer(s, a, pos, c); Sized(a') && NoBufferFrom(a', pos + 1)
  {
  }

  /** Describing anew, whatever becomes of it, returns the old buffers once and owns the new ones. */
  lemma DefineBooks(t: Tape, s: Server, stmt: nat, a: Area, columns: seq<Column>, others: multiset<nat>)
    requires Sized(a) && |columns| <= MAXITEMS && Books(s, stmt, a.buffers, others)
    ensures var o := ImplicitDefine(t, s, stmt, a, columns); Books(o.server, stmt, o.area.buffers, others)
  {
    hide DefineFrom, Ask, FreeDef, Books;
    var b := a.(describes := NoDescribes());
    FreeDefBooks(s, stmt, b, others);
    var f := FreeDef(s, b);
    AskBooks(t, f.server, stmt, f.area.buffers, others);
    if columns != [] {
      DefineFromBooks(t, Ask(t, f.server, stmt).0, stmt, f.area, columns, 0, others);
    }
  }

  /** A cursor that describes one result after another. */
  function DefineEach(t: Tape, s: Server, stmt: nat, a: Area, results: seq<seq<Column>>): (o: Outcome)
    requires Sized(a) && forall i :: 0 <= i < |results| ==> |results[i]| <= MAXITEMS
    ensures Sized(o.area)
    decreases results
  {
    if results == [] then Outcome(s, a, 0)
    else
      var o := ImplicitDefine(t, s, stmt, a, results[0]);
      DefineEach(t, o.server, stmt, o.area, results[1..])
  }

  /** After any number of results, freeDef leaves no buffer live, and none was returned twice. */
  lemma {:induction false} EveryBufferIsReturnedOnce(t: Tape, s: Server, stmt: nat, a: Area, results: seq<seq<Column>>,
                                                        others: multiset<nat>)
    requires Sized(a) && (forall i :: 0 <= i < |results| ==> |results[i]| <= MAXITEMS)
             && Books(s, stmt, a.buffers, others)
    ensures var o := DefineEach(t, s, stmt, a, results);
            var f := FreeDef(o.server, o.area);
            f.server.live == multiset{stmt} + others && !f.server.misused
    decreases results
  {
    hide Books, ImplicitDefine, FreeDef;
    if results == [] {
      FreeDefBooks(s, stmt, a, others);
    } else {
      var o := ImplicitDefine(t, s, stmt, a, results[0]);
      DefineBooks(t, s, stmt, a, results[0], others);
      EveryBufferIsReturnedOnce(t, o.server, stmt, o.area, results[1..], others);
    }
  }

  // ---------------------------------------------------------------- rows

  /** The value of a field, if it is not NULL; nothing where no value is, or none that can be converted. */
  datatype Shown = NullValue | Shown(value: Option<Value>)

  function FieldFor(v: Option<Value>): Shown {
    if v.None? then NullValue else Shown(v)
  }

  /** Precision and scale say which numbers the column has. */
  predicate Declared(c: Column) {
    c.precision > 0 && c.scale != NO_SCALE
  }

  /** How many units of the last digit the number has. */
  function Units(x: real, scale: int): real {
    if scale >= 0 then x * Pow10(scale) as real else x / Pow10(-scale) as real
  }

  predicate InScale(c: Column, x: real)
    requires c.precision > 0
  {
    var u := Units(x, c.scale);
    u == u.Floor as real && -Pow10(c.precision) < u.Floor < Pow10(c.precision)
  }

  /** What a column of this type has in a row; a number has the digits that precision and scale give it. */
  predicate Kind(c: Column, v: Value) {
    if c.dbType == SQLT_NUM && BoundOf(c).slot.FloatSlot? then v.Double? && (Declared(c) ==> InScale(c, v.x))
    else if c.dbType == SQLT_NUM then v.Whole? && (c.precision > 0 ==> -Pow10(c.precision) < v.n < Pow10(c.precision))
    else if c.dbType == SQLT_INT || c.dbType == SQLT_VNU then v.Whole?
    else if c.dbType == SQLT_FLT then v.Double?
    else if c.dbType == SQLT_BIN || c.dbType == SQLT_LBI then v.Raw?
    else v.Text?
  }

  function Cut(s: string, n: int): string {
    if 0 <= n < |s| then s[..n] else s
  }

  /** The library cuts what is longer than the buffer, and ends text with a NUL. */
  function Stored(b: Bound, v: Value): Value {
    if v.Text? && b.sqlType == SQLT_STR then Text(Cut(v.text, b.length - 1))
    else if v.Raw? && b.sqlType == SQLT_BIN then Raw(Cut(v.bytes, b.length))
    else v
  }

  /** The library stores the values of a row where it was told to. */
  function Fetched(a: Area, row: seq<Option<Value>>): (r: Area)
    requires Sized(a) && |row| <= MAXITEMS
    ensures Sized(r)
  {
    a.(memory := seq(MAXITEMS, i requires 0 <= i < MAXITEMS =>
         if i < |row| && row[i].Some? then a.memory[i][a.bound[i].slot := Stored(a.bound[i], row[i].value)]
           else a.memory[i]))
  }

  predicate RowsFit(rows: seq<seq<Option<Value>>>) {
    forall i :: 0 <= i < |rows| ==> |rows[i]| <= MAXITEMS
  }

  /** Row after row. */
  function FetchedAll(a: Area, rows: seq<seq<Option<Value>>>): (r: Area)
    requires Sized(a) && RowsFit(rows)
    ensures Sized(r)
  {
    if rows == [] then a else Fetched(FetchedAll(a, rows[..|rows| - 1]), rows[|rows| - 1])
  }

  function Lookup(m: map<Slot, Value>, slot: Slot): Option<Value> {
    if slot in m then Some(m[slot]) else None
  }

  /**
   What output makes of the content of a slot: text ends at its first NUL, whole numbers are converted,
   others narrowed, and a column that is fetched in pieces is put together by fetchDefineFld.
   */
  function Loaded(t: Tape, clock: nat, slot: Slot, v: Value): (Option<Value>, nat) {
    if v.Whole? && slot != FloatSlot then (if Converted(slot, v.n).None? then None else Some(v), clock)
    else if v.Double? then (var x := Narrowed(v.x); if x.None? then None else Some(Double(x.value)), clock)
    else if v.Text? then (Some(Text(TextIn(v.text))), clock)
    else if v.Raw? && slot.PieceWise? then
      var a := Assemble(t, clock, v.bytes, "", "", 1);
      (Some(Raw(a.text)), a.clock)
    else (Some(v), clock)
  }

  /** What output puts into field `i`, and the position after it; `isNull` is the column's indicator. */
  function OutputField(t: Tape, clock: nat, a: Area, isNull: bool, i: nat): (Shown, nat)
    requires Sized(a) && i < MAXITEMS
  {
    var slot := SourceOf(a.describes[i].dbType);
    if isNull then (NullValue, clock)
    else if slot !in a.memory[i] then (Shown(None), clock)
    else
      var (v, after) := Loaded(t, clock, slot, a.memory[i][slot]);
      (Shown(v), after)
  }

  /** Where output is when it comes to field `i`. */
  function OutputClock(t: Tape, clock: nat, a: Area, nulls: seq<bool>, i: nat): nat
    requires Sized(a) && i <= |nulls| <= MAXITEMS
  {
    if i == 0 then clock else OutputField(t, OutputClock(t, clock, a, nulls, i - 1), a, nulls[i - 1], i - 1).1
  }

  function Nulls(row: seq<Option<Value>>): (n: seq<bool>)
    ensures |n| == |row| && forall i :: 0 <= i < |row| ==> n[i] == row[i].None?
  {
    seq(|row|, i requires 0 <= i < |row| => row[i].None?)
  }

  /** Only the pieces of LONG RAW columns are fetched while the fields are put out. */
  function FetchClock(t: Tape, clock: nat, columns: seq<Column>, row: seq<Option<Value>>, i: nat): nat
    requires i <= |row| <= |columns|
  {
    if i == 0 then clock
    else
      var before := FetchClock(t, clock, columns, row, i - 1);
      if columns[i - 1].dbType == SQLT_LBI && row[i - 1].Some? && row[i - 1].value.Raw?
      then Assemble(t, before, row[i - 1].value.bytes, "", "", 1).clock
      else before
  }

  /**
   When the field shows the value.  `stale` is what the number slot held before.  A LONG never is shown,
   and of INTEGER, FLOAT and VARNUM columns what the slots hold that were not fetched into.  Whole numbers
   have to fit the slot and others a float, texts and raw values the buffer; text must not have a NUL, and
   neither must a LONG RAW, whose fetches must not fail either, unless the piece that fails to come is the
   one before it.
   */
  ghost predicate Readable(t: Tape, clock: nat, c: Column, stale: Option<Value>, v: Value)
    requires Kind(c, v)
  {
    if c.dbType == SQLT_LNG then false
    else if c.dbType == SQLT_INT then v == Whole(0)
    else if c.dbType == SQLT_FLT then v == Double(0.0)
    else if c.dbType == SQLT_VNU then stale == Some(v) && Converted(NumberSlot, v.n).Some?
    else if c.dbType == SQLT_NUM then if v.Double? then IsNumber(SINGLE, v.x) else Converted(BoundOf(c).slot, v.n).Some?
    else if c.dbType == SQLT_BIN then |v.bytes| <= c.size + 1
    else if c.dbType == SQLT_LBI then
      IsCString(v.bytes) && (FailedAt(t, clock, v.bytes).Some?
                             ==> RepeatsItself(v.bytes, FailedAt(t, clock, v.bytes).value))
    else IsCString(v.text) && |v.text| <= if c.dbType == SQLT_DAT then 20 else c.size
  }

  predicate KindsFit(columns: seq<Column>, row: seq<Option<Value>>)
    requires |row| <= |columns|
  {
    forall i :: 0 <= i < |row| && row[i].Some? ==> Kind(columns[i], row[i].value)
  }

  /** The slots hold what a define left there, but for the one that was fetched into. */
  predicate SameBut(m: map<Slot, Value>, m0: map<Slot, Value>, slot: Slot) {
    m - {slot} == m0 - {slot}
  }

  /** One column in isolation: stored as implicitDefine asks, and read as output does. */
  lemma ReadBackIff(t: Tape, clock: nat, c: Column, m0: map<Slot, Value>, m: map<Slot, Value>, v: Value)
    requires Kind(c, v) && SameBut(m, Reset(m0), BoundOf(c).slot)
    ensures var b, slot, held := BoundOf(c), SourceOf(DescribeOf(c).dbType),
            m[BoundOf(c).slot := Stored(BoundOf(c), v)];
            (slot in held && Loaded(t, clock, slot, held[slot]).0 == Some(v))
            <==> Readable(t, clock, c, Lookup(m0, NumberSlot), v)
  {
    hide Assemble, FailedAt, RepeatsItself, TextIn, Narrowed, IsNumber, InScale;
    var slot := SourceOf(DescribeOf(c).dbType);
    if c.dbType in MISREAD {
      ReadsWhatWasBound(c);
      assert slot in m <==> slot in m - {BoundOf(c).slot};
      assert slot in Reset(m0) <==> slot in Reset(m0) - {BoundOf(c).slot};
      assert slot in m ==> m[slot] == (m - {BoundOf(c).slot})[slot] == (Reset(m0) - {BoundOf(c).slot})[slot];
      ZeroIsZero();
    } else if v.Double? {
      NarrowedExactlyIff(v.x);
    } else if c.dbType == SQLT_LBI {
      ColumnIsWholeIff(t, clock, v.bytes);
    } else if v.Text? {
      CutTextIff(v.text, BoundOf(c).length - 1);
    }
  }

  lemma ZeroIsZero()
    ensures Narrowed(0.0) == Some(0.0)
  {
    hide Narrowed;
    assert Represents(SINGLE, 0, 0, 0.0);
    NarrowedExactlyIff(0.0);
  }

  lemma CutTextIff(s: string, n: int)
    requires n >= 0
    ensures TextIn(Cut(s, n)) == s <==> IsCString(s) && |s| <= n
  {
    TextInWholeIff(Cut(s, n));
  }

  /** The position moves with the LONG RAW columns only. */
  lemma {:induction false} ClockFollowsThePieces(t: Tape, clock: nat, a: Area, columns: seq<Column>,
                                                 row: seq<Option<Value>>, i: nat)
    requires Sized(a) && Matches(a, columns, |row|) && i <= |row| <= MAXITEMS && KindsFit(columns, row)
    ensures OutputClock(t, clock, Fetched(a, row), Nulls(row), i) == FetchClock(t, clock, columns, row, i)
  {
    hide Assemble, Narrowed, TextIn, InScale;
    if i > 0 {
      ClockFollowsThePieces(t, clock, a, columns, row, i - 1);
      var c := columns[i - 1];
      assert SourceOf(DescribeOf(c).dbType) == PieceWise <==> c.dbType == SQLT_LBI;
    }
  }

  /** However many rows are fetched, a column's values go to the slot that was bound. */
  lemma {:induction false} OtherSlotsStay(a: Area, rows: seq<seq<Option<Value>>>, i: nat)
    requires Sized(a) && i < MAXITEMS && RowsFit(rows)
    ensures var r := FetchedAll(a, rows);
            && r.(memory := a.memory) == a
            && SameBut(r.memory[i], a.memory[i], a.bound[i].slot)
  {
    hide Stored;
    if rows != [] {
      OtherSlotsStay(a, rows[..|rows| - 1], i);
    }
  }

  lemma StillMatches(a: Area, rows: seq<seq<Option<Value>>>, columns: seq<Column>, n: nat)
    requires Sized(a) && RowsFit(rows) && Matches(a, columns, n)
    ensures Matches(FetchedAll(a, rows), columns, n)
  {
    hide DescribeOf, BoundOf, FetchedAll;
    OtherSlotsStay(a, rows, 0);
  }

  /** What the slots hold when a row has been fetched after others. */
  function RowArea(a: Area, earlier: seq<seq<Option<Value>>>, row: seq<Option<Value>>): (r: Area)
    requires Sized(a) && RowsFit(earlier) && |row| <= MAXITEMS
    ensures Sized(r)
  {
    Fetched(FetchedAll(a, earlier), row)
  }

  /**
   After a define that succeeds, whatever the columns and the rows are, in every row field `i` is NULL
   where the row is, and otherwise shows the row's value exactly when that is readable.
   */
  lemma FieldIsRightIff(t: Tape, s: Server, stmt: nat, a: Area, columns: seq<Column>, earlier: seq<seq<Option<Value>>>,
                        row: seq<Option<Value>>, clock: nat, i: nat)
    requires Sized(a) && |columns| <= MAXITEMS
    requires var o := ImplicitDefine(t, s, stmt, a, columns); o.rc == 0 && i < |row| == o.area.itemNum
    requires |row| <= |columns| && KindsFit(columns, row) && RowsFit(earlier)
    ensures var f := RowArea(ImplicitDefine(t, s, stmt, a, columns).area, earlier, row);
            var now := FetchClock(t, clock, columns, row, i);
            && OutputClock(t, clock, f, Nulls(row), i) == now
            && (OutputField(t, now, f, row[i].None?, i).0 == FieldFor(row[i])
                <==> row[i].None? || Readable(t, now, columns[i], Lookup(a.memory[i], NumberSlot), row[i].value))
  {
    hide ImplicitDefine, OutputClock, FetchClock, Readable, Loaded, Stored, DescribeOf, BoundOf, SourceOf,
      Reset, Kind, SameBut, FetchedAll;
    DefineMatches(t, s, stmt, a, columns);
    var area := ImplicitDefine(t, s, stmt, a, columns).area;
    var before := FetchedAll(area, earlier);
    StillMatches(area, earlier, columns, |row|);
    OtherSlotsStay(area, earlier, i);
    ClockFollowsThePieces(t, clock, before, columns, row, i);
    if row[i].Some? {
      ReadBackIff(t, FetchClock(t, clock, columns, row, i), columns[i], a.memory[i], before.memory[i], row[i].value);
    }
  }

  // ---------------------------------------------------------------- columns

  /** Fits its buffer and has no NUL. */
  predicate Plain(c: Column, v: Value) {
    && (v.Text? ==>
          IsCString(v.text) && (c.dbType != SQLT_LNG ==> |v.text| <= if c.dbType == SQLT_DAT then 20 else c.size))
    && (v.Raw? ==> IsCString(v.bytes) && (c.dbType == SQLT_BIN ==> |v.bytes| <= c.size + 1))
  }

  ghost predicate ShowsEveryRow(t: Tape, a: Area, columns: seq<Column>, i: nat)
    requires Sized(a) && i < a.itemNum <= |columns| <= MAXITEMS
  {
    forall earlier: seq<seq<Option<Value>>>, row: seq<Option<Value>>, clock: nat ::
      RowsFit(earlier) && |row| == a.itemNum && KindsFit(columns, row) && row[i].Some?
        && Plain(columns[i], row[i].value)
      ==> OutputField(t, FetchClock(t, clock, columns, row, i), RowArea(a, earlier, row), false, i).0 == Shown(row[i])
  }

  /**
   The columns that are always shown right.  Of numbers with a scale only those are that count tens,
   hundreds and so on, as long as the largest fits a float.
   */
  predicate Lossless(c: Column) {
    && c.dbType !in MISREAD
    && (c.dbType == SQLT_NUM ==>
          if c.scale == 0 then 0 < c.precision <= 18
          else Declared(c) && c.scale < 0 && (Pow10(c.precision) - 1) * Pow5(-c.scale) < Pow2(SINGLE.bits))
  }

  lemma {:induction false} NothingFails(t: Tape, clock: nat, rest: string)
    requires forall k :: t(k).code >= 0
    ensures FailedAt(t, clock, rest).None?
    decreases |rest|
  {
    if !IsLast(t(clock).code, rest) {
      NothingFails(t, clock + 1, rest[PIECE..]);
    }
  }

  lemma PlainIsReadable(t: Tape, clock: nat, c: Column, stale: Option<Value>, v: Value)
    requires Kind(c, v) && Plain(c, v) && (forall k :: t(k).code >= 0) && Lossless(c)
    ensures Readable(t, clock, c, stale, v)
  {
    hide FailedAt, RepeatsItself, IsNumber, InScale, Pow2;
    if c.dbType == SQLT_LBI {
      NothingFails(t, clock, v.bytes);
    } else if c.dbType == SQLT_NUM {
      if c.scale == 0 {
        WholeNumbersAreExact(c);
      } else {
        TensFitAFloat(c, v.x);
      }
    }
  }

  /** A number that counts tens, hundreds and so on. */
  lemma CountsTens(c: Column, x: real) returns (n: int)
    requires c.precision > 0 && c.scale < 0 && InScale(c, x)
    ensures -Pow10(c.precision) < n < Pow10(c.precision) && x == (n * Pow10(-c.scale)) as real
  {
    hide Pow10;
    n := Units(x, c.scale).Floor;
    var p := Pow10(-c.scale);
    TimesReal(n, p);
    Quotient(x, n as real, p as real);
  }

  lemma TensFitAFloat(c: Column, x: real)
    requires c.dbType == SQLT_NUM && Lossless(c) && c.scale < 0 && InScale(c, x)
    ensures IsNumber(SINGLE, x)
  {
    hide Pow2, Pow10, Pow5, IsNumber, InScale;
    var n := CountsTens(c, x);
    FewTens(c.precision, -c.scale);
    TensAreNumbersIff(SINGLE, c.precision, -c.scale);
    assert IsNumber(SINGLE, (n * Pow10(-c.scale)) as real);
  }

  lemma FewTens(digits: nat, k: nat)
    requires digits > 0 && (Pow10(digits) - 1) * Pow5(k) < Pow2(24)
    ensures k <= 104
  {
    hide Pow2, Pow10, Pow5;
    if k > 104 {
      ElevenTens();
      Pow5Grows(11, k);
      FloatBits();
      Tens(digits);
      Grows(Pow5(k), Pow10(digits) - 1);
      assert false;
    }
  }

  lemma ElevenTens()
    ensures Pow5(11) == 48828125
  {
    assert Pow5(5) == 3125;
  }

  lemma NineteenDigits(n: nat)
    requires n > 18
    ensures 0x8000_0000_0000_0000 < Pow10(n)
  {
    assert Pow10(9) == 1000000000;
    assert Pow10(19) == 10000000000000000000;
    Pow10Grows(19, n);
  }

  /** One more than a float can count to. */
  lemma FloatsDoNotCount()
    ensures !IsNumber(SINGLE, 16777217.0)
  {
    hide IsNumber, Pow2;
    var n := 16777217;
    FloatBits();
    assert At(n, 0) == 16777217.0;
    OddIsNumberIff(SINGLE, n, 0);
  }

  /** A number that a column of numbers with a scale, or without digits, does not show. */
  function LostNumber(c: Column): (x: real)
    requires c.dbType == SQLT_NUM && BoundOf(c).slot.FloatSlot? && !Lossless(c)
    ensures (Declared(c) ==> InScale(c, x)) && !IsNumber(SINGLE, x)
  {
    if !Declared(c) then
      FloatsDoNotCount();
      16777217.0
    else if c.scale > 0 then
      OneUnitIsLost(c);
      1.0 / Pow10(c.scale) as real
    else
      LargestIsLost(c);
      ((Pow10(c.precision) - 1) * Pow10(-c.scale)) as real
  }

  lemma OneUnitIsLost(c: Column)
    requires Declared(c) && c.scale > 0
    ensures var x := 1.0 / Pow10(c.scale) as real; InScale(c, x) && !IsNumber(SINGLE, x)
  {
    hide IsNumber, Pow10;
    var x, p := 1.0 / Pow10(c.scale) as real, Pow10(c.scale) as real;
    Quotient(1.0, x, p);
    NoDecimalFraction(SINGLE, x, c.scale);
    Tens(c.precision);
    assert Units(x, c.scale) == 1.0;
  }

  lemma Tens(n: nat)
    requires n > 0
    ensures Pow10(n) >= 10
  {
  }

  lemma LargestIsLost(c: Column)
    requires c.dbType == SQLT_NUM && Declared(c) && c.scale < 0 && !Lossless(c)
    ensures var x := ((Pow10(c.precision) - 1) * Pow10(-c.scale)) as real; InScale(c, x) && !IsNumber(SINGLE, x)
  {
    hide IsNumber, Pow10, Pow2, Pow5;
    var n, p := Pow10(c.precision) - 1, Pow10(-c.scale);
    TensAreNumbersIff(SINGLE, c.precision, -c.scale);
    TimesReal(n, p);
    Quotient((n * p) as real, n as real, p as real);
    Tens(c.precision);
    assert Units((n * p) as real, c.scale) == n as real;
  }

  /** A value that a column does not show which is not lossless. */
  function Lost(c: Column, stale: Option<Value>): (v: Value)
    requires !Lossless(c)
    ensures Kind(c, v) && Plain(c, v) && forall t, clock :: !Readable(t, clock, c, stale, v)
  {
    if c.dbType == SQLT_LNG then Text("")
    else if c.dbType == SQLT_FLT then Double(1.0)
    else if c.dbType == SQLT_INT then Whole(1)
    else if c.dbType == SQLT_VNU then if stale == Some(Whole(0)) then Whole(1) else Whole(0)
    else if BoundOf(c).slot.FloatSlot? then Double(LostNumber(c))
    else
      assert c.precision > 18 ==> 0x8000_0000_0000_0000 < Pow10(c.precision) by {
        if c.precision > 18 {
          NineteenDigits(c.precision);
        }
      }
      Whole(0x8000_0000_0000_0000)
  }

  /**
   With no fetch that fails, and values that fit their buffers and have no NUL, a column is shown right
   in every row exactly when it is lossless: its type is not misread, and if it is a number, it has no
   scale and 1 to 18 digits, or so few tens, hundreds or so on that the largest fits a float.
   */
  lemma ColumnIsRightIff(t: Tape, s: Server, stmt: nat, a: Area, columns: seq<Column>, i: nat)
    requires Sized(a) && |columns| <= MAXITEMS && (forall k :: t(k).code >= 0)
    requires var o := ImplicitDefine(t, s, stmt, a, columns); o.rc == 0 && i < o.area.itemNum && i < |columns|
    ensures var o := ImplicitDefine(t, s, stmt, a, columns);
            o.area.itemNum <= |columns| && (ShowsEveryRow(t, o.area, columns, i) <==> Lossless(columns[i]))
  {
    hide ImplicitDefine, RowArea, OutputField, OutputClock, FetchClock, Readable, Kind, Plain, Lost, Matches, Lossless;
    DefineMatches(t, s, stmt, a, columns);
    var area, c, stale := ImplicitDefine(t, s, stmt, a, columns).area, columns[i], Lookup(a.memory[i], NumberSlot);
    if Lossless(c) {
      forall earlier: seq<seq<Option<Value>>>, row: seq<Option<Value>>, clock: nat |
        RowsFit(earlier) && |row| == area.itemNum && KindsFit(columns, row) && row[i].Some? && Plain(c, row[i].value)
        ensures OutputField(t, FetchClock(t, clock, columns, row, i), RowArea(area, earlier, row), false, i).0
                == Shown(row[i])
      {
        FieldIsRightIff(t, s, stmt, a, columns, earlier, row, clock, i);
        PlainIsReadable(t, FetchClock(t, clock, columns, row, i), c, stale, row[i].value);
      }
    } else {
      var v := Lost(c, stale);
      var row := seq(area.itemNum, j => if j == i then Some(v) else None);
      FieldIsRightIff(t, s, stmt, a, columns, [], row, 0, i);
      assert OutputField(t, FetchClock(t, 0, columns, row, i), RowArea(area, [], row), false, i).0 != Shown(row[i]);
    }
  }

  /** When the library grants everything, every column is defined. */
  lemma {:induction false} DefinesAll(t: Tape, s: Server, stmt: nat, a: Area, columns: seq<Column>, pos: nat)
    requires Sized(a) && pos < |columns| <= MAXITEMS && forall k :: t(k).code == 0
    ensures var o := DefineFrom(t, s, stmt, a, columns, pos); o.rc == 0 && o.area.itemNum == |columns|
    decreases |columns| - pos
  {
    hide DescribeOf, BoundOf, NewBuffer;
    if pos + 1 < |columns| {
      var (s2, _) := Ask(t, Ask(t, s, stmt).0, stmt);
      var (s3, a3) := NewBuffer(s2, Described(a, pos, DescribeOf(columns[pos])), pos, columns[pos]);
      var s4 := Ask(t, s3, stmt).0;
      var a4 := a3.(bound := a3.bound[pos := BoundOf(columns[pos])]);
      DefinesAll(t, Ask(t, s4, stmt).0, stmt, a4, columns, pos + 1);
    }
  }

  /** A number, a note, a NUMBER without digits, a NUMBER(20), a price and a LONG RAW. */
  function SixColumns(): seq<Column> {
    [Column(SQLT_NUM, 22, "ID", 9, 0), Column(SQLT_LNG, 0, "NOTE", 0, 0), Column(SQLT_NUM, 22, "ANY", 0, 0),
     Column(SQLT_NUM, 22, "BIG", 20, 0), Column(SQLT_NUM, 22, "PRICE", 10, 2), Column(SQLT_LBI, 0, "BLOB", 0, 0)]
  }

  function SixValues(): seq<Option<Value>> {
    [Some(Whole(7)), Some(Text("text")), Some(Double(16777217.0)), Some(Whole(10000000000000000000)),
     Some(Double(0.01)),
     Some(Raw("a\0b"))]
  }

  lemma SixKinds()
    ensures KindsFit(SixColumns(), SixValues())
  {
    assert Pow10(2) == 100 && Pow10(9) == 1000000000;
    assert Pow10(10) == 10000000000;
    assert Pow10(20) == 100000000000000000000;
    assert Units(0.01, 2) == 1.0;
  }

  /** Of the six values only the first is readable. */
  lemma OneIsReadable(t: Tape, clock: nat, i: nat)
    requires i < 6
    ensures KindsFit(SixColumns(), SixValues())
    ensures Readable(t, clock, SixColumns()[i], None, SixValues()[i].value) <==> i == 0
  {
    hide FailedAt, RepeatsItself, IsNumber, Kind, Pow10;
    SixKinds();
    FloatsDoNotCount();
    assert "a\0b"[1] == NUL;
    assert Pow10(2) as real == 100.0 by { Hundred(); }
    NoDecimalFraction(SINGLE, 0.01, 2);
  }

  lemma Hundred()
    ensures Pow10(2) == 100
  {
  }

  /**
   In a result that is defined and fetched without any error, a LONG, 16777217 as a NUMBER, a NUMBER(20)
   of twenty digits, a price of one cent and a LONG RAW with a NUL are not shown; the number in front is.
   */
  lemma FiveFieldsAreLost(t: Tape, s: Server, stmt: nat)
    requires forall k :: t(k).code == 0
    ensures var (row, o) := (SixValues(), ImplicitDefine(t, s, stmt, BlankArea(), SixColumns()));
            && o.rc == 0 && o.area.itemNum == 6
            && forall i :: 0 <= i < 6 ==>
                 (OutputField(t, 0, Fetched(o.area, row), false, i).0 == Shown(row[i]) <==> i == 0)
  {
    hide DefineFrom, Assemble, OutputField, Fetched, Reset, Readable, FetchClock, DescribeOf, BoundOf, Kind;
    var columns, row := SixColumns(), SixValues();
    var f := FreeDef(s, BlankArea().(describes := NoDescribes()));
    DefinesAll(t, Ask(t, f.server, stmt).0, stmt, f.area, columns, 0);
    SixKinds();
    forall i | 0 <= i < 6
      ensures (OutputField(t, 0, Fetched(ImplicitDefine(t, s, stmt, BlankArea(), columns).area, row), false, i).0
               == Shown(row[i])) <==> i == 0
    {
      PiecesComeLast(t, i);
      FieldIsRightIff(t, s, stmt, BlankArea(), columns, [], row, 0, i);
      OneIsReadable(t, 0, i);
      BlankHasNoNumber(i);
    }
  }

  lemma BlankHasNoNumber(i: nat)
    requires i < MAXITEMS
    ensures Lookup(BlankArea().memory[i], NumberSlot) == None
  {
  }

  lemma {:induction false} PiecesComeLast(t: Tape, i: nat)
    requires i < 6
    ensures FetchClock(t, 0, SixColumns(), SixValues(), i) == 0
  {
    hide Assemble;
    if i > 0 {
      PiecesComeLast(t, i - 1);
    }
  }
}
