/** The parameter setters of the two drivers, which count from 1. */
module Parameters {
  import opened NativeServer
  import opened Basics
  import opened Wire
  import M = MysqlSpec
  import O = OracleSpec

  /** The inline setters of the MySQL driver hand `n - 1` on, in unsigned arithmetic. */
  function SlotIndex(n: nat): nat {
    if n == 0 then 0xffff_ffff else n - 1
  }

  /** phSetString takes the length of the text when it is given none. */
  function LengthGiven(setter: O.Setter, value: Pointer, len: int): int {
    match setter
    case SetString => if len == 0 && value.To? then StrLen(value) else len
    case SetLongbyte(n) => n
    case _ => 0
  }

  function MysqlSet(d: M.Driver, setter: O.Setter, n: nat, value: Pointer, len: int): M.Result
    requires |d.slots| == M.SLOTS && n != 33
  {
    M.PhSetParm(d, SlotIndex(n), O.TypeOf(setter), value, LengthGiven(setter, value, len))
  }

  /** The drivers' type for a setter: int, long long, string, binary. */
  function TypeBy(setter: O.Setter): int {
    match setter
    case SetInt => 2
    case SetLonglong => 4
    case SetString => 9
    case SetLongbyte(_) => 10
  }

  /** What a setter of the MySQL driver means by a value. */
  function MeantBy(setter: O.Setter, value: Pointer): string
    requires value.To?
  {
    match setter
    case SetInt => Front(value.text, 4)
    case SetLonglong => Front(value.text, 8)
    case SetString => TextIn(value.text)
    case SetLongbyte(len) => Front(value.text, len)
  }

  /**
   A setter succeeds exactly for a value that is there and a slot from 1 to 32, and sets that slot alone:
   to the value, its type, and, of a binary value that is not empty, to what the setter is given.
   */
  lemma SetterResult(d: M.Driver, setter: O.Setter, n: nat, value: Pointer, len: int)
    requires |d.slots| == M.SLOTS && n != 33
    ensures var r := MysqlSet(d, setter, n, value, len);
            && (r.rc == 0 <==> value.To? && 1 <= n <= 32)
            && (r.rc != 0 ==> r.driver == d)
            && (r.rc == 0 ==>
                  && r.driver.slots[n - 1].data == value && r.driver.slots[n - 1].ty == TypeBy(setter)
                  && (setter.SetString? ==>
                        r.driver.slots[n - 1].len == if len != 0 then len
                                                     else if TextIn(value.text) != "" then |TextIn(value.text)|
                                                     else d.slots[n - 1].len)
                  && (setter != O.SetLongbyte(0) ==>
                        Meant(TypeBy(setter), r.driver.slots[n - 1].len, value) == MeantBy(setter, value))
                  && forall i :: 0 <= i < M.SLOTS && i != n - 1 ==> r.driver.slots[i] == d.slots[i])
  {
  }

  /** The drivers accept the same settings for every number but 33, which MySQL's takes and Oracle's refuses. */
  lemma AcceptedAlikeIff(o: O.Driver, setter: O.Setter, n: nat, value: Pointer)
    requires |o.slots| == O.SLOTS
    ensures (M.Accepts(SlotIndex(n), value) <==> O.PhSet(o, setter, n, value).rc == 0) <==> value.Null? || n != 33
  {
  }

  /** The two drivers accept the same settings, and set the same slot to the same type and value. */
  lemma SettersAgree(m: M.Driver, o: O.Driver, setter: O.Setter, n: nat, value: Pointer, len: int)
    requires |m.slots| == M.SLOTS && |o.slots| == O.SLOTS && n != 33
    requires forall i :: 0 <= i < 32 ==> m.slots[i].data == o.slots[i].data
    ensures var (a, b) := (MysqlSet(m, setter, n, value, len), O.PhSet(o, setter, n, value));
            && a.rc == b.rc
            && (forall i :: 0 <= i < 32 ==> a.driver.slots[i].data == b.driver.slots[i].data)
            && (a.rc == 0 ==> a.driver.slots[n - 1].ty == b.driver.slots[n - 1].ty == TypeBy(setter))
  {
  }
}
