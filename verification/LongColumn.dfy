/**
 `fetchDefineFld`: a LONG RAW column fetched piece by piece into one buffer, and put together in a
 string that is allocated anew for every piece.
 */
module LongColumn {
  import opened NativeServer
  import opened Basics

  /** What is asked for at every piece, and the bytes of the buffer, an array of 1025 words. */
  const PIECE: nat := 1024
  const BUFFER_BYTES: nat := 4100

  const OCI_NEED_DATA := 99

  // ---------------------------------------------------------------- what is put together

  /** The string, the size of its allocation, and the position after the last answer. */
  datatype Assembled = Assembled(text: string, size: nat, clock: nat)

  /** The library has no more pieces after this one: it was the last, and no more data is announced. */
  predicate IsLast(code: int, rest: string) {
    |rest| < PIECE || (|rest| == PIECE && code != OCI_NEED_DATA)
  }

  /**
   From the next fetch on.  `rest` is what the column still has, `last` the piece fetched before.  A
   fetch that fails ends the loop, but what the buffer holds is appended all the same.
   */
  function Assemble(t: Tape, clock: nat, rest: string, last: string, sofar: string, length: nat): Assembled
    decreases |rest|
  {
    var code, n := t(clock).code, Min(PIECE, |rest|);
    if code < 0 then Assembled(sofar + TextIn(last), length + PIECE, clock + 1)
    else
      var text := sofar + TextIn(rest[..n]);
      if IsLast(code, rest) then Assembled(text, length + n, clock + 1)
      else Assemble(t, clock + 1, rest[n..], rest[..n], text, length + n)
  }

  /** The number of the fetch that fails, if one does. */
  function FailedAt(t: Tape, clock: nat, rest: string): Option<nat>
    decreases |rest|
  {
    if t(clock).code < 0 then Some(0)
    else if IsLast(t(clock).code, rest) then None
    else
      var k := FailedAt(t, clock + 1, rest[PIECE..]);
      if k.None? then None else Some(k.value + 1)
  }

  /** The texts of the pieces, one after the other: each ends at its first NUL. */
  function Texts(rest: string): string {
    if |rest| <= PIECE then TextIn(rest) else TextIn(rest[..PIECE]) + Texts(rest[PIECE..])
  }

  lemma TextsOf(head: string, tail: string)
    requires |head| == PIECE
    ensures Texts(head + tail) == TextIn(head) + Texts(tail)
  {
    if tail == "" {
      assert head + tail == head;
    } else {
      assert (head + tail)[..PIECE] == head && (head + tail)[PIECE..] == tail;
    }
  }

  /** Nothing is lost from a column exactly when it has no NUL. */
  lemma {:induction false} TextsWholeIff(rest: string)
    ensures IsCString(Texts(rest)) && |Texts(rest)| <= |rest|
    ensures Texts(rest) == rest <==> IsCString(rest)
    ensures |Texts(rest)| == |rest| ==> Texts(rest) == rest
  {
    if |rest| <= PIECE {
      TextInWholeIff(rest);
    } else {
      var head, tail := rest[..PIECE], rest[PIECE..];
      TextInWholeIff(head);
      TextsWholeIff(tail);
      assert rest == head + tail;
      assert IsCString(rest) <==> IsCString(head) && IsCString(tail);
    }
  }

  lemma TextInWholeIff(s: string)
    ensures IsCString(TextIn(s)) && |TextIn(s)| <= |s| && (TextIn(s) == s <==> IsCString(s))
    ensures |TextIn(s)| == |s| ==> TextIn(s) == s
  {
    TextInLength(s);
    if IsCString(s) {
      TextInWhole(s);
    }
  }

  /** Unless a fetch fails, the texts of all pieces are returned, in one byte more than the column is long. */
  lemma {:induction false} AssemblesTheColumn(t: Tape, clock: nat, rest: string, last: string, sofar: string,
                                              length: nat)
    requires FailedAt(t, clock, rest).None?
    ensures var a := Assemble(t, clock, rest, last, sofar, length);
            a.text == sofar + Texts(rest) && a.size == length + |rest|
    decreases |rest|
  {
    if IsLast(t(clock).code, rest) {
      assert rest[..Min(PIECE, |rest|)] == rest;
    } else {
      var head, tail := rest[..PIECE], rest[PIECE..];
      AssemblesTheColumn(t, clock + 1, tail, head, sofar + TextIn(head), length + PIECE);
      TextsOf(head, tail);
      assert head + tail == rest;
    }
  }

  /**
   How often the library is asked, if no fetch fails: once per piece of 1024 bytes and once for the rest;
   for an empty rest only if the fetch before it announced more data.
   */
  lemma {:induction false} FetchesTaken(t: Tape, clock: nat, rest: string, last: string, sofar: string, length: nat)
    requires FailedAt(t, clock, rest).None?
    ensures var full := |rest| / 1024;
            var noMore := full > 0 && |rest| % 1024 == 0 && t(clock + full - 1).code != 99;
            Assemble(t, clock, rest, last, sofar, length).clock == clock + full + if noMore then 0 else 1
    decreases |rest|
  {
    if !IsLast(t(clock).code, rest) {
      var head := rest[..PIECE];
      FetchesTaken(t, clock + 1, rest[PIECE..], head, sofar + TextIn(head), length + PIECE);
    }
  }

  /** The text of piece number `k - 1`, which the buffer holds when fetch number `k` fails. */
  function Stale(rest: string, last: string, k: nat): string
    requires k * PIECE <= |rest|
  {
    TextIn(if k == 0 then last else rest[(k - 1) * PIECE..k * PIECE])
  }

  lemma StaleShift(rest: string, last: string, k: nat)
    requires 0 < k && k * PIECE <= |rest|
    ensures Stale(rest, last, k) == Stale(rest[PIECE..], rest[..PIECE], k - 1)
  {
    if k > 1 {
      assert rest[PIECE..][(k - 2) * PIECE..(k - 1) * PIECE] == rest[(k - 1) * PIECE..k * PIECE];
    }
  }

  /** When fetch number `k` is the one that fails, the text of the piece before it is returned twice. */
  lemma {:induction false} FailureRepeatsTheLastPiece(t: Tape, clock: nat, rest: string, last: string, sofar: string,
                                                      length: nat)
    requires FailedAt(t, clock, rest).Some?
    ensures var (k, a) := (FailedAt(t, clock, rest).value, Assemble(t, clock, rest, last, sofar, length));
            && k * PIECE <= |rest|
            && a.text == sofar + Texts(rest[..k * PIECE]) + Stale(rest, last, k) && a.size == length + (k + 1) * PIECE
    decreases |rest|
  {
    hide TextIn;
    EmptyText();
    if t(clock).code < 0 {
      assert rest[..0] == "" && Texts("") == "" && sofar + "" == sofar;
    } else {
      var head, tail := rest[..PIECE], rest[PIECE..];
      FailureRepeatsTheLastPiece(t, clock + 1, tail, head, sofar + TextIn(head), length + PIECE);
      var k := FailedAt(t, clock, rest).value;
      StaleShift(rest, last, k);
      TextsOf(head, tail[..(k - 1) * PIECE]);
      assert head + tail[..(k - 1) * PIECE] == rest[..k * PIECE];
      assert sofar + TextIn(head) + Texts(tail[..(k - 1) * PIECE]) == sofar + Texts(rest[..k * PIECE]);
    }
  }

  /** Fetch number `k` fails, and the piece that it would have got is the one before it once more. */
  predicate RepeatsItself(v: string, k: nat) {
    if k == 0 then v == "" else |v| == (k + 1) * PIECE && v[k * PIECE..] == v[(k - 1) * PIECE..k * PIECE]
  }

  /** What is returned after a failure, against the column: a front of whole pieces and the piece before. */
  lemma RepeatedIff(v: string, p: nat, again: string)
    requires p <= |v| && IsCString(v) && (p == 0 ==> again == "") && (p > 0 ==> PIECE <= p && again == v[p - PIECE..p])
    ensures Texts(v[..p]) + again == v <==> if p == 0 then v == "" else |v| == p + PIECE && v[p..] == v[p - PIECE..p]
    ensures IsCString(Texts(v[..p]) + again)
  {
    hide Texts;
    TextsWholeIff(v[..p]);
    var back := v[p..];
    assert v == v[..p] + back;
    assert v[..p] + again == v <==> again == back by {
      if v[..p] + again == v {
        assert back == (v[..p] + again)[p..] == again;
      }
    }
  }

  lemma TextsHaveNoNul(a: string, b: string)
    ensures IsCString(Texts(a) + TextIn(b))
  {
    hide Texts, TextIn;
    TextsWholeIff(a);
    TextInWholeIff(b);
  }

  /**
   A column is returned as it is exactly when it has no NUL, and no fetch fails or the piece that
   failed to come does not differ from the one before it.
   */
  lemma ColumnIsWholeIff(t: Tape, clock: nat, v: string)
    ensures Assemble(t, clock, v, "", "", 1).text == v <==>
              IsCString(v) && (FailedAt(t, clock, v).Some? ==> RepeatsItself(v, FailedAt(t, clock, v).value))
    ensures IsCString(Assemble(t, clock, v, "", "", 1).text)
  {
    hide Texts, TextIn, Assemble, FailedAt, IsCString;
    TextsWholeIff(v);
    if FailedAt(t, clock, v).None? {
      AssemblesTheColumn(t, clock, v, "", "", 1);
      assert "" + Texts(v) == Texts(v);
    } else {
      FailureRepeatsTheLastPiece(t, clock, v, "", "", 1);
      var k := FailedAt(t, clock, v).value;
      var p := k * PIECE;
      var before := if k == 0 then "" else v[p - PIECE..p];
      assert Stale(v, "", k) == TextIn(before);
      assert "" + Texts(v[..p]) == Texts(v[..p]);
      TextsHaveNoNul(v[..p], before);
      if IsCString(v) {
        PartHasNoNul(v, if k == 0 then 0 else p - PIECE, p);
        TextInWholeIff(before);
        RepeatedIff(v, p, before);
      }
    }
  }

  lemma PartHasNoNul(v: string, i: nat, j: nat)
    requires IsCString(v) && i <= j <= |v|
    ensures IsCString(v[i..j])
  {
  }

  /** A library whose second answer is an error. */
  function FailingSecond(): Tape {
    i => Reply(if i == 1 then -1 else 0, Field("", 0, 0, false))
  }

  /** A column of one piece and one character: when the second piece cannot be had, the first is returned twice. */
  lemma PieceTwice(piece: string)
    requires |piece| == PIECE && IsCString(piece)
    ensures Assemble(FailingSecond(), 0, piece + "!", "", "", 1).text == piece + piece
  {
    hide Texts, TextIn, Assemble;
    var t, v := FailingSecond(), piece + "!";
    assert v[PIECE..] == "!" && v[..PIECE] == piece;
    assert FailedAt(t, 1, v[PIECE..]) == Some(0);
    assert FailedAt(t, 0, v) == Some(1);
    FailureRepeatsTheLastPiece(t, 0, v, "", "", 1);
    TextsWholeIff(piece);
    TextInWholeIff(piece);
    assert v[0..PIECE] == piece;
    assert "" + piece == piece;
  }

  /** Whatever the column holds and whichever fetch fails, the string fits its allocation. */
  lemma {:induction false} AssembledFits(t: Tape, clock: nat, rest: string, last: string, sofar: string, length: nat)
    requires |sofar| < length && |last| <= PIECE
    ensures var a := Assemble(t, clock, rest, last, sofar, length); |a.text| < a.size
    decreases |rest|
  {
    var n := Min(PIECE, |rest|);
    TextInLength(last);
    TextInLength(rest[..n]);
    if t(clock).code >= 0 && !IsLast(t(clock).code, rest) {
      AssembledFits(t, clock + 1, rest[n..], rest[..n], sofar + TextIn(rest[..n]), length + n);
    }
  }

  // ---------------------------------------------------------------- strings in arrays

  /** strcpy */
  method StrCpy(dst: array<char>, src: array<char>)
    requires dst != src && Terminated(src[..]) && |TextIn(src[..])| < dst.Length
    modifies dst
    ensures TextIn(dst[..]) == TextIn(src[..]) && Terminated(dst[..])
  {
    ghost var text := TextIn(src[..]);
    TextInAt(src[..]);
    var i := 0;
    while src[i] != NUL
      invariant 0 <= i <= |text| && dst[..i] == text[..i]
      decreases |text| - i
    {
      dst[i] := src[i];
      i := i + 1;
    }
    dst[i] := NUL;
    assert dst[..i] == text[..i] == text;
    TextInIs(dst[..], i);
  }

  /** strncat */
  method StrNCat(dst: array<char>, src: array<char>, n: nat)
    requires dst != src && n <= src.Length && Terminated(dst[..])
    requires |TextIn(dst[..])| + |TextIn(src[..n])| < dst.Length
    modifies dst
    ensures TextIn(dst[..]) == old(TextIn(dst[..])) + TextIn(src[..n]) && Terminated(dst[..])
  {
    ghost var front, back := TextIn(dst[..]), TextIn(src[..n]);
    TextInAt(dst[..]);
    TextInAt(src[..n]);
    var end := 0;
    while dst[end] != NUL
      invariant 0 <= end <= |front|
      decreases |front| - end
    {
      end := end + 1;
    }
    var i := 0;
    while i < n && src[i] != NUL
      invariant 0 <= i <= |back| && end == |front|
      invariant forall j :: 0 <= j < end + i ==> dst[j] == (front + back)[j]
      decreases |back| - i
    {
      dst[end + i] := src[i];
      i := i + 1;
    }
    dst[end + i] := NUL;
    assert dst[..end + i] == front + back;
    TextInIs(dst[..], end + i);
  }

  // ---------------------------------------------------------------- the loop

  /** The statement, from which the pieces of one column are fetched. */
  class PieceSource {
    const tape: Tape
    var clock: nat
    var rest: string

    constructor (tape: Tape, clock: nat, value: string)
      ensures this.tape == tape && this.clock == clock && rest == value
    {
      this.tape, this.clock, rest := tape, clock, value;
    }

    /**
     Writes the next piece to the buffer and says how long it is, and while there are more pieces that
     more data is needed; writes nothing when it fails.
     */
    method FetchPiece(buf: array<char>, requested: nat) returns (status: int, length: nat)
      requires requested <= buf.Length
      modifies this, buf
      ensures clock == old(clock) + 1
      ensures var (code, n) := (tape(old(clock)).code, Min(requested, |old(rest)|));
              if code < 0 then status == code && length == requested && rest == old(rest) && buf[..] == old(buf[..])
              else
                && length == n && rest == old(rest)[n..] && buf[..n] == old(rest)[..n] && buf[n..] == old(buf[n..])
                && status == if n < |old(rest)| then OCI_NEED_DATA else code
    {
      var code, n := tape(clock).code, Min(requested, |rest|);
      clock := clock + 1;
      if code < 0 {
        return code, requested;
      }
      forall i | 0 <= i < n {
        buf[i] := rest[i];
      }
      status := if n < |rest| then OCI_NEED_DATA else code;
      rest := rest[n..];
      length := n;
    }
  }

  function TextOf(b: array?<char>): string
    reads b
  {
    if b == null then "" else TextIn(b[..])
  }

  /** A longer string in place of the one so far, if there is one: that with the buffer's text behind it. */
  method Grow(rtn: array?<char>, buf: array<char>, alenp: nat) returns (grown: array<char>)
    requires alenp <= PIECE && buf.Length == BUFFER_BYTES && rtn != buf
    requires if rtn == null then forall j :: alenp <= j < BUFFER_BYTES ==> buf[j] == NUL else Terminated(rtn[..])
    ensures fresh(grown) && grown.Length == alenp + if rtn == null then 1 else rtn.Length
    ensures TextIn(grown[..]) == TextOf(rtn) + TextIn(buf[..alenp]) && Terminated(grown[..])
  {
    TextInAt(buf[..alenp]);
    if rtn != null {
      grown := new char[rtn.Length + alenp];
      StrCpy(grown, rtn);
      StrNCat(grown, buf, alenp);
    } else {
      grown := new char[1 + alenp];
      var n := |TextIn(buf[..alenp])|;
      assert buf[..][n] == NUL by { assert n < alenp ==> buf[..alenp][n] == NUL; }
      TextInIs(buf[..], n);
      StrCpy(grown, buf);
    }
  }

  /** `live` are the strings allocated and not deleted. */
  method FetchDefineFld(source: PieceSource) returns (result: array<char>, ghost live: set<array<char>>)
    modifies source
    ensures fresh(result) && live == {result} && Terminated(result[..])
    ensures Assembled(TextIn(result[..]), result.Length, source.clock)
            == Assemble(source.tape, old(source.clock), old(source.rest), "", "", 1)
  {
    hide TextIn;
    var alenp := PIECE;
    var buf := new char[BUFFER_BYTES](_ => NUL);
    var iLength := 1;
    var rtn: array?<char> := null;
    var status := OCI_NEED_DATA;
    ghost var whole := Assemble(source.tape, source.clock, source.rest, "", "", 1);
    ghost var last := "";
    live := {};
    TextInIs(buf[..PIECE], 0);
    EmptyText();
    while status == OCI_NEED_DATA
      invariant alenp == PIECE && buf.Length == BUFFER_BYTES && fresh(buf) && |last| <= PIECE
      invariant TextIn(buf[..PIECE]) == TextIn(last) && forall j :: PIECE <= j < BUFFER_BYTES ==> buf[j] == NUL
      invariant if rtn == null then live == {} && iLength == 1 && (forall j :: 0 <= j < BUFFER_BYTES ==> buf[j] == NUL)
                else live == {rtn} && fresh(rtn) && rtn != buf && Terminated(rtn[..]) && iLength == rtn.Length
      invariant rtn == null ==> status == OCI_NEED_DATA
      invariant whole == if status == OCI_NEED_DATA
                         then Assemble(source.tape, source.clock, source.rest, last, TextOf(rtn), iLength)
                         else Assembled(TextOf(rtn), iLength, source.clock)
      decreases |source.rest| + if status == OCI_NEED_DATA then 1 else 0
    {
      ghost var rest, before := source.rest, buf[..];
      status, alenp := source.FetchPiece(buf, alenp);
      SameBehind(before, buf[..], alenp);
      iLength := iLength + alenp;
      var grown := Grow(rtn, buf, alenp);
      live := live + {grown} - {rtn};
      rtn := grown;
      if alenp < PIECE {
        break;
      }
      if status == 0 {
        break;
      }
      if status >= 0 {
        last := rest[..PIECE];
        assert buf[..PIECE] == last;
      }
    }
    result := rtn;
  }

  lemma SameBehind(a: string, b: string, n: nat)
    requires |a| == |b| && n <= |a| && a[n..] == b[n..]
    ensures forall j :: n <= j < |a| ==> a[j] == b[j]
  {
    forall j | n <= j < |a|
      ensures a[j] == b[j]
    {
      assert a[n..][j - n] == b[n..][j - n];
    }
  }

  lemma EmptyText()
    ensures TextIn("") == ""
  {
  }
}
