/** C strings in buffers, and a little arithmetic. */
module Basics {
  import opened NativeServer

  const NUL: char := '\0'

  /** A C string holds no terminator among its characters. */
  predicate IsCString(s: string) {
    forall i :: 0 <= i < |s| ==> s[i] != NUL
  }

  /** What strlen sees in a buffer. */
  function TextIn(buffer: seq<char>): string {
    if buffer == [] || buffer[0] == NUL then "" else [buffer[0]] + TextIn(buffer[1..])
  }

  lemma {:induction false} TextInPadded(s: string, buffer: seq<char>)
    requires IsCString(s) && |s| < |buffer|
    requires buffer[..|s|] == s && buffer[|s|] == NUL
    ensures TextIn(buffer) == s
  {
    if s != "" {
      assert buffer[1..][..|s| - 1] == s[1..];
      TextInPadded(s[1..], buffer[1..]);
      assert s == [s[0]] + s[1..];
      assert buffer[0] == s[0];
    }
  }

  lemma {:induction false} TextInWhole(s: string)
    requires IsCString(s)
    ensures TextIn(s) == s
  {
    if s != "" {
      TextInWhole(s[1..]);
    }
  }

  lemma {:induction false} TextInLength(b: seq<char>)
    ensures |TextIn(b)| <= |b| && TextIn(b) == b[..|TextIn(b)|] && IsCString(TextIn(b))
    ensures |TextIn(b)| < |b| ==> b[|TextIn(b)|] == NUL
  {
    if b != [] && b[0] != NUL {
      TextInLength(b[1..]);
    }
  }

  /** The text and what ends it, position by position. */
  lemma TextInAt(b: seq<char>)
    ensures |TextIn(b)| <= |b| && forall i :: 0 <= i < |TextIn(b)| ==> b[i] == TextIn(b)[i] && b[i] != NUL
    ensures |TextIn(b)| < |b| ==> b[|TextIn(b)|] == NUL
  {
    TextInLength(b);
  }

  lemma TextInIs(b: seq<char>, k: nat)
    requires k <= |b| && (forall i :: 0 <= i < k ==> b[i] != NUL) && (k < |b| ==> b[k] == NUL)
    ensures TextIn(b) == b[..k]
  {
    TextInAt(b);
  }

  /** Has a NUL, so that TextIn ends before the array does. */
  predicate Terminated(b: seq<char>) {
    |TextIn(b)| < |b|
  }

  /** strlen of what a pointer points to. */
  function StrLen(p: Pointer): nat
    requires p.To?
  {
    |TextIn(p.text)|
  }

  // ---------------------------------------------------------------- arithmetic

  function Min(a: nat, b: nat): nat { if a < b then a else b }

  function Pow10(n: nat): (p: int)
    ensures p > 0
  {
    if n == 0 then 1 else 10 * Pow10(n - 1)
  }

  lemma {:induction false} Pow10Grows(m: nat, n: nat)
    requires m <= n
    ensures Pow10(m) <= Pow10(n)
  {
    if m < n {
      Pow10Grows(m, n - 1);
    }
  }
}
