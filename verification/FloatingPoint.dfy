/**
 Binary floating point: which real numbers a format has, and how a number is rounded to one of them.
 */
module FloatingPoint {
  import opened NativeServer
  import opened Basics

  /** Significands of so many bits, times powers of two from `low` to `high`. */
  datatype Format = Format(bits: nat, low: int, high: int)

  const SINGLE := Format(24, -149, 104)
  const DOUBLE := Format(53, -1074, 971)

  predicate Sensible(f: Format) {
    f.bits > 0 && f.low <= f.high
  }

  function Pow2(n: nat): (p: int)
    ensures p > 0
  {
    if n == 0 then 1 else 2 * Pow2(n - 1)
  }

  lemma {:induction false} Pow2Grows(m: nat, n: nat)
    requires m <= n
    ensures Pow2(m) <= Pow2(n)
  {
    if m < n {
      Pow2Grows(m, n - 1);
    }
  }

  /** Two to the power of any integer. */
  function Power(e: int): (p: real)
    ensures p > 0.0
    decreases if e < 0 then -e else e
  {
    if e == 0 then 1.0 else if e > 0 then 2.0 * Power(e - 1) else Power(e + 1) / 2.0
  }

  /** `m` times 2 to the `e`. */
  function At(m: int, e: int): real { m as real * Power(e) }

  predicate Represents(f: Format, m: int, e: int, x: real) {
    -Pow2(f.bits) < m < Pow2(f.bits) && f.low <= e <= f.high && x == At(m, e)
  }

  ghost predicate IsNumber(f: Format, x: real) {
    exists m: int, e: int :: Represents(f, m, e, x)
  }

  function Abs(x: real): real { if x < 0.0 then -x else x }

  /** The smallest exponent with which the significand can hold `x`, or the format's smallest. */
  function ExponentOf(f: Format, x: real, e: int): (r: int)
    requires f.low <= e
    ensures f.low <= r <= e
    ensures r == f.low || Abs(x) >= Power(r + f.bits - 1)
    ensures r < e ==> Abs(x) < Power(r + f.bits)
    decreases e - f.low
  {
    if e == f.low || Abs(x) >= Power(e + f.bits - 1) then e else ExponentOf(f, x, e - 1)
  }

  /** The nearest integer, the even one of two. */
  function Nearest(q: real): int {
    var n := q.Floor;
    var rest := q - n as real;
    if rest < 0.5 || (rest == 0.5 && n % 2 == 0) then n else n + 1
  }

  /** Rounding to nearest, ties to even; nothing when the result is too large for the format. */
  function Rounded(f: Format, x: real): Option<real>
    requires Sensible(f)
  {
    var e := ExponentOf(f, x, f.high);
    var m := Nearest(x / Power(e));
    if e == f.high && !(-Pow2(f.bits) < m < Pow2(f.bits)) then None else Some(At(m, e))
  }

  /** The integer next to a number, and of two that are equally near the even one. */
  lemma NearestIff(q: real, n: int)
    ensures Nearest(q) == n <==>
            Abs(q - n as real) < 0.5 || (Abs(q - n as real) == 0.5 && n % 2 == 0)
  {
    var k := q.Floor;
    assert n <= k - 1 ==> n as real <= k as real - 1.0;
    assert n >= k + 2 ==> n as real >= k as real + 2.0;
  }

  /** The two formats of IEEE 754, section 3.6: precision and largest exponent decide the smallest one. */
  lemma FormatsAreStandard()
    ensures SINGLE.bits == 24 && SINGLE.bits + SINGLE.high - 1 == 127 && SINGLE.low == 1 - 127 - 23
    ensures DOUBLE.bits == 53 && DOUBLE.bits + DOUBLE.high - 1 == 1023 && DOUBLE.low == 1 - 1023 - 52
  {
  }

  // ---------------------------------------------------------------- arithmetic

  lemma TimesOrder(a: real, b: real, c: real)
    requires c > 0.0
    ensures a < b <==> a * c < b * c
    ensures a == b <==> a * c == b * c
  {
    assert a < b ==> (b - a) * c > 0.0;
    assert a > b ==> (a - b) * c > 0.0;
  }

  lemma Quotient(x: real, a: real, c: real)
    requires c > 0.0
    ensures x == a * c <==> x / c == a
  {
  }

  lemma AbsTimes(x: real, a: real, c: real)
    requires c > 0.0 && x == a * c
    ensures Abs(x) == Abs(a) * c
  {
    TimesOrder(a, 0.0, c);
  }

  lemma Regroup(a: real, b: real, c: real)
    ensures (a * b) * c == a * (b * c)
  {
  }

  lemma TimesReal(m: int, n: int)
    ensures (m * n) as real == m as real * n as real
  {
  }

  // ---------------------------------------------------------------- powers

  lemma {:induction false} PowerStep(e: int)
    ensures Power(e + 1) == 2.0 * Power(e)
  {
  }

  lemma Pow2Step(n: nat)
    ensures Pow2(n + 1) == 2 * Pow2(n) && Pow2(0) == 1
  {
  }

  lemma {:induction false} PowerShift(e: int, n: nat)
    ensures Power(e + n) == At(Pow2(n), e)
  {
    hide Power, Pow2;
    if n == 0 {
      Pow2Step(0);
    } else {
      PowerShift(e, n - 1);
      PowerStep(e + (n - 1));
      Pow2Step(n - 1);
      Regroup(2.0, Pow2(n - 1) as real, Power(e));
      assert e + (n - 1) + 1 == e + n;
    }
  }

  lemma PowerMonotone(e: int, n: nat)
    ensures Power(e) <= Power(e + n)
  {
    hide Power, Pow2;
    PowerShift(e, n);
    TimesOrder(Pow2(n) as real, 1.0, Power(e));
  }

  /** A multiple of one power of two, counted in a smaller one. */
  lemma AtSmaller(m: int, e: int, r: int)
    requires r <= e
    ensures At(m, e) == At(m * Pow2(e - r), r)
  {
    hide Power, Pow2;
    PowerShift(r, e - r);
    assert r + (e - r) == e;
    TimesReal(m, Pow2(e - r));
    Regroup(m as real, Pow2(e - r) as real, Power(r));
  }

  lemma AtQuotient(x: real, n: int, e: int)
    ensures x == At(n, e) <==> x / Power(e) == n as real
  {
    hide Power;
    Quotient(x, n as real, Power(e));
  }

  lemma AtNegated(n: int, e: int)
    ensures At(-n, e) == -At(n, e)
  {
    hide Power;
    assert (-n) as real == -(n as real);
  }

  // ---------------------------------------------------------------- what is rounded to itself

  lemma AbsBelow(m: int, n: int)
    requires -n < m < n
    ensures Abs(m as real) < n as real
  {
    assert m as real < n as real && -(m as real) < n as real;
  }

  lemma SmallerThan(f: Format, m: int, e: int, x: real)
    requires Represents(f, m, e, x)
    ensures Abs(x) < Power(e + f.bits)
  {
    hide Power, Pow2;
    AbsTimes(x, m as real, Power(e));
    AbsBelow(m, Pow2(f.bits));
    TimesOrder(Abs(m as real), Pow2(f.bits) as real, Power(e));
    PowerShift(e, f.bits);
    assert Power(e + f.bits) == Pow2(f.bits) as real * Power(e);
  }

  /** A number of the format with a smaller exponent than that of `x` is smaller than `x`. */
  lemma Coarser(f: Format, x: real, m: int, e: int, z: real)
    requires Sensible(f) && Represents(f, m, e, z) && e < ExponentOf(f, x, f.high)
    ensures var r := ExponentOf(f, x, f.high); Abs(z) < Power(r + f.bits - 1) <= Abs(x)
  {
    hide Power, Pow2, ExponentOf, Abs, At;
    var r := ExponentOf(f, x, f.high);
    SmallerThan(f, m, e, z);
    PowerMonotone(e + f.bits, r - 1 - e);
    assert e + f.bits + (r - 1 - e) == r + f.bits - 1;
  }

  /** Below the largest exponent, the significand is at most one too large. */
  lemma SignificandFits(f: Format, x: real)
    requires Sensible(f) && ExponentOf(f, x, f.high) < f.high
    ensures var m := Nearest(x / Power(ExponentOf(f, x, f.high))); -Pow2(f.bits) <= m <= Pow2(f.bits)
  {
    hide Power, Pow2, ExponentOf, Nearest, Abs;
    var e := ExponentOf(f, x, f.high);
    var q := x / Power(e);
    PowerShift(e, f.bits);
    Quotient(x, q, Power(e));
    AbsTimes(x, q, Power(e));
    TimesOrder(Abs(q), Pow2(f.bits) as real, Power(e));
    NearestBound(q, Pow2(f.bits));
  }

  lemma NearestBound(q: real, n: int)
    requires Abs(q) < n as real
    ensures -n <= Nearest(q) <= n
  {
  }

  lemma HalfRepresents(f: Format, m: int, e: int)
    requires Sensible(f) && f.low <= e < f.high && (m == Pow2(f.bits) || m == -Pow2(f.bits))
    ensures Represents(f, m / 2, e + 1, At(m, e))
  {
    hide Power, Pow2, At;
    Pow2Step(f.bits - 1);
    assert f.bits - 1 + 1 == f.bits && m == 2 * (m / 2);
    AtSmaller(m / 2, e + 1, e);
    Pow2Step(0);
    assert e + 1 - e == 1;
  }

  /** What rounding gives is a number of the format. */
  lemma RoundedIsNumber(f: Format, x: real)
    requires Sensible(f)
    ensures Rounded(f, x).Some? ==> IsNumber(f, Rounded(f, x).value)
  {
    hide Nearest, ExponentOf, Power, Pow2, At;
    var e := ExponentOf(f, x, f.high);
    var m := Nearest(x / Power(e));
    if Rounded(f, x).Some? {
      if -Pow2(f.bits) < m < Pow2(f.bits) {
        assert Represents(f, m, e, At(m, e));
      } else {
        SignificandFits(f, x);
        HalfRepresents(f, m, e);
      }
    }
  }

  lemma NearestIs(q: real, n: int)
    requires q == n as real
    ensures Nearest(q) == n
  {
  }

  lemma RepresentedIsKept(f: Format, x: real, m: int, e: int)
    requires Sensible(f) && Represents(f, m, e, x)
    ensures Rounded(f, x) == Some(x)
  {
    hide Nearest, ExponentOf, Power, Pow2, At;
    var r := ExponentOf(f, x, f.high);
    if e < r {
      Coarser(f, x, m, e, x);
      assert false;
    } else {
      var n := m * Pow2(e - r);
      AtSmaller(m, e, r);
      AtQuotient(x, n, r);
      NearestIs(x / Power(r), n);
      Pow2Step(0);
      if r == f.high {
        assert e - r == 0;
      }
    }
  }

  /** Rounding leaves exactly the numbers of the format as they are. */
  lemma RoundsExactlyIff(f: Format, x: real)
    requires Sensible(f)
    ensures Rounded(f, x) == Some(x) <==> IsNumber(f, x)
  {
    hide Rounded, Represents;
    RoundedIsNumber(f, x);
    if IsNumber(f, x) {
      var m, e :| Represents(f, m, e, x);
      RepresentedIsKept(f, x, m, e);
    }
  }

  // ---------------------------------------------------------------- rounding is to nearest

  function Distance(x: real, y: real): real {
    Abs(x - y)
  }

  lemma NearestIsNearest(q: real, n: int)
    ensures Distance(q, Nearest(q) as real) <= Distance(q, n as real)
  {
    var down := q.Floor;
    assert n <= down || n >= down + 1;
    assert n as real <= down as real || n as real >= down as real + 1.0;
  }

  lemma Spread(x: real, q: real, m: int, e: int)
    requires x == q * Power(e)
    ensures Distance(x, At(m, e)) == Distance(q, m as real) * Power(e)
  {
    hide Abs, Power;
    var p := Power(e);
    assert x - m as real * p == (q - m as real) * p;
    AbsTimes(x - At(m, e), q - m as real, p);
  }

  /** As close as any multiple of the last bit. */
  lemma CloseToMultiples(x: real, e: int, n: int)
    ensures Distance(x, At(Nearest(x / Power(e)), e)) <= Distance(x, At(n, e))
  {
    hide Nearest, Distance, Power, At;
    var q := x / Power(e);
    var m := Nearest(q);
    Quotient(x, q, Power(e));
    NearestIsNearest(q, n);
    Spread(x, q, m, e);
    Spread(x, q, n, e);
    TimesOrder(Distance(q, n as real), Distance(q, m as real), Power(e));
  }

  /** Between `x` and a number with a smaller exponent there is a multiple of the last bit of `x`. */
  lemma CoarserIsFarther(f: Format, x: real, m: int, e: int, z: real) returns (n: int)
    requires Sensible(f) && Represents(f, m, e, z) && e < ExponentOf(f, x, f.high)
    ensures Distance(x, At(n, ExponentOf(f, x, f.high))) <= Distance(x, z)
  {
    hide Power, Pow2, ExponentOf, Represents, Nearest, At;
    var r := ExponentOf(f, x, f.high);
    Coarser(f, x, m, e, z);
    PowerShift(r, f.bits - 1);
    assert r + (f.bits - 1) == r + f.bits - 1;
    AtNegated(Pow2(f.bits - 1), r);
    n := if x < 0.0 then -Pow2(f.bits - 1) else Pow2(f.bits - 1);
  }

  /** No number of the format is closer to `x` than the one it is rounded to. */
  lemma RoundedIsNearest(f: Format, x: real, z: real)
    requires Sensible(f) && IsNumber(f, z)
    ensures Rounded(f, x).Some? ==> Distance(x, Rounded(f, x).value) <= Distance(x, z)
  {
    hide Power, Pow2, ExponentOf, Nearest, Distance, At;
    var m, e :| Represents(f, m, e, z);
    var r := ExponentOf(f, x, f.high);
    if r <= e {
      AtSmaller(m, e, r);
      CloseToMultiples(x, r, m * Pow2(e - r));
    } else {
      var n := CoarserIsFarther(f, x, m, e, z);
      CloseToMultiples(x, r, n);
    }
  }

  // ---------------------------------------------------------------- which decimal numbers a format has

  lemma AtInjective(m: int, n: int, e: int)
    requires At(m, e) == At(n, e)
    ensures m == n
  {
    hide Power;
    TimesOrder(m as real, n as real, Power(e));
  }

  lemma Grows(n: int, p: int)
    requires p > 0
    ensures n >= 0 ==> n * p >= n
    ensures n <= 0 ==> n * p <= n
  {
    assert n >= 0 ==> n * (p - 1) >= 0;
    assert n <= 0 ==> n * (p - 1) <= 0;
  }

  lemma EvenMultiple(m: int, k: nat)
    requires k > 0
    ensures (m * Pow2(k)) % 2 == 0
  {
    hide Pow2;
    Pow2Step(k - 1);
    var p := Pow2(k - 1);
    assert m * (2 * p) == 2 * (m * p);
  }

  /** An odd number times a power of two takes as many bits as the odd number has. */
  lemma OddIsNumberIff(f: Format, n: int, k: int)
    requires n % 2 == 1
    ensures IsNumber(f, At(n, k)) ==> -Pow2(f.bits) < n < Pow2(f.bits)
    ensures -Pow2(f.bits) < n < Pow2(f.bits) && f.low <= k <= f.high ==> IsNumber(f, At(n, k))
  {
    hide Power, Pow2, At;
    if -Pow2(f.bits) < n < Pow2(f.bits) && f.low <= k <= f.high {
      assert Represents(f, n, k, At(n, k));
    }
    if IsNumber(f, At(n, k)) {
      var m, e :| Represents(f, m, e, At(n, k));
      if e <= k {
        AtSmaller(n, k, e);
        AtInjective(m, n * Pow2(k - e), e);
        Grows(n, Pow2(k - e));
      } else {
        AtSmaller(m, e, k);
        AtInjective(n, m * Pow2(e - k), k);
        EvenMultiple(m, e - k);
        assert false;
      }
    }
  }

  lemma FloatBits()
    ensures Pow2(24) == 16777216
  {
    assert Pow2(8) == 256;
    assert Pow2(16) == 65536;
  }

  lemma {:induction false} Pow2NoFive(n: nat)
    ensures Pow2(n) % 5 != 0
  {
    if n > 0 {
      Pow2NoFive(n - 1);
    }
  }

  lemma Fives(m: int, p: int)
    ensures (m * (10 * p)) % 5 == 0
  {
    var q := m * p;
    assert m * (10 * p) == 10 * q;
    assert (10 * q) % 5 == 0;
  }

  lemma MultipleOfFive(m: int, s: nat)
    requires s > 0
    ensures (m * Pow10(s)) % 5 == 0 && m * Pow10(s) != 1
  {
    var p := Pow10(s - 1);
    Fives(m, p);
  }

  /** No format has a tenth, a hundredth and so on. */
  lemma NoDecimalFraction(f: Format, x: real, s: nat)
    requires s > 0 && x * Pow10(s) as real == 1.0
    ensures !IsNumber(f, x)
  {
    hide Power, Pow2, Pow10;
    if IsNumber(f, x) {
      var m, e :| Represents(f, m, e, x);
      var low := if e < 0 then e else 0;
      AtSmaller(m, e, low);
      var n := m * Pow2(e - low);
      PowerShift(low, -low);
      PowerOfNothing();
      Regrouped(n, Pow10(s), Power(low));
      AtInjective(n * Pow10(s), Pow2(-low), low);
      MultipleOfFive(n, s);
      Pow2NoFive(-low);
      assert false;
    }
  }

  lemma PowerOfNothing()
    ensures Power(0) == 1.0
  {
  }

  lemma Regrouped(n: int, t: int, p: real)
    ensures (n * t) as real * p == (n as real * p) * t as real
  {
    TimesReal(n, t);
    Regroup(n as real, t as real, p);
    Regroup(n as real, p, t as real);
  }

  function Pow5(n: nat): (p: int)
    ensures p > 0
  {
    if n == 0 then 1 else 5 * Pow5(n - 1)
  }

  lemma {:induction false} Pow5IsOdd(n: nat)
    ensures Pow5(n) % 2 == 1
  {
    if n > 0 {
      Pow5IsOdd(n - 1);
      var h := Pow5(n - 1) / 2;
      assert Pow5(n - 1) == 2 * h + 1;
      assert Pow5(n) == 2 * (5 * h + 2) + 1;
    }
  }

  lemma {:induction false} Pow5Grows(m: nat, n: nat)
    requires m <= n
    ensures Pow5(m) <= Pow5(n)
  {
    if m < n {
      Pow5Grows(m, n - 1);
    }
  }

  lemma {:induction false} TensSplit(k: nat)
    ensures Pow10(k) == Pow5(k) * Pow2(k)
  {
    if k > 0 {
      TensSplit(k - 1);
      var a, b := Pow5(k - 1), Pow2(k - 1);
      assert 10 * (a * b) == (5 * a) * (2 * b);
    }
  }

  /** A multiple of a power of ten has the power of two as its exponent. */
  lemma AtTens(n: int, k: nat)
    ensures (n * Pow10(k)) as real == At(n * Pow5(k), k)
  {
    hide Power, Pow2, Pow5, Pow10;
    TensSplit(k);
    assert n * (Pow5(k) * Pow2(k)) == (n * Pow5(k)) * Pow2(k);
    TimesReal(n * Pow5(k), Pow2(k));
    PowerShift(0, k);
    PowerOfNothing();
  }

  lemma OddTimes(a: int, b: int)
    requires a % 2 == 1 && b % 2 == 1
    ensures (a * b) % 2 == 1
  {
    var h, i := a / 2, b / 2;
    assert a == 2 * h + 1 && b == 2 * i + 1;
    assert a * b == 2 * (2 * h * i + h + i) + 1;
  }

  /** All numbers of so many digits, times a power of ten, are in the format exactly when the largest is. */
  lemma TensAreNumbersIff(f: Format, digits: nat, k: nat)
    requires digits > 0 && f.low <= 0
    ensures (Pow10(digits) - 1) * Pow5(k) < Pow2(f.bits) && k <= f.high ==>
              forall n: int :: -Pow10(digits) < n < Pow10(digits) ==> IsNumber(f, (n * Pow10(k)) as real)
    ensures (Pow10(digits) - 1) * Pow5(k) >= Pow2(f.bits) ==> !IsNumber(f, ((Pow10(digits) - 1) * Pow10(k)) as real)
  {
    hide Power, Pow2, Pow5, Pow10, At;
    var top := Pow10(digits) - 1;
    AtTens(top, k);
    assert top % 2 == 1 by { TensAreEven(digits); }
    Pow5IsOdd(k);
    OddTimes(top, Pow5(k));
    OddIsNumberIff(f, top * Pow5(k), k);
    if top * Pow5(k) < Pow2(f.bits) && k <= f.high {
      forall n: int | -Pow10(digits) < n < Pow10(digits)
        ensures IsNumber(f, (n * Pow10(k)) as real)
      {
        AtTens(n, k);
        WithinTop(n, top, Pow5(k));
        assert Represents(f, n * Pow5(k), k, At(n * Pow5(k), k));
      }
    }
  }

  lemma TensAreEven(n: nat)
    requires n > 0
    ensures Pow10(n) % 2 == 0
  {
    assert Pow10(n) == 2 * (5 * Pow10(n - 1));
  }

  lemma WithinTop(n: int, top: int, p: int)
    requires -top <= n <= top && p > 0
    ensures -(top * p) <= n * p <= top * p
  {
    assert (top - n) * p >= 0 && (top + n) * p >= 0;
  }
}
