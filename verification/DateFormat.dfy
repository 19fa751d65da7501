/**
 `date_format`: a time of the MySQL library as text, in four formats.  Three of them put the text in
 the order of the times; all of them can be undone by reading digits at fixed places.
 */
module DateFormat {
  import opened NativeServer
  import opened Basics

  datatype Format = DefaultDate | ChineseDate | ChineseDatetime | OtherDate

  /** MYSQL_TIME, without the fields that are not printed. */
  datatype Time = Time(year: nat, month: nat, day: nat, hour: nat, minute: nat, second: nat)

  /** What mysql_time.h says of the values that the library returns. */
  predicate Normalised(t: Time) {
    t.year <= 9999 && t.month <= 12 && t.day <= 31 && t.hour <= 23 && t.minute <= 59 && t.second <= 59
  }

  function Digit(d: nat): char
    requires d < 10
  {
    (d + '0' as int) as char
  }

  function Decimal(n: nat): (s: string)
    ensures s != ""
  {
    if n < 10 then [Digit(n)] else Decimal(n / 10) + [Digit(n % 10)]
  }

  function Zeros(n: nat): (s: string)
    ensures |s| == n
  {
    if n == 0 then "" else "0" + Zeros(n - 1)
  }

  /** %0wd of a number that is not negative: at least `w` digits. */
  function Padded(n: nat, w: nat): string {
    var s := Decimal(n);
    if |s| < w then Zeros(w - |s|) + s else s
  }

  /** One conversion of a format string with its argument, or a character that stands for itself. */
  datatype Item = Number(n: nat, width: nat) | Plain(c: char)

  function Layout(f: Format, t: Time): seq<Item> {
    match f
    case DefaultDate =>
      [Number(t.year, 4), Number(t.month, 2), Number(t.day, 2), Number(t.hour, 2), Number(t.minute, 2),
       Number(t.second, 2)]
    case ChineseDate => [Number(t.year, 4), Plain('-'), Number(t.month, 2), Plain('-'), Number(t.day, 2)]
    case ChineseDatetime =>
      [Number(t.year, 4), Plain('-'), Number(t.month, 2), Plain('-'), Number(t.day, 2), Plain(' '),
       Number(t.hour, 2), Plain(':'), Number(t.minute, 2), Plain(':'), Number(t.second, 2)]
    case OtherDate => [Number(t.day, 2), Plain('-'), Number(t.month, 2), Plain('-'), Number(t.year, 4)]
  }

  function Printed(layout: seq<Item>): string {
    if layout == [] then ""
    else (match layout[0] case Number(n, w) => Padded(n, w) case Plain(c) => [c]) + Printed(layout[1..])
  }

  function Formatted(f: Format, t: Time): string {
    Printed(Layout(f, t))
  }

  // ---------------------------------------------------------------- numbers of a fixed width

  /** The last `w` digits. */
  function Fixed(n: nat, w: nat): (s: string)
    ensures |s| == w
  {
    if w == 0 then "" else Fixed(n / 10, w - 1) + [Digit(n % 10)]
  }

  lemma {:induction false} ZerosAreFixed(w: nat)
    ensures Fixed(0, w) == Zeros(w) && Zeros(w + 1) == Zeros(w) + "0"
  {
    if w > 0 {
      ZerosAreFixed(w - 1);
    }
  }

  /** A number that has room is printed in exactly that many digits. */
  lemma {:induction false} PaddedIsFixed(n: nat, w: nat)
    requires 0 < w && n < Pow10(w)
    ensures Padded(n, w) == Fixed(n, w)
  {
    if n < 10 {
      ZerosAreFixed(w - 1);
      assert Fixed(n, w) == Zeros(w - 1) + [Digit(n)];
      assert w == 1 ==> Zeros(0) + [Digit(n)] == [Digit(n)];
    } else {
      assert w > 1 by { assert w == 1 ==> Pow10(w) == 10; }
      PaddedIsFixed(n / 10, w - 1);
      var s := Decimal(n / 10);
      assert Decimal(n) == s + [Digit(n % 10)];
      assert |s| <= w - 1 by { assert |Padded(n / 10, w - 1)| == w - 1; }
      assert Zeros(w - 1 - |s|) + s + [Digit(n % 10)] == Zeros(w - 1 - |s|) + (s + [Digit(n % 10)]);
      assert |s| == w - 1 ==> Zeros(0) + s == s;
    }
  }

  predicate IsDigit(c: char) { '0' <= c <= '9' }

  /** Reads a number; a character that is no digit counts as 0. */
  function Value(s: string): nat {
    if s == "" then 0
    else 10 * Value(s[..|s| - 1]) + (if IsDigit(s[|s| - 1]) then s[|s| - 1] as int - '0' as int else 0)
  }

  lemma {:induction false} ValueUndoesFixed(n: nat, w: nat)
    requires n < Pow10(w)
    ensures Value(Fixed(n, w)) == n
  {
    if w > 0 {
      ValueUndoesFixed(n / 10, w - 1);
      assert Fixed(n, w)[..w - 1] == Fixed(n / 10, w - 1);
    }
  }

  // ---------------------------------------------------------------- the order of strings

  /** strcmp(a, b) < 0 */
  predicate Less(a: string, b: string) {
    b != "" && (a == "" || a[0] < b[0] || (a[0] == b[0] && Less(a[1..], b[1..])))
  }

  lemma {:induction false} LessConcat(a: string, b: string, x: string, y: string)
    requires |a| == |b|
    ensures Less(a + x, b + y) <==> Less(a, b) || (a == b && Less(x, y))
  {
    if a == "" {
      assert a + x == x && b + y == y;
    } else {
      LessConcat(a[1..], b[1..], x, y);
      assert (a + x)[1..] == a[1..] + x && (b + y)[1..] == b[1..] + y;
      assert a == b <==> a[0] == b[0] && a[1..] == b[1..] by { assert a == [a[0]] + a[1..] && b == [b[0]] + b[1..]; }
    }
  }

  lemma {:induction false} LessIrreflexive(a: string)
    ensures !Less(a, a)
  {
    if a != "" {
      LessIrreflexive(a[1..]);
    }
  }

  /** Numbers of one width compare as strings as they do as numbers. */
  lemma {:induction false} FixedOrder(m: nat, n: nat, w: nat)
    requires m < Pow10(w) && n < Pow10(w)
    ensures Less(Fixed(m, w), Fixed(n, w)) <==> m < n
    ensures Fixed(m, w) == Fixed(n, w) <==> m == n
  {
    ValueUndoesFixed(m, w);
    ValueUndoesFixed(n, w);
    if w > 0 {
      FixedOrder(m / 10, n / 10, w - 1);
      LessConcat(Fixed(m / 10, w - 1), Fixed(n / 10, w - 1), [Digit(m % 10)], [Digit(n % 10)]);
    }
  }

  // ---------------------------------------------------------------- printed layouts

  predicate Fits(layout: seq<Item>) {
    forall i :: 0 <= i < |layout| && layout[i].Number? ==> 0 < layout[i].width && layout[i].n < Pow10(layout[i].width)
  }

  predicate SameShape(a: seq<Item>, b: seq<Item>) {
    |a| == |b| && forall i :: 0 <= i < |a| ==>
      (a[i].Number? ==> b[i].Number? && a[i].width == b[i].width) && (a[i].Plain? ==> b[i] == a[i])
  }

  function Width(item: Item): nat {
    if item.Number? then item.width else 1
  }

  function TotalWidth(layout: seq<Item>): nat {
    if layout == [] then 0 else Width(layout[0]) + TotalWidth(layout[1..])
  }

  function Numbers(layout: seq<Item>): seq<nat> {
    if layout == [] then [] else (if layout[0].Number? then [layout[0].n] else []) + Numbers(layout[1..])
  }

  /** Reads the numbers at the places where the layout has them. */
  function Scanned(shape: seq<Item>, s: string): seq<nat>
    requires |s| == TotalWidth(shape)
  {
    if shape == [] then []
    else
      var w := Width(shape[0]);
      (if shape[0].Number? then [Value(s[..w])] else []) + Scanned(shape[1..], s[w..])
  }

  function One(item: Item): string {
    match item case Number(n, w) => Padded(n, w) case Plain(c) => [c]
  }

  lemma {:induction false} ScannedUndoesPrinted(shape: seq<Item>, layout: seq<Item>)
    requires Fits(layout) && SameShape(layout, shape)
    ensures |Printed(layout)| == TotalWidth(shape) && Scanned(shape, Printed(layout)) == Numbers(layout)
  {
    if layout != [] {
      var head, rest := One(layout[0]), Printed(layout[1..]);
      ScannedUndoesPrinted(shape[1..], layout[1..]);
      if layout[0].Number? {
        PaddedIsFixed(layout[0].n, layout[0].width);
        ValueUndoesFixed(layout[0].n, layout[0].width);
      }
      assert Printed(layout) == head + rest;
      assert (head + rest)[..|head|] == head && (head + rest)[|head|..] == rest;
    }
  }

  predicate LexLess(a: seq<nat>, b: seq<nat>) {
    b != [] && (a == [] || a[0] < b[0] || (a[0] == b[0] && LexLess(a[1..], b[1..])))
  }

  /** Two layouts of one shape compare as strings as their numbers do, the first number first. */
  lemma {:induction false} PrintedOrder(a: seq<Item>, b: seq<Item>)
    requires Fits(a) && Fits(b) && SameShape(a, b)
    ensures Less(Printed(a), Printed(b)) <==> LexLess(Numbers(a), Numbers(b))
  {
    if a != [] {
      PrintedOrder(a[1..], b[1..]);
      LessConcat(One(a[0]), One(b[0]), Printed(a[1..]), Printed(b[1..])) by {
        OneWidth(a[0]);
        OneWidth(b[0]);
      }
      if a[0].Number? {
        PaddedIsFixed(a[0].n, a[0].width);
        PaddedIsFixed(b[0].n, b[0].width);
        FixedOrder(a[0].n, b[0].n, a[0].width);
        assert Numbers(a) == [a[0].n] + Numbers(a[1..]) && Numbers(b) == [b[0].n] + Numbers(b[1..]);
      } else {
        LessIrreflexive(One(a[0]));
        assert Numbers(a) == Numbers(a[1..]) && Numbers(b) == Numbers(b[1..]);
      }
    }
  }

  lemma OneWidth(item: Item)
    requires item.Number? ==> 0 < item.width && item.n < Pow10(item.width)
    ensures |One(item)| == Width(item)
  {
    if item.Number? {
      PaddedIsFixed(item.n, item.width);
    }
  }

  // ---------------------------------------------------------------- the four formats

  const BLANK := Time(0, 0, 0, 0, 0, 0)

  lemma LayoutFits(f: Format, t: Time)
    requires Normalised(t)
    ensures Fits(Layout(f, t)) && SameShape(Layout(f, t), Layout(f, BLANK))
  {
    assert Pow10(2) == 100 && Pow10(4) == 10000;
  }

  /** The numbers that a format prints, in its order. */
  function NumbersOf(f: Format, t: Time): seq<nat> {
    match f
    case DefaultDate => [t.year, t.month, t.day, t.hour, t.minute, t.second]
    case ChineseDate => [t.year, t.month, t.day]
    case ChineseDatetime => [t.year, t.month, t.day, t.hour, t.minute, t.second]
    case OtherDate => [t.day, t.month, t.year]
  }

  lemma NumbersFrom(layout: seq<Item>)
    ensures forall i {:trigger layout[i..]} :: 0 <= i < |layout| ==>
              Numbers(layout[i..]) == (if layout[i].Number? then [layout[i].n] else []) + Numbers(layout[i + 1..])
  {
    forall i {:trigger layout[i..]} | 0 <= i < |layout|
      ensures Numbers(layout[i..]) == (if layout[i].Number? then [layout[i].n] else []) + Numbers(layout[i + 1..])
    {
      assert layout[i..][1..] == layout[i + 1..];
    }
  }

  lemma DatetimeNumbers(t: Time)
    ensures Numbers(Layout(ChineseDatetime, t)) == NumbersOf(ChineseDatetime, t)
  {
    hide Numbers;
    var layout := Layout(ChineseDatetime, t);
    NumbersFrom(layout);
    assert layout[0..] == layout;
    NoNumbers(layout[11..]);
  }

  lemma NoNumbers(layout: seq<Item>)
    requires layout == []
    ensures Numbers(layout) == []
  {
  }

  lemma LayoutNumbers(f: Format, t: Time)
    ensures Numbers(Layout(f, t)) == NumbersOf(f, t)
  {
    hide Numbers;
    if f.ChineseDatetime? {
      DatetimeNumbers(t);
    } else {
      var layout := Layout(f, t);
      NumbersFrom(layout);
      assert layout[0..] == layout;
      NoNumbers(layout[|layout|..]);
    }
  }

  function LengthOf(f: Format): nat {
    match f case DefaultDate => 14 case ChineseDate => 10 case ChineseDatetime => 19 case OtherDate => 10
  }

  lemma LayoutWidth(f: Format, t: Time)
    ensures TotalWidth(Layout(f, t)) == LengthOf(f)
  {
    var layout := Layout(f, t);
    forall i {:trigger layout[i..]} | 0 <= i < |layout|
      ensures TotalWidth(layout[i..]) == Width(layout[i]) + TotalWidth(layout[i + 1..])
    {
      assert layout[i..][1..] == layout[i + 1..];
    }
    assert layout[0..] == layout && TotalWidth(layout[|layout|..]) == 0;
  }

  // ---------------------------------------------------------------- the texts, character by character

  lemma PrintedFrom(layout: seq<Item>)
    ensures forall i {:trigger layout[i..]} :: 0 <= i < |layout| ==>
              Printed(layout[i..]) == One(layout[i]) + Printed(layout[i + 1..])
    ensures Printed(layout[|layout|..]) == "" && layout[0..] == layout
  {
    forall i {:trigger layout[i..]} | 0 <= i < |layout|
      ensures Printed(layout[i..]) == One(layout[i]) + Printed(layout[i + 1..])
    {
      assert layout[i..][1..] == layout[i + 1..];
    }
  }

  /** Year, month, day, hour, minute and second in 4 and 2 digits, without anything between them. */
  lemma DefaultDateText(t: Time)
    requires Normalised(t)
    ensures Formatted(DefaultDate, t) ==
              Fixed(t.year, 4) + Fixed(t.month, 2) + Fixed(t.day, 2)
              + Fixed(t.hour, 2) + Fixed(t.minute, 2) + Fixed(t.second, 2)
  {
    hide Printed, Padded, Fixed;
    FieldsAreFixed(t);
    var layout := Layout(DefaultDate, t);
    PrintedFrom(layout);
    assert Printed(layout[0..]) == One(layout[0]) + Printed(layout[1..]);
    assert Printed(layout[1..]) == One(layout[1]) + Printed(layout[2..]);
    assert Printed(layout[2..]) == One(layout[2]) + Printed(layout[3..]);
    assert Printed(layout[3..]) == One(layout[3]) + Printed(layout[4..]);
    assert Printed(layout[4..]) == One(layout[4]) + Printed(layout[5..]);
    assert Printed(layout[5..]) == One(layout[5]) + Printed(layout[6..]);
  }

  /** Year, month and day with hyphens, or the other way round. */
  lemma DateText(t: Time)
    requires Normalised(t)
    ensures Formatted(ChineseDate, t) == Fixed(t.year, 4) + "-" + Fixed(t.month, 2) + "-" + Fixed(t.day, 2)
    ensures Formatted(OtherDate, t) == Fixed(t.day, 2) + "-" + Fixed(t.month, 2) + "-" + Fixed(t.year, 4)
  {
    hide Printed, Padded, Fixed;
    FieldsAreFixed(t);
    FiveItems(Layout(ChineseDate, t));
    FiveItems(Layout(OtherDate, t));
  }

  lemma FiveItems(layout: seq<Item>)
    requires |layout| == 5
    ensures Printed(layout) == One(layout[0]) + One(layout[1]) + One(layout[2]) + One(layout[3]) + One(layout[4])
  {
    hide Printed, One;
    PrintedFrom(layout);
    assert Printed(layout[0..]) == One(layout[0]) + Printed(layout[1..]);
    assert Printed(layout[1..]) == One(layout[1]) + Printed(layout[2..]);
    assert Printed(layout[2..]) == One(layout[2]) + Printed(layout[3..]);
    assert Printed(layout[3..]) == One(layout[3]) + Printed(layout[4..]);
    assert Printed(layout[4..]) == One(layout[4]) + Printed(layout[5..]);
  }

  /** The date with hyphens, a blank, and the time with colons. */
  lemma DatetimeText(t: Time)
    requires Normalised(t)
    ensures Formatted(ChineseDatetime, t) ==
              Fixed(t.year, 4) + "-" + Fixed(t.month, 2) + "-" + Fixed(t.day, 2) + " "
              + Fixed(t.hour, 2) + ":" + Fixed(t.minute, 2) + ":" + Fixed(t.second, 2)
  {
    hide Printed, Padded, Fixed;
    FieldsAreFixed(t);
    var layout := Layout(ChineseDatetime, t);
    PrintedFrom(layout);
    FiveItems(layout[6..]);
    assert Printed(layout[0..]) == One(layout[0]) + Printed(layout[1..]);
    assert Printed(layout[1..]) == One(layout[1]) + Printed(layout[2..]);
    assert Printed(layout[2..]) == One(layout[2]) + Printed(layout[3..]);
    assert Printed(layout[3..]) == One(layout[3]) + Printed(layout[4..]);
    assert Printed(layout[4..]) == One(layout[4]) + Printed(layout[5..]);
    assert Printed(layout[5..]) == One(layout[5]) + Printed(layout[6..]);
  }

  lemma FieldsAreFixed(t: Time)
    requires Normalised(t)
    ensures Padded(t.year, 4) == Fixed(t.year, 4) && Padded(t.month, 2) == Fixed(t.month, 2)
    ensures Padded(t.day, 2) == Fixed(t.day, 2) && Padded(t.hour, 2) == Fixed(t.hour, 2)
    ensures Padded(t.minute, 2) == Fixed(t.minute, 2) && Padded(t.second, 2) == Fixed(t.second, 2)
  {
    hide Padded, Fixed;
    assert Pow10(2) == 100 && Pow10(4) == 10000;
    PaddedIsFixed(t.year, 4);
    PaddedIsFixed(t.month, 2);
    PaddedIsFixed(t.day, 2);
    PaddedIsFixed(t.hour, 2);
    PaddedIsFixed(t.minute, 2);
    PaddedIsFixed(t.second, 2);
  }

  /** Digit number `i` of a number of `w` digits: the character is that decimal place of the number. */
  lemma {:induction false} FixedAt(n: nat, w: nat, i: nat)
    requires i < w
    ensures Fixed(n, w)[i] as int - '0' as int == n / Pow10(w - 1 - i) % 10
    decreases w
  {
    if i < w - 1 {
      FixedAt(n / 10, w - 1, i);
      Shifted(n, Pow10(w - 2 - i));
    }
  }

  lemma Shifted(n: nat, p: nat)
    requires p > 0
    ensures n / 10 / p == n / (10 * p)
  {
    var q, r := n / 10, n % 10;
    var a, b := q / p, q % p;
    assert n == 10 * (a * p + b) + r == a * (10 * p) + (10 * b + r);
    assert 0 <= 10 * b + r < 10 * p;
    DivisionIs(n, 10 * p, a, 10 * b + r);
  }

  lemma DivisionIs(n: nat, p: nat, a: nat, r: nat)
    requires p > 0 && n == a * p + r && r < p
    ensures n / p == a
  {
    var d := n / p - a;
    assert n == (n / p) * p + n % p;
    assert d * p == r - n % p;
    assert d >= 1 ==> d * p >= p;
    assert d <= -1 ==> d * p <= 0 - p;
  }

  // ---------------------------------------------------------------- reading the texts back

  /** What a text in this format says, read at fixed places; the fields that it does not have are 0. */
  function Parsed(f: Format, s: string): Option<Time> {
    if |s| != TotalWidth(Layout(f, BLANK)) then None
    else
      var n := Scanned(Layout(f, BLANK), s);
      if |n| == 6 then Some(Time(n[0], n[1], n[2], n[3], n[4], n[5]))
      else if |n| == 3 && f.ChineseDate? then Some(Time(n[0], n[1], n[2], 0, 0, 0))
      else if |n| == 3 then Some(Time(n[2], n[1], n[0], 0, 0, 0))
      else None
  }

  /** The part of a time that a format shows. */
  function Visible(f: Format, t: Time): Time {
    if f.DefaultDate? || f.ChineseDatetime? then t else t.(hour := 0, minute := 0, second := 0)
  }

  /** The text has a fixed length, and nothing that a format shows is lost. */
  lemma ParsedUndoesFormatted(f: Format, t: Time)
    requires Normalised(t)
    ensures |Formatted(f, t)| == LengthOf(f) && Parsed(f, Formatted(f, t)) == Some(Visible(f, t))
  {
    hide TotalWidth, Scanned, Printed, Numbers;
    LayoutFits(f, t);
    LayoutWidth(f, t);
    LayoutWidth(f, BLANK);
    LayoutNumbers(f, t);
    ScannedUndoesPrinted(Layout(f, BLANK), Layout(f, t));
  }

  // ---------------------------------------------------------------- order

  /** `a` is before `b`. */
  predicate Earlier(a: Time, b: Time) {
    a.year < b.year
    || (a.year == b.year && a.month < b.month)
    || (a.year == b.year && a.month == b.month && a.day < b.day)
    || (SameDay(a, b) && a.hour < b.hour)
    || (SameDay(a, b) && a.hour == b.hour && a.minute < b.minute)
    || (SameDay(a, b) && a.hour == b.hour && a.minute == b.minute && a.second < b.second)
  }

  predicate SameDay(a: Time, b: Time) {
    a.year == b.year && a.month == b.month && a.day == b.day
  }

  lemma LexLess3(a: seq<nat>, b: seq<nat>)
    requires |a| >= 3 && |b| >= 3
    ensures LexLess(a, b) <==>
              a[0] < b[0] || (a[0] == b[0] && (a[1] < b[1]
                                               || (a[1] == b[1] && (a[2] < b[2]
                                                                    || (a[2] == b[2] && LexLess(a[3..], b[3..]))))))
  {
    assert a[1..][1..] == a[2..] && b[1..][1..] == b[2..] && a[2..][1..] == a[3..] && b[2..][1..] == b[3..];
    assert LexLess(a[1..], b[1..]) <==> a[1] < b[1] || (a[1] == b[1] && LexLess(a[2..], b[2..]));
    assert LexLess(a[2..], b[2..]) <==> a[2] < b[2] || (a[2] == b[2] && LexLess(a[3..], b[3..]));
  }

  /** Texts compare as the times that they show: to the second, or to the day. */
  lemma FormattedOrder(f: Format, a: Time, b: Time)
    requires Normalised(a) && Normalised(b) && !f.OtherDate?
    ensures Less(Formatted(f, a), Formatted(f, b)) <==> Earlier(Visible(f, a), Visible(f, b))
  {
    hide Printed, Numbers, Less;
    LayoutFits(f, a);
    LayoutFits(f, b);
    PrintedOrder(Layout(f, a), Layout(f, b));
    LayoutNumbers(f, a);
    LayoutNumbers(f, b);
    var x, y := NumbersOf(f, a), NumbersOf(f, b);
    LexLess3(x, y);
    if |x| == 6 {
      LexLess3(x[3..], y[3..]);
    }
  }

  /** The fourth format puts the day first, so its texts are in no order of times. */
  lemma OtherDateOrder(a: Time, b: Time)
    requires Normalised(a) && Normalised(b)
    ensures Less(Formatted(OtherDate, a), Formatted(OtherDate, b)) <==>
              a.day < b.day || (a.day == b.day && (a.month < b.month || (a.month == b.month && a.year < b.year)))
  {
    hide Printed, Numbers, Less;
    LayoutFits(OtherDate, a);
    LayoutFits(OtherDate, b);
    PrintedOrder(Layout(OtherDate, a), Layout(OtherDate, b));
    LayoutNumbers(OtherDate, a);
    LayoutNumbers(OtherDate, b);
    LexLess3(NumbersOf(OtherDate, a), NumbersOf(OtherDate, b));
  }

  // ---------------------------------------------------------------- the buffer

  /** snprintf: as much of the text as there is room for, and a NUL. */
  method Print(text: string, buf: array<char>)
    requires IsCString(text) && buf.Length > 0
    modifies buf
    ensures TextIn(buf[..]) == text[..Min(|text|, buf.Length - 1)]
  {
    var n := Min(|text|, buf.Length - 1);
    forall i | 0 <= i < n {
      buf[i] := text[i];
    }
    buf[n] := NUL;
    assert buf[..][..n] == text[..n];
    TextInPadded(text[..n], buf[..]);
  }

  lemma {:induction false} DecimalIsText(n: nat)
    ensures IsCString(Decimal(n))
  {
    if n >= 10 {
      DecimalIsText(n / 10);
    }
  }

  lemma {:induction false} ZerosAreText(n: nat)
    ensures IsCString(Zeros(n))
  {
    if n > 0 {
      ZerosAreText(n - 1);
    }
  }

  lemma {:induction false} PrintedIsText(layout: seq<Item>)
    requires forall i :: 0 <= i < |layout| ==> layout[i] != Plain(NUL)
    ensures IsCString(Printed(layout))
  {
    if layout != [] {
      PrintedIsText(layout[1..]);
      if layout[0].Number? {
        DecimalIsText(layout[0].n);
        ZerosAreText(if |Decimal(layout[0].n)| < layout[0].width then layout[0].width - |Decimal(layout[0].n)| else 0);
      }
    }
  }

  /** date_format: the text as far as the buffer has room for it and a NUL. */
  method PrintTime(buf: array?<char>, f: Format, t: Option<Time>) returns (rc: int)
    modifies buf
    ensures rc == if buf == null || t.None? then -1 else 0
    ensures buf != null && (t.None? || buf.Length == 0) ==> buf[..] == old(buf[..])
    ensures buf != null && t.Some? && buf.Length > 0 ==>
              TextIn(buf[..]) == Formatted(f, t.value)[..Min(|Formatted(f, t.value)|, buf.Length - 1)]
  {
    if buf == null || t.None? {
      return -1;
    }
    if buf.Length > 0 {
      PrintedIsText(Layout(f, t.value));
      Print(Formatted(f, t.value), buf);
    }
    return 0;
  }
}
