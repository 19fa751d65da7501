/**
 Named placeholders.  `mysqlapi::phSetSql` copies a statement into a 2048-character buffer and
 replaces every `:name` by `?`.  The loop keeps one flag (copying or skipping a name) and a write
 offset.  `Rewrite` is the transducer it computes, `Render`/`Erase` the grammar it is meant for.
 */
module PlaceholderRewriter {
  import opened Basics

  // Size of the statement buffers (MAX_DATA_BUF_LENGTH).
  const BUFFER_LENGTH: nat := 2048

  /** The characters that end a parameter name. */
  predicate IsDelimiter(c: char) {
    c == ',' || c == ' ' || c == ')' || c == ';'
  }

  predicate ColonFree(s: string) {
    forall i :: 0 <= i < |s| ==> s[i] != ':'
  }

  // ---------------------------------------------------------------- the transducer

  /** Whether the transducer is copying after it has read `c`. */
  function CopyAfter(copying: bool, c: char): bool {
    if c == ':' then false else copying || IsDelimiter(c)
  }

  /** What the transducer writes when it reads `c`. */
  function Emit(copying: bool, c: char): string {
    if c == ':' then "?" else if copying || IsDelimiter(c) then [c] else ""
  }

  function CopyAfterAll(copying: bool, s: string): bool {
    if s == "" then copying else CopyAfter(CopyAfterAll(copying, s[..|s| - 1]), s[|s| - 1])
  }

  function RewriteFrom(copying: bool, s: string): string {
    if s == "" then ""
    else RewriteFrom(copying, s[..|s| - 1]) + Emit(CopyAfterAll(copying, s[..|s| - 1]), s[|s| - 1])
  }

  /** The statement that `phSetSql` leaves for the server. */
  function Rewrite(s: string): string {
    RewriteFrom(true, s)
  }

  function Count(s: string, c: char): nat {
    if s == "" then 0 else Count(s[..|s| - 1], c) + (if s[|s| - 1] == c then 1 else 0)
  }

  /** Number of question marks that the transducer copies rather than produces. */
  function CopiedMarks(copying: bool, s: string): nat {
    if s == "" then 0
    else CopiedMarks(copying, s[..|s| - 1])
         + (if s[|s| - 1] == '?' && CopyAfterAll(copying, s[..|s| - 1]) then 1 else 0)
  }

  // ---------------------------------------------------------------- its algebra

  /** Splitting the input at any point splits the output; in copy state both halves are rewrites. */
  lemma {:induction false} RewriteSplits(copying: bool, a: string, b: string)
    ensures CopyAfterAll(copying, a + b) == CopyAfterAll(CopyAfterAll(copying, a), b)
    ensures RewriteFrom(copying, a + b) == RewriteFrom(copying, a) + RewriteFrom(CopyAfterAll(copying, a), b)
  {
    if b == "" {
      assert a + b == a;
    } else {
      var b' := b[..|b| - 1];
      assert (a + b)[..|a + b| - 1] == a + b';
      RewriteSplits(copying, a, b');
    }
  }

  /** At a point in copy state the rewrite of the whole is the concatenation of the two rewrites. */
  lemma RewriteConcatenates(a: string, b: string)
    requires CopyAfterAll(true, a)
    ensures Rewrite(a + b) == Rewrite(a) + Rewrite(b)
  {
    RewriteSplits(true, a, b);
  }

  lemma {:induction false} CountSplits(a: string, b: string, c: char)
    ensures Count(a + b, c) == Count(a, c) + Count(b, c)
  {
    if b == "" {
      assert a + b == a;
    } else {
      assert (a + b)[..|a + b| - 1] == a + b[..|b| - 1];
      CountSplits(a, b[..|b| - 1], c);
    }
  }

  /** No colon survives and nothing grows. */
  lemma {:induction false} RewriteOutput(copying: bool, s: string)
    ensures ColonFree(RewriteFrom(copying, s))
    ensures |RewriteFrom(copying, s)| <= |s|
    ensures IsCString(s) ==> IsCString(RewriteFrom(copying, s))
  {
    if s != "" {
      var s', c := s[..|s| - 1], s[|s| - 1];
      RewriteOutput(copying, s');
      var done, e := RewriteFrom(copying, s'), Emit(CopyAfterAll(copying, s'), c);
      assert RewriteFrom(copying, s) == done + e;
      assert e == "" || e == "?" || e == [c];
    }
  }

  /** The question marks are accounted for one by one. */
  lemma {:induction false} MarksAreColonsAndCopies(copying: bool, s: string)
    ensures Count(RewriteFrom(copying, s), '?') == Count(s, ':') + CopiedMarks(copying, s)
  {
    if s != "" {
      var s', c := s[..|s| - 1], s[|s| - 1];
      MarksAreColonsAndCopies(copying, s');
      var e := Emit(CopyAfterAll(copying, s'), c);
      CountSplits(RewriteFrom(copying, s'), e, '?');
      CountOne(c, '?');
      CountOne('?', '?');
    }
  }

  lemma CountOne(c: char, d: char)
    ensures Count([c], d) == if c == d then 1 else 0
  {
    assert [c][..0] == "";
  }

  lemma {:induction false} ColonFreeIsCopied(s: string)
    requires ColonFree(s)
    ensures RewriteFrom(true, s) == s && CopyAfterAll(true, s)
  {
    if s != "" {
      ColonFreeIsCopied(s[..|s| - 1]);
      assert s == s[..|s| - 1] + [s[|s| - 1]];
    }
  }

  /** The rewriter changes nothing exactly when the statement has no colon. */
  lemma RewriteIsIdentityIffColonFree(s: string)
    ensures Rewrite(s) == s <==> ColonFree(s)
  {
    RewriteOutput(true, s);
    if ColonFree(s) {
      ColonFreeIsCopied(s);
    }
  }

  lemma RewriteIsIdempotent(s: string)
    ensures Rewrite(Rewrite(s)) == Rewrite(s)
  {
    RewriteOutput(true, s);
    ColonFreeIsCopied(Rewrite(s));
  }

  // ---------------------------------------------------------------- the grammar

  /** A statement template: plain text and named parameters. */
  datatype Token = Text(text: string) | Param(name: string)

  /** A comma, a blank, a closing parenthesis or a semicolon ends a name. */
  predicate EndsName(c: char) {
    c in {',', ' ', ')', ';'}
  }

  predicate ValidName(name: string) {
    forall i :: 0 <= i < |name| ==> name[i] != ':' && !EndsName(name[i])
  }

  /** Text has no colon, names have nothing that ends them, and text that follows a name starts with what does. */
  predicate WellFormed(tokens: seq<Token>) {
    && (forall i :: 0 <= i < |tokens| ==>
          if tokens[i].Text? then ColonFree(tokens[i].text) else ValidName(tokens[i].name))
    && (forall i :: 0 < i < |tokens| && tokens[i - 1].Param? && tokens[i].Text? ==>
          tokens[i].text != "" && EndsName(tokens[i].text[0]))
  }

  /** The template as the caller writes it. */
  function Render(tokens: seq<Token>): string {
    if tokens == [] then ""
    else Render(tokens[..|tokens| - 1])
         + match tokens[|tokens| - 1] { case Text(text) => text case Param(name) => ":" + name }
  }

  /** The template with each parameter replaced by one question mark. */
  function Erase(tokens: seq<Token>): string {
    if tokens == [] then ""
    else Erase(tokens[..|tokens| - 1])
         + match tokens[|tokens| - 1] { case Text(text) => text case Param(_) => "?" }
  }

  function ParamNames(tokens: seq<Token>): seq<string> {
    if tokens == [] then []
    else ParamNames(tokens[..|tokens| - 1])
         + match tokens[|tokens| - 1] { case Text(_) => [] case Param(name) => [name] }
  }

  lemma {:induction false} NameIsSkipped(name: string)
    requires ValidName(name)
    ensures RewriteFrom(false, name) == "" && !CopyAfterAll(false, name)
  {
    if name != "" {
      NameIsSkipped(name[..|name| - 1]);
    }
  }

  lemma DelimitedTextIsCopied(copying: bool, text: string)
    requires ColonFree(text)
    requires copying || (text != "" && EndsName(text[0]))
    ensures RewriteFrom(copying, text) == text && CopyAfterAll(copying, text)
  {
    hide RewriteFrom, CopyAfterAll;
    if copying {
      ColonFreeIsCopied(text);
    } else {
      var head, tail := text[..1], text[1..];
      assert head == [text[0]] && text == head + tail;
      EndIsCopied(text[0]);
      RewriteSplits(copying, head, tail);
      ColonFreeIsCopied(tail);
    }
  }

  lemma EndIsCopied(c: char)
    requires EndsName(c)
    ensures RewriteFrom(false, [c]) == [c] && CopyAfterAll(false, [c])
  {
    assert [c][..0] == "";
  }

  lemma ParamIsOneMark(copying: bool, name: string)
    requires ValidName(name)
    ensures RewriteFrom(copying, ":" + name) == "?" && !CopyAfterAll(copying, ":" + name)
  {
    assert ":"[..0] == "";
    RewriteSplits(copying, ":", name);
    NameIsSkipped(name);
  }

  /** One character after a name: one of the four is kept and ends the name, any other is swallowed with it. */
  lemma OneAfterName(c: char)
    requires c != ':'
    ensures CopyAfterAll(false, [c]) <==> c == ',' || c == ' ' || c == ')' || c == ';'
    ensures RewriteFrom(false, [c]) == if c == ',' || c == ' ' || c == ')' || c == ';' then [c] else ""
  {
    assert [c][..0] == "";
  }

  /**
   A name ends before a comma, a blank, a closing parenthesis or a semicolon, which is kept with all that
   follows, and before nothing else: any other character is swallowed.
   */
  lemma NameEndsExactly(name: string, c: char, rest: string)
    requires ValidName(name) && c != ':' && ColonFree(rest)
    ensures c == ',' || c == ' ' || c == ')' || c == ';' ==> Rewrite(":" + name + [c] + rest) == "?" + [c] + rest
    ensures c != ',' && c != ' ' && c != ')' && c != ';' ==>
              Rewrite(":" + name + [c]) == "?" && Rewrite(":" + name + [c] + rest) == Rewrite(":" + name + rest)
  {
    hide RewriteFrom, CopyAfterAll;
    ParamIsOneMark(true, name);
    OneAfterName(c);
    RewriteSplits(true, ":" + name, [c]);
    RewriteSplits(true, ":" + name, rest);
    RewriteSplits(true, ":" + name + [c], rest);
    ColonFreeIsCopied(rest);
    assert "?" + "" == "?";
  }

  lemma RewriteNothing()
    ensures Rewrite("") == "" && CopyAfterAll(true, "")
  {
  }

  /** On the grammar, rewriting replaces every parameter by one question mark and nothing else. */
  lemma {:induction false} RewriteErasesNames(tokens: seq<Token>)
    requires WellFormed(tokens)
    ensures Rewrite(Render(tokens)) == Erase(tokens)
    ensures CopyAfterAll(true, Render(tokens)) <==> tokens == [] || tokens[|tokens| - 1].Text?
  {
    hide RewriteFrom, CopyAfterAll, ColonFree, ValidName, EndsName;
    RewriteNothing();
    if tokens != [] {
      var init, last := tokens[..|tokens| - 1], tokens[|tokens| - 1];
      RewriteErasesNames(init);
      var copying := CopyAfterAll(true, Render(init));
      match last {
        case Text(text) =>
          RewriteSplits(true, Render(init), text);
          assert init == [] || init[|init| - 1] == tokens[|tokens| - 2];
          DelimitedTextIsCopied(copying, text);
        case Param(name) =>
          RewriteSplits(true, Render(init), ":" + name);
          ParamIsOneMark(copying, name);
      }
    }
  }

  /** Without literal question marks the i-th mark the server sees belongs to the i-th name. */
  lemma {:induction false} OneMarkPerName(tokens: seq<Token>)
    requires WellFormed(tokens)
    requires forall i :: 0 <= i < |tokens| && tokens[i].Text? ==> '?' !in tokens[i].text
    ensures Count(Erase(tokens), '?') == |ParamNames(tokens)|
  {
    if tokens != [] {
      var init, last := tokens[..|tokens| - 1], tokens[|tokens| - 1];
      OneMarkPerName(init);
      var piece := match last { case Text(text) => text case Param(_) => "?" };
      CountSplits(Erase(init), piece, '?');
      match last {
        case Text(text) =>
          AbsentIsNotCounted(text, '?');
        case Param(_) =>
          CountOne('?', '?');
      }
    }
  }

  lemma {:induction false} AbsentIsNotCounted(s: string, c: char)
    requires c !in s
    ensures Count(s, c) == 0
  {
    if s != "" {
      AbsentIsNotCounted(s[..|s| - 1], c);
    }
  }

  // ---------------------------------------------------------------- the buffer loop

  lemma RewriteStep(s: string, i: nat)
    requires i < |s|
    ensures CopyAfterAll(true, s[..i + 1]) == CopyAfter(CopyAfterAll(true, s[..i]), s[i])
    ensures Rewrite(s[..i + 1]) == Rewrite(s[..i]) + Emit(CopyAfterAll(true, s[..i]), s[i])
    ensures |Rewrite(s[..i + 1])| <= i + 1
    ensures i == |s| - 1 ==> s[..i + 1] == s
  {
    assert s[..i + 1][..i] == s[..i];
    RewriteOutput(true, s[..i + 1]);
  }

  /**
   The rewriting loop, over the fixed buffer.  The precondition is the room the loop needs: the
   store after the last character goes to the position after the next free one.
   */
  method FillBuffer(sql: string) returns (temp: array<char>)
    requires IsCString(sql) && |sql| < BUFFER_LENGTH
    requires sql != "" ==> |Rewrite(sql)| + 1 < BUFFER_LENGTH
    ensures fresh(temp) && temp.Length == BUFFER_LENGTH
    ensures TextIn(temp[..]) == Rewrite(sql)
    ensures forall j :: |Rewrite(sql)| <= j < BUFFER_LENGTH ==> temp[j] == NUL
  {
    hide RewriteFrom, CopyAfterAll;
    temp := new char[BUFFER_LENGTH](_ => NUL);
    var copying := true;
    var offset := 0;
    var i := 0;
    RewriteNothing();
    while i < |sql|
      invariant 0 <= i <= |sql|
      invariant offset == |Rewrite(sql[..i])| <= i
      invariant copying == CopyAfterAll(true, sql[..i])
      invariant temp[..offset] == Rewrite(sql[..i])
      invariant forall j :: offset <= j < BUFFER_LENGTH ==> temp[j] == NUL
    {
      RewriteStep(sql, i);
      ghost var before := temp[..offset];
      ghost var next := before + Emit(copying, sql[i]);
      if sql[i] == ':' {
        temp[offset] := '?';
        offset := offset + 1;
        copying := false;
      }
      if IsDelimiter(sql[i]) && !copying {
        copying := true;
      }
      if copying {
        temp[offset] := sql[i];
        offset := offset + 1;
      }
      assert temp[..offset] == next;
      if i == |sql| - 1 {
        temp[offset + 1] := NUL;
      }
      i := i + 1;
    }
    assert sql[..i] == sql;
    RewriteOutput(true, sql);
    TextInPadded(Rewrite(sql), temp[..]);
  }
}
