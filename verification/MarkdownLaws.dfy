/** What rendering keeps of a text, and what its marks mean. */
module MarkdownLaws {
  import opened Bytes
  import opened Terminal
  import opened Markdown

  /** `s` without the characters that mark emphasis, code and escapes. */
  function Strip(s: seq<byte>): seq<byte> {
    if s == [] then [] else (if IsMark(s[0]) then [] else [s[0]]) + Strip(s[1..])
  }

  lemma {:induction false} RunIs(s: seq<byte>, c: byte)
    ensures forall i :: 0 <= i < RunOf(s, c) ==> s[i] == c
    ensures RunOf(s, c) < |s| ==> s[RunOf(s, c)] != c
  {
    if s != [] && s[0] == c { RunIs(s[1..], c); }
  }

  /** `a` is `b` with marks left out. */
  predicate Keeps(a: seq<byte>, b: seq<byte>) { Subsequence(a, b) && Strip(a) == Strip(b) }

  lemma KeepsMore(a: seq<byte>, b: seq<byte>, c: byte)
    requires Keeps(a, b)
    ensures Keeps([c] + a, [c] + b)
    ensures IsMark(c) ==> Keeps(a, [c] + b)
  {
    assert ([c] + a)[1..] == a && ([c] + b)[1..] == b;
  }

  lemma {:induction false} KeepsRun(a: seq<byte>, s: seq<byte>, c: byte, n: nat)
    requires n <= RunOf(s, c) && IsMark(c) && Keeps(a, s[n..])
    ensures Keeps(a, s) && Keeps(s[..n] + a, s)
  {
    if n > 0 {
      assert s[1..][n - 1..] == s[n..];
      KeepsRun(a, s[1..], c, n - 1);
      KeepsMore(a, s[1..], c);
      KeepsMore(s[1..][..n - 1] + a, s[1..], c);
      assert [c] + s[1..] == s && [c] + (s[1..][..n - 1] + a) == s[..n] + a;
    } else {
      assert s[0..] == s && s[..0] + a == a;
    }
  }

  lemma CharsConcat(a: seq<Cell>, b: seq<Cell>)
    ensures Chars(a + b) == Chars(a) + Chars(b)
  {
  }

  lemma KeepsShown(sp: Span, c: byte, rest: seq<Cell>, s: seq<byte>)
    requires s != [] && s[0] == c && Keeps(Chars(rest), s[1..])
    ensures Keeps(Chars(One(sp, c) + rest), s) && (IsMark(c) ==> Keeps(Chars(rest), s))
  {
    hide Keeps;
    CharsConcat(One(sp, c), rest);
    assert Chars(One(sp, c)) == [c] && [c] + s[1..] == s;
    KeepsMore(Chars(rest), s[1..], c);
  }

  lemma KeepsMarks(sp: Span, c: byte, rest: seq<Cell>, s: seq<byte>, n: nat)
    requires IsMark(c) && n == RunOf(s, c) && Keeps(Chars(rest), s[n..])
    ensures Keeps(Chars(rest), s) && Keeps(Chars(Cells(s[..n], StyleOf(sp)) + rest), s)
  {
    hide Keeps, RunOf;
    var marks := Cells(s[..n], StyleOf(sp));
    CharsConcat(marks, rest);
    assert Chars(marks) == s[..n];
    KeepsRun(Chars(rest), s, c, n);
  }

  /** Rendering text shows its characters in order; only marks can be missing, and without them
      nothing is. */
  lemma {:induction false} InlineKeeps(sp: Span, s: seq<byte>)
    ensures Keeps(Chars(Inline(sp, s)), s)
    decreases |s|
  {
    if s != [] {
      var c := s[0];
      if !sp.code && c == BACK && |s| > 1 && Escapable(s[1]) {
        var rest := Inline(sp.(prev := s[1]), s[2..]);
        InlineKeeps(sp.(prev := s[1]), s[2..]);
        hide Keeps, Inline;
        KeepsShown(sp, s[1], rest, s[1..]);
        KeepsShown(sp, c, One(sp, s[1]) + rest, s);
      } else if !sp.code && (c == STAR || c == LOW) {
        var n := RunOf(s, c);
        var sp' := if Delimits(sp, c, n, if n < |s| then s[n] else 0) then Toggle(sp, c, n) else sp.(prev := c);
        InlineKeeps(sp', s[n..]);
        KeepsMarks(sp, c, Inline(sp', s[n..]), s, n);
      } else {
        var sp' := sp.(prev := c, code := if c == TICK then !sp.code else sp.code);
        InlineKeeps(sp', s[1..]);
        KeepsShown(sp, c, Inline(sp', s[1..]), s);
      }
    }
  }

  /** A line shows its own characters: verbatim for code and rules, not at all for fences, and else
      its marker, put in its own form, then the text that follows with only marks left out. */
  lemma LineShows(block: Block, line: seq<byte>)
    ensures var k := LineClass(block, line);
      && k.skip <= |line|
      && match k.kind
         case Fence => LineCells(block, line) == []
         case Close => LineCells(block, line) == []
         case Hr => Chars(LineCells(block, line)) == line
         case Code => Chars(LineCells(block, line)) == line
         case _ =>
           exists body :: LineCells(block, line) == Marker(k.kind, RunOf(line, SPACE)) + body
             && Keeps(Chars(body), line[k.skip..])
  {
    var k := LineClass(block, line);
    ClassSkip(block, line);
    hide LineClass;
    assert Rest(line, k.skip) == line[k.skip..];
    InlineKeeps(Start(k.kind), line[k.skip..]);
    hide Keeps, Inline;
  }

  lemma ClassSkip(block: Block, line: seq<byte>)
    ensures LineClass(block, line).skip <= |line| && LineClass(block, line).kind != Undecided
  {
    hide Classify;
    CompleteClass(block, line);
  }

  /** The bytes dropped from a line that is a heading, quote or bullet are spaces and its mark. */
  lemma MarkerDropped(i: nat, r: seq<byte>)
    requires r != []
    ensures var k := ClassifyText(i, r, true);
      && (k.kind.Heading? ==> k.skip > i && r[..k.skip - i] == Repeat(HASH, k.skip - i - 1) + [SPACE] && 2 <= k.skip - i <= 7)
      && (k.kind.Quote? ==> r[..k.skip - i] == [GT] || r[..k.skip - i] == [GT, SPACE])
      && (k.kind.Bullet? ==> r[..k.skip - i] == [r[0], SPACE] && (r[0] == DASH || r[0] == STAR || r[0] == PLUS))
  {
    RunIs(r, r[0]);
    var k := RunOf(r, r[0]);
    assert 1 <= k <= |r|;
    hide RunOf;
  }

  lemma PlainFirst(sp: Span, c: byte, rest: seq<byte>)
    requires !IsMark(c)
    ensures Inline(sp, [c] + rest) == One(sp, c) + Inline(sp.(prev := c), rest)
  {
    assert ([c] + rest)[1..] == rest;
  }

  /** Text without marks is shown as it is, under the style in force. */
  lemma {:induction false} TextIsVerbatim(sp: Span, s: seq<byte>, rest: seq<byte>)
    requires forall i :: 0 <= i < |s| ==> !IsMark(s[i])
    ensures Inline(sp, s + rest) ==
      Cells(s, StyleOf(sp)) + Inline(if s == [] then sp else sp.(prev := s[|s| - 1]), rest)
    decreases |s|
  {
    if s == [] {
      assert s + rest == rest;
    } else {
      PlainFirst(sp, s[0], s[1..] + rest);
      assert s + rest == [s[0]] + (s[1..] + rest);
      TextIsVerbatim(sp.(prev := s[0]), s[1..], rest);
      hide Inline;
      CellsFirst(sp, s, Inline(sp.(prev := s[|s| - 1]), rest));
    }
  }

  lemma CellsFirst(sp: Span, s: seq<byte>, rest: seq<Cell>)
    requires s != []
    ensures One(sp, s[0]) + (Cells(s[1..], StyleOf(sp)) + rest) == Cells(s, StyleOf(sp)) + rest
  {
    assert One(sp, s[0]) + Cells(s[1..], StyleOf(sp)) == Cells(s, StyleOf(sp));
  }

  /** A code span shows what stands between its backticks as it is, in code style. */
  lemma {:induction false} CodeIsVerbatim(sp: Span, s: seq<byte>, rest: seq<byte>)
    requires sp.code && TICK !in s
    ensures Inline(sp, s + [TICK] + rest) ==
      Cells(s, StyleOf(sp)) + Inline(sp.(code := false, prev := TICK), rest)
    decreases |s|
  {
    var t := s + [TICK] + rest;
    if s == [] {
      assert t[1..] == rest;
    } else {
      assert t[0] == s[0] && t[1..] == s[1..] + [TICK] + rest;
      CodeIsVerbatim(sp.(prev := s[0]), s[1..], rest);
      assert Cells(s, StyleOf(sp)) == One(sp, s[0]) + Cells(s[1..], StyleOf(sp));
    }
  }

  /** A code span as a whole: its text in code style, and not its backticks. Without the second one, all
      that follows is code. */
  lemma CodeSpan(sp: Span, s: seq<byte>, rest: seq<byte>)
    requires !sp.code && TICK !in s
    ensures Inline(sp, [TICK] + (s + [TICK] + rest)) == Cells(s, Style(sp.h, sp.b, sp.i, true, false)) + Inline(sp.(prev := TICK), rest)
    ensures Inline(sp, [TICK] + s) == Cells(s, Style(sp.h, sp.b, sp.i, true, false))
  {
    var inner := sp.(code := true, prev := TICK);
    assert ([TICK] + (s + [TICK] + rest))[1..] == s + [TICK] + rest && ([TICK] + s)[1..] == s;
    CodeIsVerbatim(inner, s, rest);
    OpenCode(inner, s);
    assert inner.(code := false, prev := TICK) == sp.(prev := TICK);
  }

  lemma {:induction false} OpenCode(sp: Span, s: seq<byte>)
    requires sp.code && TICK !in s
    ensures Inline(sp, s) == Cells(s, StyleOf(sp))
    decreases |s|
  {
    if s != [] { OpenCode(sp.(prev := s[0]), s[1..]); }
  }

  /** A run of stars or low lines at the start of a text. */
  lemma RunFirst(sp: Span, c: byte, n: nat, rest: seq<byte>)
    requires !sp.code && (c == STAR || c == LOW) && n > 0 && (rest == [] || rest[0] != c)
    ensures Inline(sp, Repeat(c, n) + rest) ==
      if Delimits(sp, c, n, if rest == [] then 0 else rest[0]) then Inline(Toggle(sp, c, n), rest)
      else Cells(Repeat(c, n), StyleOf(sp)) + Inline(sp.(prev := c), rest)
  {
    var t := Repeat(c, n) + rest;
    RunOfRepeat(c, n, rest);
    assert t[0] == c && t[..n] == Repeat(c, n) && t[n..] == rest;
  }

  /** Text between two runs of one, two or three stars or low lines, if it neither starts nor ends
      with a space, is shown italic, bold or both, and the marks are not shown. Low lines must not
      touch a word outside. */
  lemma MarksEmphasize(sp: Span, c: byte, n: nat, s: seq<byte>, rest: seq<byte>)
    requires (c == STAR || c == LOW) && 1 <= n <= 3 && !sp.b && !sp.i && !sp.code
    requires s != [] && !IsSpace(s[0]) && !IsSpace(s[|s| - 1]) && forall i :: 0 <= i < |s| ==> !IsMark(s[i])
    requires rest == [] || rest[0] != c
    requires c == LOW ==> !IsWord(sp.prev) && (rest == [] || !IsWord(rest[0]))
    ensures Inline(sp, Repeat(c, n) + (s + (Repeat(c, n) + rest))) ==
      Cells(s, Style(sp.h, n >= 2, n != 2, false, false)) + Inline(sp.(prev := c), rest)
  {
    var run := Repeat(c, n);
    var inner := s + (run + rest);
    assert inner[0] == s[0];
    RunFirst(sp, c, n, inner);
    var open := Toggle(sp, c, n);
    TextIsVerbatim(open, s, run + rest);
    var last := open.(prev := s[|s| - 1]);
    RunFirst(last, c, n, rest);
    hide Inline;
    assert Toggle(last, c, n) == sp.(prev := c);
  }

  /** A space, a tab, or an end of the line. */
  predicate Gap(c: byte) { c == 0 || c == 32 || c == 9 || c == 10 }

  predicate LetterOrDigit(c: byte) { 'a' as int <= c <= 'z' as int || 'A' as int <= c <= 'Z' as int || '0' as int <= c <= '9' as int }

  /** What a run of marks does, `next` being what follows. One mark is for italic, two for bold, three for
      both. If none of these is on, the run turns them on if no gap follows; if all are on, it turns them
      off if no gap comes before; low lines only outside words. Else, and if there are more than three, the
      marks are shown. */
  lemma RunDecides(sp: Span, c: byte, n: nat, rest: seq<byte>)
    requires !sp.code && (c == STAR || c == LOW) && n > 0 && (rest == [] || rest[0] != c)
    ensures
      var next := if rest == [] then 0 else rest[0];
      var on := n <= 3 && !Gap(next) && (c == LOW ==> !LetterOrDigit(sp.prev));
      var off := n <= 3 && !Gap(sp.prev) && (c == LOW ==> !LetterOrDigit(next));
      var shown := Cells(Repeat(c, n), StyleOf(sp)) + Inline(sp.(prev := c), rest);
      var all := Inline(sp, Repeat(c, n) + rest);
      && (n == 1 ==> all == if (if sp.i then off else on) then Inline(sp.(i := !sp.i, prev := c), rest) else shown)
      && (n == 2 ==> all == if (if sp.b then off else on) then Inline(sp.(b := !sp.b, prev := c), rest) else shown)
      && (n == 3 && sp.b == sp.i ==> all == if (if sp.b then off else on) then Inline(sp.(b := !sp.b, i := !sp.i, prev := c), rest) else shown)
      && (n > 3 || (n == 3 && sp.b != sp.i) ==> all == shown)
  {
    RunFirst(sp, c, n, rest);
    hide Inline;
  }

  /** A backslash shows the ASCII punctuation after it as it is; before all else, and at the end of a line,
      it shows itself. */
  lemma BackslashShows(sp: Span, c: byte, rest: seq<byte>)
    requires !sp.code
    ensures Inline(sp, [BACK] + ([c] + rest)) ==
      if 33 <= c <= 47 || 58 <= c <= 64 || 91 <= c <= 96 || 123 <= c <= 126
      then [Cell(c, StyleOf(sp))] + Inline(sp.(prev := c), rest)
      else [Cell(BACK, StyleOf(sp))] + Inline(sp.(prev := BACK), [c] + rest)
    ensures Inline(sp, [BACK]) == [Cell(BACK, StyleOf(sp))]
  {
    var t := [BACK] + ([c] + rest);
    assert t[0] == BACK && t[1] == c && t[1..] == [c] + rest && t[2..] == rest;
  }

  // ---- whole texts ----

  /** Every line leaves the terminal in its default style. */
  lemma {:induction false} LinesEndPlain(text: seq<byte>)
    ensures LastStyle(PLAIN, PageOf(text).shown) == PLAIN
  {
    if text != [] {
      LinesEndPlain(text[..|text| - 1]);
      EndsPlain(PageOf(text[..|text| - 1]));
    }
  }

  lemma EndsPlain(p: Page)
    requires LastStyle(PLAIN, p.shown) == PLAIN
    ensures LastStyle(PLAIN, EndLine(p).shown) == PLAIN
  {
    hide LineClass, Inline, NextBlock;
    if IsFence(LineClass(p.block, p.line).kind) { assert EndLine(p).shown == p.shown + [] + []; }
  }

  lemma TextEndsPlain(text: seq<byte>)
    ensures LastStyle(PLAIN, TextCells(text)) == PLAIN
  {
    LinesEndPlain(text);
    EndsPlain(PageOf(text));
  }

  /** `a` and then more: what is shown of complete lines is never taken back. */
  lemma {:induction false} ShownGrows(text: seq<byte>, more: seq<byte>)
    ensures PageOf(text).shown <= PageOf(text + more).shown
    decreases |more|
  {
    if more == [] {
      assert text + more == text;
    } else {
      var most := more[..|more| - 1];
      ShownGrows(text, most);
      assert (text + more)[..|text + more| - 1] == text + most;
    }
  }

  /** Where a shown character comes from: the text, or a marker or line end put in. */
  predicate From(text: seq<byte>, c: byte) { c in text || c == BAR || c == SPACE || c == DASH || c == NL }

  lemma {:induction false} KeepsFrom(a: seq<byte>, b: seq<byte>, c: byte)
    requires Subsequence(a, b) && c in a
    ensures c in b
  {
    if a[0] == b[0] && Subsequence(a[1..], b[1..]) {
      if c != a[0] { KeepsFrom(a[1..], b[1..], c); }
    } else {
      KeepsFrom(a, b[1..], c);
    }
  }

  lemma LineFrom(block: Block, line: seq<byte>, c: Cell)
    requires c in LineCells(block, line)
    ensures From(line, c.ch)
  {
    var k := LineClass(block, line);
    LineShows(block, line);
    hide LineClass, LineCells;
    var shown := LineCells(block, line);
    var j :| 0 <= j < |shown| && shown[j] == c;
    assert Chars(shown)[j] == c.ch;
    if !IsFence(k.kind) && k.kind != Hr && k.kind != Code {
      var body :| shown == Marker(k.kind, RunOf(line, SPACE)) + body && Keeps(Chars(body), line[k.skip..]);
      var m := |Marker(k.kind, RunOf(line, SPACE))|;
      if j >= m {
        assert Chars(body)[j - m] == c.ch;
        KeepsFrom(Chars(body), line[k.skip..], c.ch);
      } else {
        assert c == Marker(k.kind, RunOf(line, SPACE))[j];
      }
    }
  }

  lemma {:induction false} PageFrom(text: seq<byte>)
    ensures forall c :: c in PageOf(text).shown ==> From(text, c.ch)
    ensures forall c :: c in PageOf(text).line ==> c in text
  {
    if text != [] {
      var p := PageOf(text[..|text| - 1]);
      PageFrom(text[..|text| - 1]);
      forall c | c in LineCells(p.block, p.line) ensures From(text, c.ch) { LineFrom(p.block, p.line, c); }
    }
  }

  /** Every character shown is one of the text's, or a marker's, or a line end. */
  lemma TextFrom(text: seq<byte>)
    ensures forall c :: c in TextCells(text) ==> From(text, c.ch)
  {
    var p := PageOf(text);
    PageFrom(text);
    forall c | c in LineCells(p.block, p.line) ensures From(text, c.ch) { LineFrom(p.block, p.line, c); }
  }
}
