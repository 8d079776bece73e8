/** Which texts are rendered so that two of their bytes make up a C1 control. */
module Controls {
  import opened Bytes
  import E = Escape
  import opened Terminal
  import opened Markdown
  import opened MarkdownLaws

  // ---- a line, step by step ----

  /** What the start of a text shows, where rendering then stands, and how much of it that was. */
  datatype Step = Step(cells: seq<Cell>, span: Span, used: nat)

  /** The first step of rendering `s`, when `next` follows it. */
  function StepOf(sp: Span, s: seq<byte>, next: byte): (r: Step)
    requires s != []
    ensures 1 <= r.used <= |s|
  {
    var c := s[0];
    if sp.code then
      if c == TICK then Step([], sp.(code := false, prev := c), 1) else Step(One(sp, c), sp.(prev := c), 1)
    else if c == BACK && |s| > 1 && Escapable(s[1]) then Step(One(sp, s[1]), sp.(prev := s[1]), 2)
    else if c == STAR || c == LOW then
      var n := RunOf(s, c);
      if Delimits(sp, c, n, if n < |s| then s[n] else next) then Step([], Toggle(sp, c, n), n)
      else Step(Cells(s[..n], StyleOf(sp)), sp.(prev := c), n)
    else if c == TICK then Step([], sp.(code := true, prev := c), 1)
    else Step(One(sp, c), sp.(prev := c), 1)
  }

  lemma InlineStep(sp: Span, s: seq<byte>)
    requires s != []
    ensures
      var r := StepOf(sp, s, 0);
      Inline(sp, s) == r.cells + Inline(r.span, s[r.used..])
  {
    hide Delimits;
  }

  /** A step ends at the latest where a byte above ASCII stands. */
  lemma StepOfMore(sp: Span, s: seq<byte>, next: byte, rest: seq<byte>, last: byte)
    requires s != [] && next >= 0x80
    ensures StepOf(sp, s + [next] + rest, last) == StepOf(sp, s, next)
  {
    var all := s + [next] + rest;
    assert all[0] == s[0] && all[1] == if |s| > 1 then s[1] else next;
    if s[0] == STAR || s[0] == LOW {
      Associate(s, [next], rest);
      Onward(s, [next] + rest, s[0]);
      var n := RunOf(s, s[0]);
      assert all[..n] == s[..n] && all[n] == if n < |s| then s[n] else next;
    }
    hide RunOf, Delimits;
  }

  /** What a part of a line shows, and where rendering then stands. */
  datatype Shown = Shown(cells: seq<Cell>, span: Span)

  /** The part `s` of a line, when `next` follows it. */
  function Part(sp: Span, s: seq<byte>, next: byte): Shown
    decreases |s|
  {
    if s == [] then Shown([], sp)
    else
      var r := StepOf(sp, s, next);
      var later := Part(r.span, s[r.used..], next);
      Shown(r.cells + later.cells, later.span)
  }

  /** A line is rendered part by part where a byte above ASCII follows. */
  lemma {:induction false} PartOfLine(sp: Span, s: seq<byte>, next: byte, rest: seq<byte>)
    requires next >= 0x80
    ensures Inline(sp, s + [next] + rest) == Part(sp, s, next).cells + Inline(Part(sp, s, next).span, [next] + rest)
    decreases |s|
  {
    var all := s + [next] + rest;
    if s == [] {
      assert all == [next] + rest && [] + Inline(sp, all) == Inline(sp, all);
    } else {
      StepOfMore(sp, s, next, rest, 0);
      InlineStep(sp, all);
      var r := StepOf(sp, s, next);
      assert Part(sp, s, next) == Shown(r.cells + Part(r.span, s[r.used..], next).cells, Part(r.span, s[r.used..], next).span);
      hide Inline, Part, StepOf;
      assert all[r.used..] == s[r.used..] + [next] + rest;
      PartOfLine(r.span, s[r.used..], next, rest);
      var p := Part(r.span, s[r.used..], next);
      Associate(r.cells, p.cells, Inline(p.span, [next] + rest));
    }
  }

  lemma PartStep(sp: Span, p: seq<byte>, a: seq<byte>, next: byte, rest: seq<byte>)
    requires next >= 0x80 && StepUses(sp, p, a + [next] + rest)
    ensures
      var r := StepOf(sp, p + (a + [next] + rest), 0);
      Part(sp, p + a, next) == Shown(r.cells + Part(r.span, a, next).cells, Part(r.span, a, next).span)
  {
    assert p + (a + [next] + rest) == (p + a) + [next] + rest;
    StepOfMore(sp, p + a, next, rest, 0);
    assert (p + a)[|p|..] == a;
  }

  /** The first step of `p + rest` is `p`. */
  predicate StepUses(sp: Span, p: seq<byte>, rest: seq<byte>) { p != [] && StepOf(sp, p + rest, 0).used == |p| }

  lemma TakeStep(sp: Span, s: seq<byte>) returns (p: seq<byte>, rest: seq<byte>)
    requires s != []
    ensures s == p + rest && StepUses(sp, p, rest)
    ensures
      var r := StepOf(sp, s, 0);
      Inline(sp, s) == r.cells + Inline(r.span, rest)
  {
    InlineStep(sp, s);
    var n := StepOf(sp, s, 0).used;
    p, rest := s[..n], s[n..];
    hide StepOf, Inline;
    assert s == p + rest;
  }

  // ---- where a C1 control comes from ----

  /** After `a`, a lead byte and `c` are shown next to each other: what stands between them is
      rendered to nothing, and with `styled` it leaves the style as it was. */
  predicate Meets(sp: Span, a: seq<byte>, m: seq<byte>, c: byte, styled: bool) {
    var at := Part(sp, a, LEAD).span;
    var between := Part(at.(prev := LEAD), m, c);
    IsC1(c) && between.cells == [] && (styled ==> StyleOf(between.span) == StyleOf(at))
  }

  ghost predicate MakesC1(sp: Span, s: seq<byte>, styled: bool) {
    exists a, m, c: byte, b :: s == a + [LEAD] + m + [c] + b && Meets(sp, a, m, c, styled)
  }

  /** A line's text is rendered to a C1 control exactly when it has a lead byte and a second byte
      with nothing between them that is shown, or that changes the style. */
  lemma InlineMakesC1(sp: Span, s: seq<byte>, styled: bool)
    ensures C1Cells(Inline(sp, s), styled) <==> MakesC1(sp, s, styled)
  {
    if C1Cells(Inline(sp, s), styled) {
      var k :| 0 <= k < |Inline(sp, s)| - 1 && C1CellsAt(Inline(sp, s), k, styled);
      hide Inline, Meets;
      var a, m, c, b := FindC1(sp, s, k, styled);
    }
    if MakesC1(sp, s, styled) {
      var a, m, c: byte, b :| s == a + [LEAD] + m + [c] + b && Meets(sp, a, m, c, styled);
      hide Inline, Meets;
      ShowsC1(sp, a, m, c, b, styled);
    }
  }

  lemma ShowsC1(sp: Span, a: seq<byte>, m: seq<byte>, c: byte, b: seq<byte>, styled: bool)
    requires Meets(sp, a, m, c, styled)
    ensures C1Cells(Inline(sp, a + [LEAD] + m + [c] + b), styled)
  {
    var r := m + [c] + b;
    assert a + [LEAD] + m + [c] + b == a + [LEAD] + r;
    PartOfLine(sp, a, LEAD, r);
    var before := Part(sp, a, LEAD);
    PlainFirst(before.span, LEAD, r);
    var at := before.span.(prev := LEAD);
    PartOfLine(at, m, c, b);
    var between := Part(at, m, c);
    PlainFirst(between.span, c, b);
    hide Inline, Part;
    NextToEachOther(before.cells, Cell(LEAD, StyleOf(before.span)), Cell(c, StyleOf(between.span)),
      Inline(between.span.(prev := c), b), styled);
    assert [] + Inline(between.span, [c] + b) == Inline(between.span, [c] + b);
  }

  lemma NextToEachOther(cells: seq<Cell>, x: Cell, y: Cell, rest: seq<Cell>, styled: bool)
    requires x.ch == LEAD && IsC1(y.ch) && (styled ==> x.style == y.style)
    ensures C1Cells(cells + ([x] + ([y] + rest)), styled)
  {
    assert C1CellsAt(cells + ([x] + ([y] + rest)), |cells|, styled);
  }

  /** A step shows nothing, a character of its own, or marks. */
  lemma StepShows(sp: Span, s: seq<byte>)
    requires s != []
    ensures
      var r := StepOf(sp, s, 0);
      && (forall i :: 0 <= i < |r.cells| && r.cells[i].ch >= 0x80 ==> r.cells == One(sp, s[0]))
      && (r.cells == One(sp, s[0]) && s[0] >= 0x80 ==> r.used == 1 && r.span == sp.(prev := s[0]))
  {
    hide Delimits;
    var r := StepOf(sp, s, 0);
    if !sp.code && (s[0] == STAR || s[0] == LOW) {
      RunIs(s, s[0]);
      assert forall i :: 0 <= i < |r.cells| ==> r.cells[i].ch == s[0];
    }
  }

  lemma {:induction false} FindC1(sp: Span, s: seq<byte>, k: nat, styled: bool)
    returns (a: seq<byte>, m: seq<byte>, c: byte, b: seq<byte>)
    requires k + 1 < |Inline(sp, s)| && C1CellsAt(Inline(sp, s), k, styled)
    ensures s == a + [LEAD] + m + [c] + b && Meets(sp, a, m, c, styled)
    decreases |s|
  {
    var p, rest := TakeStep(sp, s);
    StepShows(sp, s);
    var r := StepOf(sp, s, 0);
    hide Inline, StepOf, Part, Meets;
    if k >= |r.cells| {
      assert C1CellsAt(Inline(r.span, rest), k - |r.cells|, styled);
      a, m, c, b := FindC1(r.span, rest, k - |r.cells|, styled);
      MeetsLater(sp, p, a, m, c, b, styled);
      Regroup(p, a, m, c, b);
      a := p + a;
    } else {
      assert Inline(sp, s)[k] == r.cells[k] && Inline(sp, s)[1] == Inline(r.span, rest)[0];
      m, c, b := FirstShown(r.span, rest);
      a := [];
      MeetsFirst(sp, m, c, styled);
      assert p == [LEAD] && s == a + [LEAD] + m + [c] + b;
    }
  }

  lemma MeetsFirst(sp: Span, m: seq<byte>, c: byte, styled: bool)
    requires IsC1(c) && Part(sp.(prev := LEAD), m, c).cells == []
    requires styled ==> StyleOf(Part(sp.(prev := LEAD), m, c).span) == StyleOf(sp)
    ensures Meets(sp, [], m, c, styled)
  {
  }

  lemma Regroup(p: seq<byte>, a: seq<byte>, m: seq<byte>, c: byte, b: seq<byte>)
    ensures p + (a + [LEAD] + m + [c] + b) == p + a + [LEAD] + m + [c] + b
    ensures a + [LEAD] + m + [c] + b == a + [LEAD] + (m + [c] + b)
  {
  }

  lemma MeetsLater(sp: Span, p: seq<byte>, a: seq<byte>, m: seq<byte>, c: byte, b: seq<byte>, styled: bool)
    requires StepUses(sp, p, a + [LEAD] + m + [c] + b)
    requires Meets(StepOf(sp, p + (a + [LEAD] + m + [c] + b), 0).span, a, m, c, styled)
    ensures Meets(sp, p + a, m, c, styled)
  {
    Regroup(p, a, m, c, b);
    PartStep(sp, p, a, LEAD, m + [c] + b);
    hide StepOf, StepUses, Part;
  }

  lemma {:induction false} FirstShown(sp: Span, s: seq<byte>) returns (m: seq<byte>, c: byte, b: seq<byte>)
    requires Inline(sp, s) != [] && IsC1(Inline(sp, s)[0].ch)
    ensures s == m + [c] + b && c == Inline(sp, s)[0].ch && Part(sp, m, c).cells == []
    ensures StyleOf(Part(sp, m, c).span) == Inline(sp, s)[0].style
    decreases |s|
  {
    var p, rest := TakeStep(sp, s);
    StepShows(sp, s);
    var r := StepOf(sp, s, 0);
    NothingIsAPart(sp, s[0]);
    hide Inline, StepOf, Part, StepUses, StyleOf;
    if r.cells == [] {
      assert [] + Inline(r.span, rest) == Inline(r.span, rest);
      m, c, b := FirstShown(r.span, rest);
      PartStep(sp, p, m, c, b);
      Associate(p, m + [c], b);
      Associate(p, m, [c]);
      assert [] + Part(r.span, m, c).cells == Part(r.span, m, c).cells;
      m := p + m;
    } else {
      assert Inline(sp, s)[0] == r.cells[0];
      m, c, b := [], s[0], s[1..];
      assert s == m + [c] + b;
    }
  }

  lemma NothingIsAPart(sp: Span, c: byte)
    ensures Part(sp, [], c) == Shown([], sp) && One(sp, c)[0] == Cell(c, StyleOf(sp))
  {
  }

  // ---- lines and texts ----

  predicate HasC1(s: seq<byte>) { exists i :: 0 <= i < |s| && E.C1At(s, i) }

  /** A line is rendered to a C1 control: rules and code show it if they have it, other lines if
      their text makes one. */
  ghost predicate LineMakesC1(block: Block, line: seq<byte>, styled: bool) {
    var k := LineClass(block, line);
    match k.kind
    case Fence => false
    case Close => false
    case Hr => HasC1(line)
    case Code => HasC1(line)
    case _ => MakesC1(Start(k.kind), Rest(line, k.skip), styled)
  }

  lemma C1InCells(s: seq<byte>, style: Style, styled: bool)
    ensures C1Cells(Cells(s, style), styled) <==> HasC1(s)
  {
    var cells := Cells(s, style);
    if HasC1(s) {
      var i :| 0 <= i < |s| && E.C1At(s, i);
      assert C1CellsAt(cells, i, styled);
    }
    if C1Cells(cells, styled) {
      var i :| 0 <= i < |cells| - 1 && C1CellsAt(cells, i, styled);
      assert E.C1At(s, i);
    }
  }

  /** A C1 control cannot span two parts when the first ends or the second starts with neither of
      its bytes. */
  lemma C1Concat(a: seq<Cell>, b: seq<Cell>, styled: bool)
    requires a == [] || b == [] || a[|a| - 1].ch != LEAD || !IsC1(b[0].ch)
    ensures C1Cells(a + b, styled) <==> C1Cells(a, styled) || C1Cells(b, styled)
  {
    var all := a + b;
    if C1Cells(all, styled) {
      var i :| 0 <= i < |all| - 1 && C1CellsAt(all, i, styled);
      if i < |a| - 1 { assert C1CellsAt(a, i, styled); } else if i >= |a| { assert C1CellsAt(b, i - |a|, styled); }
    }
    if C1Cells(a, styled) {
      var i :| 0 <= i < |a| - 1 && C1CellsAt(a, i, styled);
      assert C1CellsAt(all, i, styled);
    }
    if C1Cells(b, styled) {
      var i :| 0 <= i < |b| - 1 && C1CellsAt(b, i, styled);
      assert C1CellsAt(all, |a| + i, styled);
    }
  }

  lemma LineC1(block: Block, line: seq<byte>, styled: bool)
    ensures C1Cells(LineCells(block, line), styled) <==> LineMakesC1(block, line, styled)
  {
    var k := LineClass(block, line);
    hide LineClass, Inline, MakesC1, Classify;
    match k.kind
    case Fence =>
    case Close =>
    case Hr => C1InCells(line, DIM, styled);
    case Code => C1InCells(line, CODE, styled);
    case _ =>
      var text := Inline(Start(k.kind), Rest(line, k.skip));
      var marker := Marker(k.kind, RunOf(line, SPACE));
      InlineMakesC1(Start(k.kind), Rest(line, k.skip), styled);
      MarkerHasNoC1(k.kind, RunOf(line, SPACE), styled);
      C1Concat(marker, text, styled);
  }

  lemma MarkerHasNoC1(kind: Kind, i: nat, styled: bool)
    ensures forall j :: 0 <= j < |Marker(kind, i)| ==> Marker(kind, i)[j].ch < 0x80
    ensures !C1Cells(Marker(kind, i), styled)
  {
  }

  /** Some line of the text, the one that ends at `n`, is rendered to a C1 control. */
  ghost predicate TextMakesC1(text: seq<byte>, styled: bool) {
    exists n :: 0 <= n <= |text| && LineEndingMakesC1(text, n, styled)
  }

  ghost predicate LineEndingMakesC1(text: seq<byte>, n: nat, styled: bool)
    requires n <= |text|
  {
    var p := PageOf(text[..n]);
    (n == |text| || text[n] == NL) && LineMakesC1(p.block, p.line, styled)
  }

  lemma EndLineC1(p: Page, styled: bool)
    requires p.shown == [] || p.shown[|p.shown| - 1].ch == NL
    ensures C1Cells(EndLine(p).shown, styled) <==> C1Cells(p.shown, styled) || LineMakesC1(p.block, p.line, styled)
    ensures EndLine(p).shown == [] || EndLine(p).shown[|EndLine(p).shown| - 1].ch == NL
  {
    var line, end := LineCells(p.block, p.line), EndCells(LineClass(p.block, p.line).kind);
    LineC1(p.block, p.line, styled);
    assert IsFence(LineClass(p.block, p.line).kind) ==> line == [];
    hide LineCells, LineClass, NextBlock, LineMakesC1;
    C1Concat(p.shown, line, styled);
    C1Concat(p.shown + line, end, styled);
  }

  lemma {:induction false} ShownEnds(text: seq<byte>)
    ensures
      var s := PageOf(text).shown;
      s == [] || s[|s| - 1].ch == NL
  {
    if text != [] {
      var most, c := text[..|text| - 1], text[|text| - 1];
      assert most + [c] == text;
      hide *;
      ShownEnds(most);
      PageOfMore(most, c);
      TypedEnds(PageOf(most), c);
    }
  }

  lemma TypedEnds(p: Page, c: byte)
    requires p.shown == [] || p.shown[|p.shown| - 1].ch == NL
    ensures
      var s := Type(p, c).shown;
      s == [] || s[|s| - 1].ch == NL
  {
    EndLineC1(p, true);
    hide EndLine, C1Cells, LineMakesC1;
  }

  /** Some complete line of the text is. */
  ghost predicate PageMakesC1(text: seq<byte>, styled: bool) {
    exists n :: 0 <= n < |text| && text[n] == NL && LineEndingMakesC1(text, n, styled)
  }

  lemma {:induction false} PageC1(text: seq<byte>, styled: bool)
    ensures C1Cells(PageOf(text).shown, styled) <==> PageMakesC1(text, styled)
  {
    if text != [] {
      var most, c := text[..|text| - 1], text[|text| - 1];
      assert text == most + [c];
      hide *;
      PageC1(most, styled);
      ShownEnds(most);
      EndLineC1(PageOf(most), styled);
      PageOfMore(most, c);
      LinesBefore(most, c, styled);
      TypedC1(PageOf(most), c, styled);
    }
  }

  lemma TypedC1(p: Page, c: byte, styled: bool)
    requires C1Cells(EndLine(p).shown, styled) <==> C1Cells(p.shown, styled) || LineMakesC1(p.block, p.line, styled)
    ensures C1Cells(Type(p, c).shown, styled) <==> C1Cells(p.shown, styled) || (c == NL && LineMakesC1(p.block, p.line, styled))
  {
    hide EndLine, C1Cells, LineMakesC1;
  }

  lemma LinesBefore(most: seq<byte>, c: byte, styled: bool)
    ensures PageMakesC1(most + [c], styled) <==>
      PageMakesC1(most, styled) || (c == NL && LineMakesC1(PageOf(most).block, PageOf(most).line, styled))
  {
    hide LineMakesC1, PageOf;
    var text := most + [c];
    assert text[..|most|] == most;
    forall n | 0 <= n < |most| && most[n] == NL
      ensures LineEndingMakesC1(text, n, styled) <==> LineEndingMakesC1(most, n, styled)
    {
      assert text[..n] == most[..n];
    }
    assert c == NL ==> (LineEndingMakesC1(text, |most|, styled) <==> LineMakesC1(PageOf(most).block, PageOf(most).line, styled));
  }

  /** What a text is rendered to has a C1 control exactly when one of its lines makes one. */
  lemma TextC1(text: seq<byte>, styled: bool)
    ensures C1Cells(TextCells(text), styled) <==> TextMakesC1(text, styled)
  {
    hide LineMakesC1, EndLine, PageOf, C1Cells;
    var p := PageOf(text);
    PageC1(text, styled);
    ShownEnds(text);
    EndLineC1(p, styled);
    EmptyLineMakesNoC1(p.block, styled);
    LastLineToo(text, styled);
  }

  lemma LastLineToo(text: seq<byte>, styled: bool)
    ensures TextMakesC1(text, styled) <==>
      PageMakesC1(text, styled) || LineMakesC1(PageOf(text).block, PageOf(text).line, styled)
  {
    hide LineMakesC1, PageOf;
    assert text[..|text|] == text;
    assert LineEndingMakesC1(text, |text|, styled) <==> LineMakesC1(PageOf(text).block, PageOf(text).line, styled);
  }

  lemma EmptyLineMakesNoC1(block: Block, styled: bool)
    ensures !LineMakesC1(block, [], styled)
  {
    hide LineClass;
  }

  // ---- whole characters ----

  /** The unfinished line is the end of the text. */
  lemma {:induction false} LineEndsText(text: seq<byte>) returns (before: seq<byte>)
    ensures text == before + PageOf(text).line
  {
    if text == [] {
      before := [];
    } else {
      var most, c := text[..|text| - 1], text[|text| - 1];
      before := LineEndsText(most);
      var line := PageOf(most).line;
      hide EndLine;
      PageOfMore(most, c);
      assert text == most + [c];
      hide PageOf;
      if c == NL {
        before := text;
        EndedLineIsEmpty(PageOf(most));
        assert text + [] == text;
      } else {
        Associate(before, line, [c]);
      }
    }
  }

  lemma EndedLineIsEmpty(p: Page)
    ensures EndLine(p).line == []
  {
  }

  lemma PartIsShown(sp: Span, m: seq<byte>, next: byte)
    requires m != [] && m[0] >= 0x80
    ensures Part(sp, m, next).cells != []
  {
  }

  /** Text whose lead bytes are followed so makes no C1 control, across a change of style or not. */
  lemma WholeTextMakesNoC1(text: seq<byte>, styled: bool)
    requires E.LeadsFollowed(text)
    ensures !TextMakesC1(text, styled)
  {
    hide LineMakesC1, PageOf;
    forall n | 0 <= n <= |text| && (n == |text| || text[n] == NL) ensures !LineEndingMakesC1(text, n, styled) {
      var p := PageOf(text[..n]);
      var before := LineEndsText(text[..n]);
      assert forall i :: 0 <= i < |p.line| ==> p.line[i] == text[|before| + i];
      WholeLineMakesNoC1(p.block, p.line, styled);
    }
  }

  lemma WholeLineMakesNoC1(block: Block, line: seq<byte>, styled: bool)
    requires E.LeadsFollowed(line)
    ensures !LineMakesC1(block, line, styled)
  {
    var k := LineClass(block, line);
    hide LineClass, Meets;
    var s := Rest(line, k.skip);
    assert E.LeadsFollowed(s);
    if MakesC1(Start(k.kind), s, styled) {
      var a, m, c: byte, b :| s == a + [LEAD] + m + [c] + b && Meets(Start(k.kind), a, m, c, styled);
      assert s[|a|] == LEAD && s[|a| + 1] == if m == [] then c else m[0];
      NotMet(Start(k.kind), a, m, c, styled);
    }
  }

  lemma NotMet(sp: Span, a: seq<byte>, m: seq<byte>, c: byte, styled: bool)
    requires if m == [] then c >= 0xA0 else m[0] >= 0xA0
    ensures !Meets(sp, a, m, c, styled)
  {
    var at := Part(sp, a, LEAD).span.(prev := LEAD);
    if m != [] { PartIsShown(at, m, c); }
  }
}
