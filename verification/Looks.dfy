/** What lines and texts look like, kind by kind. */
module Looks {
  import opened Bytes
  import opened Terminal
  import opened Markdown
  import opened MarkdownLaws
  import K = Kinds

  /** A character of each style as a terminal shows it: headings bold and underlined, strong text bold,
      emphasis italic, code green, markers and rules faint. */
  lemma StyleLooks(s: Style, c: byte)
    requires c != ESC
    ensures ReceiveAll(BLANK, Paint(PLAIN, [Cell(c, s)])).shown == [(c, Attrs(s.h || s.b, s.d, s.i, s.h, s.c))]
  {
    var cells := [Cell(c, s)];
    TerminalShowsCells(BLANK, PLAIN, cells);
    assert Seen(cells) == [(c, AttrsOf(s))];
  }

  /** A line that shows as `cells` and leaves the block as it is. */
  ghost predicate LooksLike(block: Block, line: seq<byte>, cells: seq<Cell>) {
    forall shown :: EndLine(Page(shown, block, line)) == Page(shown + cells + [Cell(NL, PLAIN)], block, [])
  }

  lemma PlainEnd(block: Block, line: seq<byte>, cells: seq<Cell>)
    requires LineCells(block, line) == cells && !IsFence(LineClass(block, line).kind)
    ensures LooksLike(block, line, cells)
  {
    hide LineCells, LineClass;
  }

  lemma IndentRun(line: seq<byte>, i: nat, r: seq<byte>)
    requires line == Repeat(SPACE, i) + r && r != [] && r[0] != SPACE
    ensures RunOf(line, SPACE) == i
  {
    K.IndentIs(line, i, r);
  }

  /** A heading: its text in heading style, and its mark not at all. */
  lemma HeadingLooks(line: seq<byte>, i: nat, k: nat, t: seq<byte>)
    requires K.HeadingShape(line, i, k, t)
    ensures LooksLike(NoBlock, line, Inline(Span(true, false, false, false, 0), t))
  {
    K.LineIsHeading(line, i + k + 1);
    assert Rest(line, i + k + 1) == t by {
      assert line == (Repeat(SPACE, i) + Repeat(HASH, k) + [SPACE]) + t;
    }
    var text := Inline(Start(Heading), t);
    assert [] + text == text;
    hide LineClass, Inline;
    PlainEnd(NoBlock, line, text);
  }

  /** A quote: a faint bar and a space, and its text without the space after the mark. */
  lemma QuoteLooks(line: seq<byte>, i: nat, t: seq<byte>)
    requires K.QuoteShape(line, i, t) && i + 2 < HOLD
    ensures LooksLike(NoBlock, line,
      [Cell(BAR, DIM), Cell(SPACE, DIM)] + Inline(Span(false, false, false, false, 0), if t != [] && t[0] == SPACE then t[1..] else t))
  {
    var skip := i + 1 + if t != [] && t[0] == SPACE then 1 else 0;
    K.LineIsQuote(line, skip);
    var u := if t != [] && t[0] == SPACE then t[1..] else t;
    assert Rest(line, skip) == u by { assert line == (Repeat(SPACE, i) + [GT]) + t; }
    hide LineClass, Inline;
    PlainEnd(NoBlock, line, [Cell(BAR, DIM), Cell(SPACE, DIM)] + Inline(Start(Quote), u));
  }

  /** A bullet: its indentation, a dash, a space, and its text. */
  lemma BulletLooks(line: seq<byte>, i: nat, c: byte, t: seq<byte>)
    requires K.BulletShape(line, i, c, t) && i + 2 < HOLD
    ensures LooksLike(NoBlock, line,
      Cells(Repeat(SPACE, i), PLAIN) + [Cell(DASH, PLAIN), Cell(SPACE, PLAIN)] + Inline(Span(false, false, false, false, 0), t))
  {
    K.LineIsBullet(line, i + 2);
    IndentRun(line, i, [c] + ([SPACE] + t));
    assert Rest(line, i + 2) == t by { assert line == (Repeat(SPACE, i) + [c] + [SPACE]) + t; }
    hide LineClass, Inline;
    PlainEnd(NoBlock, line, LineCells(NoBlock, line));
  }

  /** A rule: itself, faint. */
  lemma RuleLooks(line: seq<byte>, i: nat, c: byte, k: nat)
    requires K.RuleShape(line, i, c, k) && |line| < HOLD
    ensures LooksLike(NoBlock, line, Cells(line, DIM))
  {
    K.LineIsRule(line);
    hide LineClass;
    PlainEnd(NoBlock, line, Cells(line, DIM));
  }

  /** A line of no other shape: its text, marks aside. */
  lemma PlainLooks(line: seq<byte>)
    requires LineClass(NoBlock, line).kind == Plain
    ensures LooksLike(NoBlock, line, Inline(Span(false, false, false, false, 0), line))
  {
    K.LineIsPlain(line);
    var text := Inline(Start(Plain), line);
    assert [] + text == text && line[0..] == line;
    hide LineClass, Inline;
    PlainEnd(NoBlock, line, text);
  }

  /** A fence opens a block of its mark and its length, and is not shown, not even as an empty line. */
  lemma FenceLooks(line: seq<byte>, i: nat, c: byte, k: nat, t: seq<byte>)
    requires K.FenceShape(line, i, c, k, t) && |line| < HOLD
    ensures forall shown :: EndLine(Page(shown, NoBlock, line)) == Page(shown, InBlock(c, k), [])
  {
    K.LineIsFence(line);
    var r := Repeat(c, k) + t;
    K.IndentIs(line, i, r);
    assert t == [] || t[0] != c;
    K.RunIs(r, c, k, t);
    hide LineClass, RunOf;
    assert forall shown: seq<Cell> :: shown + [] + [] == shown;
  }

  /** In a block every line but a closing one is shown as it is, in code style; a closing one ends the
      block and is not shown. */
  lemma CodeLooks(line: seq<byte>, mark: byte, len: nat)
    requires mark != SPACE && mark != TAB && len > 0
    ensures
      if |line| < HOLD && exists i: nat, k: nat, t :: K.CloseShape(line, mark, len, i, k, t)
      then forall shown :: EndLine(Page(shown, InBlock(mark, len), line)) == Page(shown, NoBlock, [])
      else LooksLike(InBlock(mark, len), line, Cells(line, CODE))
  {
    K.LineIsClose(line, mark, len);
    hide LineClass;
    if LineClass(InBlock(mark, len), line).kind == Close {
      assert forall shown: seq<Cell> :: shown + [] + [] == shown;
    } else {
      PlainEnd(InBlock(mark, len), line, Cells(line, CODE));
    }
  }

  /** A text is rendered line by line. */
  lemma {:induction false} LineTyped(text: seq<byte>, line: seq<byte>)
    requires NL !in line
    ensures PageOf(text + line) == PageOf(text).(line := PageOf(text).line + line)
    ensures PageOf(text + line + [NL]) == EndLine(PageOf(text).(line := PageOf(text).line + line))
    decreases |line|
  {
    hide PageOf, EndLine;
    PageOfMore(text + line, NL);
    if line == [] {
      assert text + line == text && PageOf(text).line + line == PageOf(text).line;
    } else {
      var most, c := line[..|line| - 1], line[|line| - 1];
      LineTyped(text, most);
      PageOfMore(text + most, c);
      assert text + line == (text + most) + [c];
      assert PageOf(text).line + line == (PageOf(text).line + most) + [c];
    }
  }

  /** A last line without its line end looks as if it had one. */
  lemma UnendedLooksEnded(text: seq<byte>)
    requires PageOf(text).line != []
    ensures TextCells(text) == TextCells(text + [NL])
  {
    PageOfMore(text, NL);
    hide PageOf, LineCells, LineClass, NextBlock;
  }
}
