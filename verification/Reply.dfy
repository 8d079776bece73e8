/** Printing a streamed reply: control characters escaped, markdown rendered. */
module Reply {
  import opened Wrappers
  import opened Bytes
  import opened Cleaning
  import E = Escape
  import opened Terminal
  import opened Markdown
  import opened MarkdownLaws
  import opened Render
  import opened Controls

  /** What a piece of text shows as, and what stays held; no text flushes. */
  function Piece(cr: bool, s: Option<E.cstring>): (seq<byte>, bool) {
    if s.Some? then E.Run(cr, s.value, false) else (E.Flush(cr), false)
  }

  lemma PieceIsText(cr: bool, s: Option<E.cstring>)
    ensures forall i :: 0 <= i < |Piece(cr, s).0| ==> Piece(cr, s).0[i] != 0
  {
    if s.Some? { E.RunIsHarmless(cr, s.value, false); }
    var r := Piece(cr, s).0;
    forall i | 0 <= i < |r| ensures r[i] != 0 { assert !E.IsControl(r[i], false); }
  }

  /** Write reply text, escaped and rendered; no text flushes what is held. */
  method Show(e: E.State, m: Renderer, s: Option<E.cstring>)
    requires m.Valid()
    modifies e, m, m.line
    ensures m.Valid() && m.text == old(m.text) + Piece(old(e.cr), s).0 && e.cr == Piece(old(e.cr), s).1
  {
    hide Renderer.Valid;
    PieceIsText(e.cr, s);
    var v := E.Escape(e, s, false);
    assert v == Piece(old(e.cr), s).0;
    m.Feed(v);
  }

  /** What is written for a reply is the painting of its escaped text: the escaped pieces, one after
      the other, or if they are whole characters, the escaped whole. */
  method PrintReply(chunks: seq<E.cstring>) returns (written: seq<byte>)
    ensures written == Paint(PLAIN, TextCells(E.Pieces(false, chunks, false)))
    ensures (forall c :: c in chunks ==> Valid(c)) ==>
      written == Paint(PLAIN, TextCells(E.Complete(Concat<byte>(chunks), false)))
  {
    WholePieces(chunks);
    var e := new E.State();
    var m := new Renderer();
    hide *;
    assert chunks[0..] == chunks && [] + E.Pieces(false, chunks, false) == E.Pieces(false, chunks, false);
    for i := 0 to |chunks|
      invariant m.Valid() && fresh(e) && fresh(m) && fresh(m.line)
      invariant m.text + E.Pieces(e.cr, chunks[i..], false) == E.Pieces(false, chunks, false)
    {
      PiecesStep(e.cr, chunks, i, m.text);
      Show(e, m, Some(chunks[i]));
    }
    assert chunks[|chunks|..] == [];
    LastPiece(e.cr);
    Show(e, m, None);
    written := m.End();
  }

  lemma LastPiece(cr: bool)
    ensures E.Pieces(cr, [], false) == Piece(cr, None).0
  {
  }

  lemma WholePieces(chunks: seq<E.cstring>)
    ensures (forall c :: c in chunks ==> Valid(c)) ==> E.Pieces(false, chunks, false) == E.Complete(Concat<byte>(chunks), false)
    ensures (forall c :: c in chunks ==> Valid(c)) ==> Valid(Concat<byte>(chunks))
  {
    if forall c :: c in chunks ==> Valid(c) { E.ChunksShowAsWhole(false, chunks, false); }
  }

  lemma PiecesStep(cr: bool, chunks: seq<E.cstring>, i: nat, text: seq<byte>)
    requires i < |chunks|
    ensures
      var r := Piece(cr, Some(chunks[i]));
      text + E.Pieces(cr, chunks[i..], false) == (text + r.0) + E.Pieces(r.1, chunks[i + 1..], false)
  {
    hide E.Run;
    var r := Piece(cr, Some(chunks[i]));
    assert chunks[i..][1..] == chunks[i + 1..];
    assert text + (r.0 + E.Pieces(r.1, chunks[i + 1..], false)) == (text + r.0) + E.Pieces(r.1, chunks[i + 1..], false);
  }

  /** A reply at the terminal, in whatever pieces it comes. No control character of one byte is shown
      but newline and tab, and every ESC starts a sequence of the renderer's own. The terminal is
      garbled exactly when a line of the escaped text is rendered to a C1 control; else it shows every
      character under the style meant for it and is left in its default style. Whole characters, one
      piece or many, never garble it. */
  lemma ReplyAtTheTerminal(chunks: seq<seq<byte>>)
    ensures
      var text := E.Pieces(false, chunks, false);
      var cells := TextCells(text);
      var after := ReceiveAll(BLANK, Paint(PLAIN, cells));
      && (forall c :: c in cells ==> !E.IsControl(c.ch, false))
      && (after.garbled <==> TextMakesC1(text, true))
      && (!after.garbled ==> after == Term(DEFAULT, Ground, Seen(cells), false))
      && ((forall c :: c in chunks ==> Valid(c)) ==>
        text == E.Complete(Concat<byte>(chunks), false) && !after.garbled && E.Harmless(Chars(cells), false))
  {
    var text := E.Pieces(false, chunks, false);
    E.PiecesAreText(false, chunks);
    if forall c :: c in chunks ==> Valid(c) {
      E.ChunksShowAsWhole(false, chunks, false);
      E.CompleteLeads(Concat<byte>(chunks), false);
      assert E.LeadsFollowed(text);
    }
    hide E.Pieces, E.LeadsFollowed, E.Complete, Concat, Valid;
    EscapedTextAtTheTerminal(text);
  }

  lemma EscapedTextAtTheTerminal(text: seq<byte>)
    requires forall i :: 0 <= i < |text| ==> !E.IsControl(text[i], false)
    ensures
      var cells := TextCells(text);
      var after := ReceiveAll(BLANK, Paint(PLAIN, cells));
      && (forall c :: c in cells ==> !E.IsControl(c.ch, false))
      && (after.garbled <==> TextMakesC1(text, true))
      && (!after.garbled ==> after == Term(DEFAULT, Ground, Seen(cells), false))
      && (E.LeadsFollowed(text) ==> !after.garbled && E.Harmless(Chars(cells), false))
  {
    var cells := TextCells(text);
    NoControlShown(text);
    TextEndsPlain(text);
    TextC1(text, true);
    TextC1(text, false);
    TextEndsOnLine(text);
    if E.LeadsFollowed(text) {
      WholeTextMakesNoC1(text, true);
      WholeTextMakesNoC1(text, false);
    }
    C1InChars(cells);
    CellsAtTheTerminal(cells);
    hide *;
  }

  lemma CellsAtTheTerminal(cells: seq<Cell>)
    requires forall c :: c in cells ==> !E.IsControl(c.ch, false)
    requires LastStyle(PLAIN, cells) == PLAIN && (cells == [] || cells[|cells| - 1].ch == NL)
    ensures
      var after := ReceiveAll(BLANK, Paint(PLAIN, cells));
      && (after.garbled <==> C1Cells(cells, true))
      && (!after.garbled ==> after == Term(DEFAULT, Ground, Seen(cells), false))
  {
    hide Paint, ReceiveAll, C1Cells, Seen;
    GarbledByC1(cells);
    if !C1Cells(cells, true) {
      TerminalShowsCells(BLANK, PLAIN, cells);
      assert [] + Seen(cells) == Seen(cells);
    }
  }

  lemma NoControlShown(text: seq<byte>)
    requires forall i :: 0 <= i < |text| ==> !E.IsControl(text[i], false)
    ensures forall c :: c in TextCells(text) ==> !E.IsControl(c.ch, false)
  {
    TextFrom(text);
    forall c | c in TextCells(text) ensures !E.IsControl(c.ch, false) {
      if c.ch in text {
        var i :| 0 <= i < |text| && text[i] == c.ch;
        assert !E.IsControl(text[i], false);
      }
    }
  }

  lemma TextEndsOnLine(text: seq<byte>)
    ensures
      var cells := TextCells(text);
      cells == [] || cells[|cells| - 1].ch == NL
  {
    hide PageOf, EndLine, C1Cells, LineMakesC1;
    ShownEnds(text);
    EndLineC1(PageOf(text), true);
  }

  lemma C1InChars(cells: seq<Cell>)
    requires forall c :: c in cells ==> !E.IsControl(c.ch, false)
    ensures !C1Cells(cells, false) ==> E.Harmless(Chars(cells), false)
  {
    var s := Chars(cells);
    assert forall i :: 0 <= i < |s| ==> cells[i] in cells;
    if !E.Harmless(s, false) {
      var i :| 0 <= i < |s| && E.C1At(s, i);
      assert C1CellsAt(cells, i, false);
    }
  }

  /** An empty code span between the two bytes of a C1 control is enough: escaping leaves them, as
      they are not next to each other, and rendering joins them. */
  lemma EmptySpanMakesC1()
    ensures
      var reply: seq<byte> := [LEAD, TICK, TICK, 0x9B];
      && E.Harmless(reply, false) && E.Complete(reply, false) == reply
      && Chars(TextCells(reply)) == [LEAD, 0x9B, NL]
      && ReceiveAll(BLANK, Paint(PLAIN, TextCells(reply))).garbled
  {
    var reply: seq<byte> := [LEAD, TICK, TICK, 0x9B];
    assert E.Harmless(reply, false);
    E.HarmlessIsKept(reply, false);
    EmptySpanShows(reply);
    var cells := TextCells(reply);
    hide TextCells, Paint;
    assert C1CellsAt(cells, 0, true);
    GarbledByC1(cells);
  }

  lemma EmptySpanShows(reply: seq<byte>)
    requires reply == [LEAD, TICK, TICK, 0x9B]
    ensures TextCells(reply) == [Cell(LEAD, PLAIN), Cell(0x9B, PLAIN), Cell(NL, PLAIN)]
  {
    var sp := Start(Plain);
    assert reply[1..] == [TICK, TICK, 0x9B] && reply[1..][1..] == [TICK, 0x9B] && [TICK, 0x9B][1..] == [0x9B];
    var later := sp.(prev := TICK);
    assert [0x9B][1..] == [];
    assert Inline(later, [0x9B]) == One(later, 0x9B);
    assert Inline(sp.(prev := TICK, code := true), [TICK, 0x9B]) == One(later, 0x9B);
    assert Inline(sp.(prev := LEAD), [TICK, TICK, 0x9B]) == One(later, 0x9B);
    assert Inline(sp, reply) == One(sp, LEAD) + One(later, 0x9B);
    hide Inline;
    assert LineClass(NoBlock, reply) == Class(Plain, 0);
    assert LineCells(NoBlock, reply) == [] + Inline(sp, reply);
    UnendedLine(reply);
  }

  lemma {:induction false} UnendedLine(s: seq<byte>)
    requires NL !in s
    ensures PageOf(s) == Page([], NoBlock, s)
  {
    if s != [] {
      var most, c := s[..|s| - 1], s[|s| - 1];
      UnendedLine(most);
      PageOfMore(most, c);
      hide PageOf, EndLine;
      assert most + [c] == s;
    }
  }

  /** At every moment, between any two characters of ESC-free text that makes no C1 control: the
      terminal that got what has been written is between sequences, has the attributes of the
      renderer's style in force, and showed every character under the style meant for it. */
  lemma StyleIsInForce(m: Renderer)
    requires m.Valid() && ESC !in m.text && !TextMakesC1(m.text, true)
    ensures
      var t := ReceiveAll(BLANK, m.out);
      Idle(t) && !t.garbled && t.attrs == AttrsOf(m.style) && t.shown == Seen(m.cells)
  {
    ShownSoFar(m);
    ShownIsOfText(m);
    TextC1(m.text, true);
    hide Renderer.LineMiddle, Renderer.LineStart, Paint, PageOf, TextCells, TextMakesC1;
    C1OfPrefix(m.cells, TextCells(m.text));
    TerminalShowsCells(BLANK, PLAIN, m.cells);
    assert [] + Seen(m.cells) == Seen(m.cells);
  }

  lemma C1OfPrefix(a: seq<Cell>, b: seq<Cell>)
    requires a <= b && !C1Cells(b, true)
    ensures !C1Cells(a, true)
  {
    if C1Cells(a, true) {
      var i :| 0 <= i < |a| - 1 && C1CellsAt(a, i, true);
      assert C1CellsAt(b, i, true);
    }
  }

  /** What has been shown is the start of what the text shows. */
  lemma ShownIsOfText(m: Renderer)
    requires m.Valid()
    ensures m.cells <= TextCells(m.text)
  {
    var p := PageOf(m.text);
    ShownSoFarEndsLine(p);
    hide PageOf, EndLine, Renderer.Painted, Renderer.HoldsRun;
    if m.mid { MiddleShows(m, p); }
  }

  lemma ShownSoFarEndsLine(p: Page)
    ensures p.shown <= EndLine(p).shown && p.shown + LineCells(p.block, p.line) <= EndLine(p).shown
  {
  }

  lemma MiddleShows(m: Renderer, p: Page)
    requires m.LineMiddle(p)
    ensures m.cells <= p.shown + LineCells(p.block, p.line)
  {
    hide LineClass, LineCells, Renderer.Coming;
    assert p.line + [] == p.line;
    assert LineCells(p.block, p.line + []) == m.cells[|p.shown|..] + m.Coming([]);
  }

  lemma ShownSoFar(m: Renderer)
    requires m.Valid() && ESC !in m.text
    ensures forall c :: c in m.cells ==> c.ch != ESC
  {
    ShownIsOfText(m);
    TextFrom(m.text);
    hide TextCells;
    var cells := TextCells(m.text);
    forall c | c in m.cells ensures c.ch != ESC {
      var i :| 0 <= i < |m.cells| && m.cells[i] == c;
      assert cells[i] in cells;
    }
  }
}
