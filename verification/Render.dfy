/** The streaming renderer: it shows each character as soon as what it means is certain. */
module Render {
  import opened Bytes
  import opened Terminal
  import opened Markdown
  import opened Sgr

  /** Where the renderer stands in a line's text: `held` has been read, but not yet shown. */
  datatype Pos = Pos(span: Span, held: seq<byte>)

  /** What is still to be shown when `rest` ends the line. */
  function Ahead(p: Pos, rest: seq<byte>): seq<Cell> { Inline(p.span, p.held + rest) }

  /** A run that ends before `next` (0: the line does) delimits emphasis or is literal. */
  lemma AheadOfRun(sp: Span, c: byte, n: nat, next: byte, rest: seq<byte>)
    requires !sp.code && (c == STAR || c == LOW) && n > 0
    requires if rest == [] then next == 0 else rest[0] == next && next != c
    ensures Ahead(Pos(sp, Repeat(c, n)), rest) ==
      if Delimits(sp, c, n, next) then Inline(Toggle(sp, c, n), rest)
      else Cells(Repeat(c, n), StyleOf(sp)) + Inline(sp.(prev := c), rest)
  {
    var run := Repeat(c, n);
    var s := run + rest;
    RunOfRepeat(c, n, rest);
    assert s[0] == c && s[..n] == run && s[n..] == rest;
  }

  /** The first character of a text, with nothing held before it. */
  lemma InlineFirst(sp: Span, c: byte, rest: seq<byte>)
    ensures
      if !sp.code && (c == BACK || c == STAR || c == LOW) then Inline(sp, [c] + rest) == Ahead(Pos(sp, [c]), rest)
      else if c == TICK then Inline(sp, [c] + rest) == Ahead(Pos(sp.(code := !sp.code, prev := c), []), rest)
      else Inline(sp, [c] + rest) == One(sp, c) + Ahead(Pos(sp.(prev := c), []), rest)
  {
    assert ([c] + rest)[1..] == rest && [] + rest == rest;
  }

  /** A held backslash escapes the character after it, or shows itself. */
  lemma AheadOfBack(sp: Span, c: byte, rest: seq<byte>)
    requires !sp.code
    ensures Ahead(Pos(sp, [BACK]), [c] + rest) ==
      if Escapable(c) then One(sp, c) + Ahead(Pos(sp.(prev := c), []), rest)
      else One(sp, BACK) + Inline(sp.(prev := BACK), [c] + rest)
  {
    var s := [BACK] + ([c] + rest);
    assert s[1..] == [c] + rest && s[2..] == rest && [] + rest == rest;
  }

  class Renderer {
    const line: array<byte>  // what is held of an undecided line
    var n: nat
    var mid: bool            // the line has been decided
    var block: Kind
    var fence: byte          // the mark of the open code block, or 0
    var fenceN: nat
    var emB: bool
    var emI: bool
    var code: bool
    var pend: byte           // the mark of the held run, pendN long
    var prev: byte
    var pendN: nat
    var style: Style
    var out: seq<byte>       // what has been written
    ghost var cells: seq<Cell>  // what `out` shows
    ghost var text: seq<byte>   // what has been fed since the renderer was last zeroed

    function Open(): Block
      reads `fence, `fenceN
    {
      if fence == 0 then NoBlock else InBlock(fence, fenceN)
    }

    function At(): Span
      reads `block, `emB, `emI, `code, `prev
    {
      Span(block.Heading?, emB, emI, code, prev)
    }

    function Here(): Pos
      reads `block, `emB, `emI, `code, `prev, `pend, `pendN
    {
      Pos(At(), Repeat(pend, pendN))
    }

    /** The bytes written show the cells, and the style in force is that of the last one. */
    ghost predicate Painted()
      reads `style, `out, `cells
    {
      out == Paint(PLAIN, cells) && style == LastStyle(PLAIN, cells)
    }

    /** Only a run of marks outside code is held. */
    predicate HoldsRun()
      reads `code, `pend, `pendN
    {
      pendN > 0 ==> !code && ((pend == BACK && pendN == 1) || pend == STAR || pend == LOW)
    }

    method SetStyle(s: Style)
      modifies `style, `out
      ensures out == old(out) + Change(old(style), s) && style == s
    {
      if s == style { return; }
      var p := Sequence(style, s);
      out := out + p;
      style := s;
    }

    method Put(c: byte, s: Style)
      requires Painted()
      modifies `style, `out, `cells, `prev
      ensures Painted() && cells == old(cells) + [Cell(c, s)] && prev == c
    {
      PaintAppend(PLAIN, cells, Cell(c, s));
      SetStyle(s);
      out := out + [c];
      cells := cells + [Cell(c, s)];
      prev := c;
    }

    method Emit(c: byte)
      requires Painted()
      modifies `style, `out, `cells, `prev
      ensures Painted() && cells == old(cells) + One(old(At()), c) && prev == c
    {
      Put(c, Style(block.Heading?, emB, emI, code, false));
    }

    /** The held run toggles emphasis if it delimits before `next`, and is shown if not; 0 stands for the
        line's end. */
    method Resolve(next: byte)
      requires Painted() && pendN > 0 && HoldsRun()
      modifies `style, `out, `cells, `prev, `pendN, `emB, `emI
      ensures Painted() && pendN == 0
      ensures old(pend) == BACK ==> cells == old(cells) + One(old(At()), BACK) && At() == old(At()).(prev := BACK)
      ensures pend != BACK && Delimits(old(At()), pend, old(pendN), next) ==>
        cells == old(cells) && At() == Toggle(old(At()), pend, old(pendN))
      ensures pend != BACK && !Delimits(old(At()), pend, old(pendN), next) ==>
        cells == old(cells) + Cells(old(Here()).held, StyleOf(old(At()))) && At() == old(At()).(prev := pend)
    {
      var c, k := pend, pendN;
      pendN := 0;
      if c == BACK {
        Emit(c);
        return;
      }
      var delimits := Leans(c, k, next);
      hide Delimits, Painted;
      if delimits {
        emB, emI := emB != (k >= 2), emI != (k != 2);
        prev := c;
      } else {
        Literal(c, k);
      }
    }

    /** Whether a run of `k` marks `c`, followed by `next`, opens or closes emphasis. */
    method Leans(c: byte, k: nat, next: byte) returns (r: bool)
      ensures r <==> Delimits(At(), c, k, next)
    {
      var left, right := !IsSpace(next), !IsSpace(prev);
      if c == LOW {
        left := left && !IsWord(prev);
        right := right && !IsWord(next);
      }
      var wantB, wantI := k >= 2, k != 2;
      var onB, onI := emB && wantB, emI && wantI;
      r := k <= 3 && ((onB == wantB && onI == wantI && right) || (!onB && !onI && left));
    }

    method Literal(c: byte, k: nat)
      requires Painted() && k > 0
      modifies `style, `out, `cells, `prev
      ensures Painted() && cells == old(cells) + Cells(Repeat(c, k), StyleOf(old(At()))) && prev == c
    {
      for j := 0 to k
        invariant Painted() && cells == old(cells) + Cells(Repeat(c, j), StyleOf(old(At()))) && (j > 0 ==> prev == c)
      {
        Emit(c);
      }
    }

    /** A character when nothing is held. */
    method Fresh(c: byte)
      requires Painted() && pendN == 0 && c != 0
      modifies `style, `out, `cells, `prev, `pendN, `pend, `code
      ensures Painted() && HoldsRun() && old(cells) <= cells
      ensures forall rest {:trigger Ahead(Here(), rest)} ::
        Inline(old(At()), [c] + rest) == cells[|old(cells)|..] + Ahead(Here(), rest)
    {
      forall rest { InlineFirst(At(), c, rest); }
      hide Inline, Ahead, Paint;
      if code {
        if c == TICK {
          code := false;
          prev := c;
        } else {
          Emit(c);
        }
      } else if c == BACK || c == STAR || c == LOW {
        pend := c;
        pendN := 1;
      } else if c == TICK {
        code := true;
        prev := c;
      } else {
        Emit(c);
      }
      assert Repeat(pend, 0) == [] && Repeat(pend, 1) == [pend];
    }

    /** What a character `c` decides about the held run; whether that used it up. */
    method Release(c: byte) returns (used: bool)
      requires Painted() && HoldsRun() && pendN > 0 && c != 0
      modifies `style, `out, `cells, `prev, `pendN, `emB, `emI
      ensures Painted() && HoldsRun() && old(cells) <= cells
      ensures used ==> forall rest {:trigger Ahead(Here(), rest)} ::
        Ahead(old(Here()), [c] + rest) == cells[|old(cells)|..] + Ahead(Here(), rest)
      ensures !used ==> pendN == 0 && forall rest {:trigger Inline(At(), [c] + rest)} ::
        Ahead(old(Here()), [c] + rest) == cells[|old(cells)|..] + Inline(At(), [c] + rest)
    {
      if pend == BACK {
        used := ReleaseBack(c);
        return;
      }
      ghost var sp, run := At(), Repeat(pend, pendN);
      assert Repeat(pend, 0) == [];
      if c == pend {
        pendN := pendN + 1;
        forall rest ensures Repeat(c, pendN) + rest == run + ([c] + rest) { }
        return true;
      }
      forall rest { AheadOfRun(sp, pend, pendN, c, [c] + rest); }
      hide Inline, Ahead, Painted, Delimits;
      Resolve(c);
      return false;
    }

    /** A held backslash shows an escapable character as it is. */
    method ReleaseBack(c: byte) returns (used: bool)
      requires Painted() && HoldsRun() && pendN > 0 && pend == BACK && c != 0
      modifies `style, `out, `cells, `prev, `pendN
      ensures Painted() && pendN == 0 && old(cells) <= cells
      ensures used ==> forall rest {:trigger Ahead(Here(), rest)} ::
        Ahead(old(Here()), [c] + rest) == cells[|old(cells)|..] + Ahead(Here(), rest)
      ensures !used ==> forall rest {:trigger Inline(At(), [c] + rest)} ::
        Ahead(old(Here()), [c] + rest) == cells[|old(cells)|..] + Inline(At(), [c] + rest)
    {
      ghost var sp := At();
      assert Repeat(pend, 0) == [] && Repeat(BACK, 1) == [BACK];
      forall rest { AheadOfBack(sp, c, rest); }
      hide Inline, Ahead, Painted;
      pendN := 0;
      if Escapable(c) {
        Emit(c);
        return true;
      }
      Emit(BACK);
      return false;
    }

    /** One more character of a line's text. */
    method Step(c: byte)
      requires Painted() && HoldsRun() && c != 0
      modifies `style, `out, `cells, `prev, `pendN, `pend, `code, `emB, `emI
      ensures Painted() && HoldsRun() && old(cells) <= cells
      ensures forall rest {:trigger Ahead(Here(), rest)} ::
        Ahead(old(Here()), [c] + rest) == cells[|old(cells)|..] + Ahead(Here(), rest)
    {
      ghost var from, shown := Here(), cells;
      var used := false;
      if pendN > 0 { used := Release(c); } else { AheadOfNothing(from); }
      if used { return; }
      ghost var sp, middle := At(), cells;
      Fresh(c);
      hide Inline, Ahead, Painted, HoldsRun;
      Suffixes(shown, middle, cells);
      forall rest ensures Ahead(from, [c] + rest) == cells[|shown|..] + Ahead(Here(), rest) {
        assert Ahead(from, [c] + rest) == middle[|shown|..] + Inline(sp, [c] + rest);
        Associate(middle[|shown|..], cells[|middle|..], Ahead(Here(), rest));
      }
    }

    // ---- line starts ----

    /** Where the run of `c` that starts at `at` ends. */
    method EndOfRun(at: nat, c: byte) returns (e: nat)
      requires at <= n <= line.Length
      ensures at <= e <= n && e - at == RunOf(line[at..n], c)
    {
      e := at;
      while e < n && line[e] == c
        invariant at <= e <= n && RunOf(line[at..n], c) == e - at + RunOf(line[e..n], c)
      {
        assert line[e..n][1..] == line[e + 1..n];
        e := e + 1;
      }
    }

    method EndOfBlanks(at: nat) returns (e: nat)
      requires at <= n <= line.Length
      ensures at <= e <= n && e - at == BlanksOf(line[at..n])
    {
      e := at;
      while e < n && (line[e] == SPACE || line[e] == TAB)
        invariant at <= e <= n && BlanksOf(line[at..n]) == e - at + BlanksOf(line[e..n])
      {
        assert line[e..n][1..] == line[e + 1..n];
        e := e + 1;
      }
    }

    /** The class that the definition gives the held bytes, as the start of a line or as all of it. */
    method Decide(complete: bool) returns (kind: Kind, skip: nat)
      requires n <= line.Length
      ensures Class(kind, skip) == Classify(Open(), line[..n], complete)
    {
      skip := 0;
      assert line[0..n] == line[..n];
      var i := EndOfRun(0, SPACE);
      if fence != 0 {
        assert line[..n][i..] == line[i..n];
        var k := EndOfRun(i, fence);
        assert line[i..n][k - i..] == line[k..n];
        var e := EndOfBlanks(k);
        if i > 3 || e < n || (e > k && k - i < fenceN) { return Code, 0; }
        return if !complete then Undecided else if k - i >= fenceN then Close else Code, 0;
      }
      if i == n { return if complete then Plain else Undecided, 0; }
      kind, skip := DecideText(i, complete);
      assert line[..n][i..] == line[i..n];
    }

    method DecideText(i: nat, complete: bool) returns (kind: Kind, skip: nat)
      requires i < n <= line.Length
      ensures Class(kind, skip) == ClassifyText(i, line[i..n], complete)
    {
      skip := 0;
      var c := line[i];
      var e := EndOfRun(i, c);
      hide RunOf;
      var k := e - i;
      var all := e == n;
      if c == HASH && i <= 3 && k <= 6 {
        if all { return if complete then Plain else Undecided, 0; }
        if line[e] != SPACE { return Plain, 0; }
        return Heading, i + k + 1;
      }
      if (c == TICK || c == TILDE) && i <= 3 && (k >= 3 || all) {
        if !complete { return Undecided, 0; }
        assert line[i..n][k..] == line[e..n];
        if k < 3 || (c == TICK && TICK in line[e..n]) { return Plain, 0; }
        return Fence, 0;
      }
      if c == GT {
        if n - i == 1 && !complete { return Undecided, 0; }
        return Quote, i + 1 + if n - i > 1 && line[i + 1] == SPACE then 1 else 0;
      }
      if (c == DASH || c == STAR || c == LOW) && all {
        return if !complete then Undecided else if k >= 3 then Hr else Plain, 0;
      }
      if c == PLUS && all { return if complete then Plain else Undecided, 0; }
      if (c == DASH || c == STAR || c == PLUS) && k == 1 && line[i + 1] == SPACE { return Bullet, i + 2; }
      return Plain, 0;
    }

    /** `body` has been read since `from` and shown after `shown`, but for what is held. */
    ghost predicate Tracks(from: Span, body: seq<byte>, shown: seq<Cell>)
      reads `block, `emB, `emI, `code, `prev, `pend, `pendN, `cells
    {
      shown <= cells && forall rest {:trigger Ahead(Here(), rest)} ::
        Inline(from, body + rest) == cells[|shown|..] + Ahead(Here(), rest)
    }

    method Track(c: byte, ghost from: Span, ghost body: seq<byte>, ghost shown: seq<Cell>)
      requires Painted() && HoldsRun() && c != 0 && Tracks(from, body, shown)
      modifies `style, `out, `cells, `prev, `pendN, `pend, `code, `emB, `emI
      ensures Painted() && HoldsRun() && Tracks(from, body + [c], shown)
    {
      ghost var here, was := Here(), cells;
      Step(c);
      hide Inline, Ahead, Painted, HoldsRun;
      Suffixes(shown, was, cells);
      forall rest {:trigger Ahead(Here(), rest)}
        ensures Inline(from, body + [c] + rest) == cells[|shown|..] + Ahead(Here(), rest)
      {
        Associate(body, [c], rest);
        Associate(was[|shown|..], cells[|was|..], Ahead(Here(), rest));
      }
    }

    /** The held bytes are shown unchanged, in style `s`. */
    method ApplyVerbatim(s: Style)
      requires Painted() && n <= line.Length
      modifies `style, `out, `cells, `prev
      ensures Painted() && cells == old(cells) + Cells(line[..n], s)
    {
      hide Painted, Cells;
      NoCells(s);
      assert line[..0] == [];
      for j := 0 to n
        invariant Painted() && cells == old(cells) + Cells(line[..j], s)
      {
        CellsMore(line[..j], line[j], s);
        assert line[..j] + [line[j]] == line[..j + 1];
        Associate(old(cells), Cells(line[..j], s), [Cell(line[j], s)]);
        Put(line[j], s);
      }
    }

    method ApplyMarker(kind: Kind, i: nat)
      requires Painted()
      modifies `style, `out, `cells, `prev
      ensures Painted() && cells == old(cells) + Marker(kind, i)
    {
      hide Painted;
      if kind == Quote {
        Put(BAR, DIM);
        Put(SPACE, DIM);
      } else if kind == Bullet {
        Indent(i);
        Put(DASH, PLAIN);
        Put(SPACE, PLAIN);
      }
    }

    method Indent(i: nat)
      requires Painted()
      modifies `style, `out, `cells, `prev
      ensures Painted() && cells == old(cells) + Cells(Repeat(SPACE, i), PLAIN)
    {
      hide Painted;
      for j := 0 to i
        invariant Painted() && cells == old(cells) + Cells(Repeat(SPACE, j), PLAIN)
      {
        Put(SPACE, PLAIN);
      }
    }

    /** What the held bytes show after their marker has been shown, but for what is held of a run. */
    method ApplyText(skip: nat)
      requires Painted() && skip <= n <= line.Length && pendN == 0 && At() == Start(block).(prev := prev)
      requires forall j :: 0 <= j < n ==> line[j] != 0
      modifies `style, `out, `cells, `prev, `pendN, `pend, `code, `emB, `emI
      ensures Painted() && HoldsRun() && Tracks(Start(block), line[skip..n], old(cells))
    {
      prev := 0;
      ghost var from := At();
      assert Repeat(pend, 0) == [] && forall rest :: line[skip..skip] + rest == [] + rest;
      for j := skip to n
        invariant Painted() && HoldsRun() && Tracks(from, line[skip..j], old(cells))
      {
        assert line[skip..j] + [line[j]] == line[skip..j + 1];
        Track(line[j], from, line[skip..j], old(cells));
      }
    }

    method ApplyFence(skip: nat)
      requires Painted() && skip <= n <= line.Length && RunOf(line[..n], SPACE) < n && pendN == 0
      requires forall j :: 0 <= j < n ==> line[j] != 0
      modifies `fence, `fenceN
      ensures Applied(Fence, line[..n], skip, cells, old(Open()))
    {
      assert line[0..n] == line[..n];
      var i := EndOfRun(0, SPACE);
      fence := line[i];
      assert line[..n][i..] == line[i..n];
      var e := EndOfRun(i, fence);
      fenceN := e - i;
    }

    method ApplyClose(skip: nat)
      requires Painted() && skip <= n <= line.Length && pendN == 0
      modifies `fence
      ensures Applied(Close, line[..n], skip, cells, old(Open()))
    {
      fence := 0;
    }

    method ApplyStyled(kind: Kind, skip: nat)
      requires Painted() && skip <= n <= line.Length && pendN == 0 && (kind == Hr || kind == Code)
      modifies `style, `out, `cells, `prev
      ensures Applied(kind, line[..n], skip, old(cells), Open())
    {
      ApplyVerbatim(if kind == Hr then DIM else CODE);
    }

    method ApplyShown(kind: Kind, skip: nat)
      requires Painted() && skip <= n <= line.Length
      requires kind == Plain || kind == Heading || kind == Quote || kind == Bullet
      requires pendN == 0 && block == kind && At() == Start(kind).(prev := prev)
      requires forall j :: 0 <= j < n ==> line[j] != 0
      modifies `style, `out, `cells, `prev, `pendN, `pend, `code, `emB, `emI
      ensures Applied(kind, line[..n], skip, old(cells), Open())
    {
      assert line[..n][skip..] == line[skip..n] && line[0..n] == line[..n];
      var i := EndOfRun(0, SPACE);
      hide RunOf, Tracks;
      ApplyMarker(kind, i);
      ApplyText(skip);
    }

    /** The held bytes are shown as a line of class `kind` and `skip` shows them, and are held no more. */
    method Apply(kind: Kind, skip: nat)
      requires Painted() && skip <= n <= line.Length && pendN == 0 && At() == Start(Plain) && kind != Undecided
      requires forall j :: 0 <= j < n ==> line[j] != 0
      requires kind == Fence ==> RunOf(line[..n], SPACE) < n
      modifies `mid, `block, `n, `fence, `fenceN, `style, `out, `cells, `prev, `pendN, `pend, `code, `emB, `emI
      ensures mid && block == kind && n == 0
      ensures Applied(kind, old(line[..n]), skip, old(cells), old(Open()))
    {
      hide Applied, RunOf, Painted;
      mid := true;
      block := kind;
      if kind == Fence {
        ApplyFence(skip);
      } else if kind == Close {
        ApplyClose(skip);
      } else if kind == Hr || kind == Code {
        ApplyStyled(kind, skip);
      } else {
        ApplyShown(kind, skip);
      }
      n := 0;
    }

    /** The line start `s` has been shown as a line of kind `kind` shows it, after `shown`; it
        left the block `open` or changed it. */
    ghost predicate Applied(kind: Kind, s: seq<byte>, skip: nat, shown: seq<Cell>, open: Block)
      requires skip <= |s|
      reads `block, `emB, `emI, `code, `prev, `pend, `pendN, `cells, `fence, `fenceN, `style, `out
    {
      Painted() && HoldsRun() && (!IsFence(kind) ==> Open() == open) &&
      match kind
      case Fence =>
        var r := s[RunOf(s, SPACE)..];
        r != [] && Open() == InBlock(r[0], RunOf(r, r[0])) && cells == shown && pendN == 0
      case Close => Open() == NoBlock && cells == shown && pendN == 0
      case Hr => cells == shown + Cells(s, DIM) && pendN == 0
      case Code => cells == shown + Cells(s, CODE) && pendN == 0
      case _ => Tracks(Start(kind), s[skip..], shown + Marker(kind, RunOf(s, SPACE)))
    }

    // ---- whole lines ----

    /** What the rest of the line will show. */
    ghost function Coming(rest: seq<byte>): seq<Cell>
      reads `block, `emB, `emI, `code, `prev, `pend, `pendN
    {
      if block == Code then Cells(rest, CODE) else Ahead(Here(), rest)
    }

    /** Nothing of the line has been shown: what it is, is still open. */
    ghost predicate LineStart(p: Page)
      requires n <= line.Length
      reads this, line
    {
      && line[..n] == p.line && cells == p.shown && style == PLAIN && pendN == 0 && At() == Start(Plain)
      && (n > 0 ==> Classify(p.block, p.line, false).kind.Undecided?)
    }

    /** What has been shown of the line is what any line that starts so shows. */
    ghost predicate LineMiddle(p: Page)
      reads `block, `emB, `emI, `code, `prev, `pend, `pendN, `cells, `n
    {
      && n == 0 && p.line != [] && p.shown <= cells && (block == Code ==> pendN == 0)
      && (block == Plain || block == Heading || block == Quote || block == Bullet || block == Code)
      && forall rest {:trigger Coming(rest)} {:trigger LineClass(p.block, p.line + rest)} ::
        LineClass(p.block, p.line + rest).kind == block && LineCells(p.block, p.line + rest) == cells[|p.shown|..] + Coming(rest)
    }

    ghost predicate Valid()
      reads this, line
    {
      && line.Length == HOLD && n < HOLD && Painted() && HoldsRun() && PageOf(text).block == Open()
      && (forall j :: 0 <= j < n ==> line[j] != 0)
      && if mid then LineMiddle(PageOf(text)) else LineStart(PageOf(text))
    }

    constructor ()
      ensures Valid() && fresh(line) && text == [] && out == []
    {
      line := new byte[HOLD];
      n, mid, block, fence, fenceN := 0, false, Plain, 0, 0;
      emB, emI, code, pend, prev, pendN := false, false, false, 0, 0, 0;
      style, out, cells, text := PLAIN, [], [], [];
    }

    /** Everything of the line `p.line` has been shown, but for what is held. */
    ghost predicate LineRead(p: Page)
      reads `block, `emB, `emI, `code, `prev, `pend, `pendN, `cells, `fence, `fenceN, `style, `out
    {
      && Painted() && HoldsRun() && p.shown <= cells
      && LineClass(p.block, p.line).kind == block && Open() == NextBlock(p.block, p.line)
      && LineCells(p.block, p.line) == cells[|p.shown|..] + Ahead(Here(), [])
      && (IsFence(block) ==> cells == p.shown && style == PLAIN && pendN == 0)
    }

    lemma AppliedIsRead(p: Page, skip: nat)
      requires skip <= |p.line| && Class(block, skip) == LineClass(p.block, p.line) && block != Undecided
      requires Applied(block, p.line, skip, p.shown, p.block) && (IsFence(block) ==> style == PLAIN)
      ensures LineRead(p)
    {
      hide LineClass, RunOf, Painted;
      if IsFence(block) || block == Hr || block == Code {
        AheadOfNothing(Here());
        assert Inline(At(), []) == [];
      } else {
        AppliedTextIsRead(p, skip);
      }
    }

    lemma AppliedTextIsRead(p: Page, skip: nat)
      requires skip <= |p.line| && Class(block, skip) == LineClass(p.block, p.line)
      requires block == Plain || block == Heading || block == Quote || block == Bullet
      requires Tracks(Start(block), p.line[skip..], p.shown + Marker(block, RunOf(p.line, SPACE)))
      ensures p.shown <= cells && LineCells(p.block, p.line) == cells[|p.shown|..] + Ahead(Here(), [])
    {
      hide LineClass, RunOf, Inline;
      var body := p.line[skip..];
      assert body + [] == body && Rest(p.line, skip) == body;
      var marker := Marker(block, RunOf(p.line, SPACE));
      assert Inline(Start(block), body + []) == cells[|p.shown + marker|..] + Ahead(Here(), []);
      assert cells[|p.shown|..] == marker + cells[|p.shown + marker|..];
    }

    /** The end of a line whose kind was still open: it is what it looks like. */
    method ApplyComplete(ghost p: Page)
      requires Valid() && !mid && p == PageOf(text)
      modifies `mid, `block, `n, `fence, `fenceN, `style, `out, `cells, `prev, `pendN, `pend, `code, `emB, `emI
      ensures LineRead(p) && n == 0
    {
      var kind, skip := Decide(true);
      CompleteClass(p.block, p.line);
      Apply(kind, skip);
      hide LineRead, Applied, Classify;
      AppliedIsRead(p, skip);
    }

    lemma MiddleIsRead(p: Page)
      requires Painted() && HoldsRun() && LineMiddle(p) && Open() == p.block
      ensures LineRead(p)
    {
      hide LineClass, LineCells, Inline, RunOf, Painted;
      assert p.line + [] == p.line;
      assert LineCells(p.block, p.line + []) == cells[|p.shown|..] + Coming([]);
      if block == Code {
        AheadOfNothing(Here());
        InlineEmpty(At());
      }
    }

    /** Nothing is held any more, and the line has been shown in full. */
    method ReleaseAtEnd(ghost p: Page)
      requires LineRead(p)
      modifies `style, `out, `cells, `prev, `pendN, `emB, `emI
      ensures Painted() && pendN == 0 && cells == p.shown + LineCells(p.block, p.line)
      ensures IsFence(block) ==> style == PLAIN
    {
      hide LineCells, LineClass, NextBlock, Paint;
      assert cells == p.shown + cells[|p.shown|..];
      AheadAtEnd(At(), pend, pendN);
      hide Inline, Ahead, Delimits;
      if pendN > 0 {
        ghost var ahead := Ahead(Here(), []);
        ghost var was := cells;
        Resolve(0);
        assert cells == was + ahead;
      }
    }

    method ReadLine(ghost p: Page)
      requires Valid() && p == PageOf(text)
      modifies `mid, `block, `n, `fence, `fenceN, `style, `out, `cells, `prev, `pendN, `pend, `code, `emB, `emI
      ensures LineRead(p) && n == 0
    {
      hide LineRead, PageOf;
      if !mid { ApplyComplete(p); } else { MiddleIsRead(p); }
    }

    /** The end of a line. */
    method EndOfLine()
      requires Valid()
      modifies this
      ensures Valid() && text == old(text) + [NL]
    {
      ghost var p := PageOf(text);
      assert line.Length == HOLD;
      hide Valid;
      ReadLine(p);
      CloseLine(p);
    }

    method CloseLine(ghost p: Page)
      requires LineRead(p) && n == 0 && line.Length == HOLD && p == PageOf(text)
      modifies this
      ensures Valid() && text == old(text) + [NL]
    {
      PageOfMore(text, NL);
      hide PageOf, LineCells, LineClass, LineMiddle, NextBlock, Painted;
      ReleaseAtEnd(p);
      FinishLine(p);
      text := text + [NL];
      assert line[..n] == [];
    }

    method FinishLine(ghost p: Page)
      requires Painted() && pendN == 0 && cells == p.shown + LineCells(p.block, p.line)
      requires LineClass(p.block, p.line).kind == block && (IsFence(block) ==> style == PLAIN)
      modifies `style, `out, `cells, `mid, `block, `emB, `emI, `code, `prev
      ensures Painted() && cells == EndLine(p).shown && style == PLAIN && !mid && At() == Start(Plain)
    {
      hide LineCells, LineClass, NextBlock, Paint;
      if IsFence(block) {
        SetStyle(PLAIN);
        assert cells == cells + [];
      } else {
        Put(NL, PLAIN);
      }
      mid, block, emB, emI, code := false, Plain, false, false, false;
      prev := 0;
    }

    /** Show a character of a line whose kind is known, or hold it. */
    method ShowMore(c: byte)
      requires Painted() && HoldsRun() && c != 0 && (block == Code ==> pendN == 0)
      modifies `style, `out, `cells, `prev, `pendN, `pend, `code, `emB, `emI
      ensures Painted() && HoldsRun() && old(cells) <= cells && (block == Code ==> pendN == 0)
      ensures forall rest {:trigger Coming(rest)} :: old(Coming([c] + rest)) == cells[|old(cells)|..] + Coming(rest)
    {
      hide Paint, LastStyle, Inline, Ahead;
      if block == Code {
        Put(c, CODE);
        assert forall rest {:trigger Cells(rest, CODE)} :: Cells([c] + rest, CODE) == [Cell(c, CODE)] + Cells(rest, CODE);
      } else {
        Step(c);
      }
    }

    /** One more character of a line whose kind is known. */
    method Continue(c: byte)
      requires Valid() && mid && c != 0 && c != NL
      modifies this
      ensures Valid() && text == old(text) + [c]
    {
      ghost var p := PageOf(text);
      PageOfMore(text, c);
      hide PageOf, LineMiddle, Painted, HoldsRun;
      Proceed(c, p);
      text := text + [c];
    }

    method Proceed(c: byte, ghost p: Page)
      requires Painted() && HoldsRun() && LineMiddle(p) && c != 0
      modifies `style, `out, `cells, `prev, `pendN, `pend, `code, `emB, `emI
      ensures Painted() && HoldsRun() && LineMiddle(p.(line := p.line + [c]))
    {
      ghost var was, q := cells, p.(line := p.line + [c]);
      hide LineClass, LineCells, Painted, HoldsRun, Coming;
      ShowMore(c);
      Suffixes(p.shown, was, cells);
      forall rest {:trigger Coming(rest)} {:trigger LineClass(q.block, q.line + rest)}
        ensures
          && LineClass(q.block, q.line + rest).kind == block
          && LineCells(q.block, q.line + rest) == cells[|q.shown|..] + Coming(rest)
      {
        ghost var more := [c] + rest;
        Associate(p.line, [c], rest);
        assert LineCells(p.block, p.line + more) == was[|p.shown|..] + old(Coming(more));
        assert LineClass(p.block, p.line + more).kind == block;
        Associate(was[|p.shown|..], cells[|was|..], Coming(rest));
      }
    }

    lemma AppliedIsMiddle(p: Page, skip: nat)
      requires n == 0 && p.line != [] && Decided(p.block, p.line, Class(block, skip))
      requires Applied(block, p.line, skip, p.shown, p.block)
      ensures LineMiddle(p)
    {
      hide LineClass, LineCells, Inline, RunOf, Ahead, Painted, HoldsRun;
      var marker := if block == Code then [] else Marker(block, RunOf(p.line, SPACE));
      var from := p.shown + marker;
      assert p.shown <= cells && (block != Code ==> from <= cells && cells[|p.shown|..] == marker + cells[|from|..]);
      hide Marker;
      forall rest {:trigger Coming(rest)} {:trigger LineClass(p.block, p.line + rest)}
        ensures
          && LineClass(p.block, p.line + rest).kind == block
          && LineCells(p.block, p.line + rest) == cells[|p.shown|..] + Coming(rest)
      {
        DecidedCells(p.block, p.line, Class(block, skip), rest);
        assert LineClass(p.block, p.line + rest).kind == block;
        if block != Code {
          assert Inline(Start(block), p.line[skip..] + rest) == cells[|from|..] + Ahead(Here(), rest);
          Associate(marker, cells[|from|..], Ahead(Here(), rest));
        }
      }
    }

    /** Either the class is that of every line that starts so, or nothing is decided and there is room
        for more. */
    method Settle(ghost p: Page) returns (kind: Kind, skip: nat)
      requires line.Length == HOLD && 0 < n <= HOLD && p.line == line[..n] && p.block == Open()
      requires n == HOLD ==> Classify(p.block, p.line[..HOLD - 1], false).kind.Undecided?
      ensures kind != Undecided ==> Decided(p.block, p.line, Class(kind, skip))
      ensures kind == Undecided ==> n < HOLD && Classify(p.block, p.line, false).kind.Undecided?
    {
      hide Classify, Decided;
      if n < HOLD {
        kind, skip := Decide(false);
        if kind != Undecided { StartDecides(p.block, p.line); }
      } else {
        kind, skip := if fence != 0 then Code else Plain, 0;
        StartForced(p.block, p.line);
      }
    }

    /** One more character of a line start. */
    method Begin(c: byte)
      requires Valid() && !mid && c != 0 && c != NL
      modifies this, line
      ensures Valid() && text == old(text) + [c]
    {
      ghost var p := PageOf(text + [c]);
      PageOfMore(text, c);
      hide PageOf, Classify, LineClass, LineCells, Inline, Ahead, Paint, LastStyle;
      line[n] := c;
      n := n + 1;
      text := text + [c];
      assert line[..n] == p.line && p.line[..n - 1] == old(PageOf(text)).line;
      var kind, skip := Settle(p);
      if kind != Undecided {
        Apply(kind, skip);
        AppliedIsMiddle(p, skip);
      }
    }

    method FeedOne(c: byte)
      requires Valid() && c != 0
      modifies this, line
      ensures Valid() && text == old(text) + [c]
    {
      hide Valid;
      if c == NL {
        EndOfLine();
      } else if mid {
        Continue(c);
      } else {
        Begin(c);
      }
    }

    /** Whatever the pieces, the state is that of all text fed. */
    method Feed(s: seq<cchar>)
      requires Valid()
      modifies this, line
      ensures Valid() && text == old(text) + s
    {
      hide Valid;
      assert old(text) + s[..0] == old(text);
      for i := 0 to |s|
        invariant Valid() && text == old(text) + s[..i]
      {
        assert old(text) + s[..i] + [s[i]] == old(text) + s[..i + 1];
        FeedOne(s[i]);
      }
      assert s[..|s|] == s;
    }

    /** What has been written between two lines is what the lines show, and no style is left on. */
    lemma BetweenLines()
      requires Valid() && PageOf(text).line == []
      ensures out == Paint(PLAIN, PageOf(text).shown) && style == PLAIN
      ensures !mid && n == 0
    {
    }

    /** All that was written since the renderer was last zeroed paints the whole text's cells, and the
        renderer is as new. */
    method End() returns (written: seq<byte>)
      requires Valid()
      modifies this, line
      ensures written == Paint(PLAIN, TextCells(old(text)))
      ensures Valid() && text == [] && out == []
    {
      ghost var p := PageOf(text);
      PageOfMore(text, NL);
      assert mid || n > 0 <==> p.line != [];
      assert line.Length == HOLD;
      hide Valid;
      if mid || n > 0 { EndOfLine(); }
      BetweenLines();
      written := out;
      Zero();
    }

    method Zero()
      requires line.Length == HOLD
      modifies this
      ensures Valid() && text == [] && out == []
    {
      ZeroLine();
      style, out, cells, text := PLAIN, [], [], [];
      hide LineMiddle, LineClass, LineCells, Inline, Ahead;
      assert line[..n] == [] && PageOf([]) == Page([], NoBlock, []);
    }

    method ZeroLine()
      modifies `n, `mid, `block, `fence, `fenceN, `emB, `emI, `code, `pend, `prev, `pendN
      ensures n == 0 && !mid && Open() == NoBlock && At() == Start(Plain) && pendN == 0
    {
      n, mid, block, fence, fenceN := 0, false, Plain, 0, 0;
      emB, emI, code, pend, prev, pendN := false, false, false, 0, 0, 0;
    }
  }

  lemma NoCells(s: Style)
    ensures Cells([], s) == []
  {
  }

  lemma CellsMore(bytes: seq<byte>, c: byte, s: Style)
    ensures Cells(bytes + [c], s) == Cells(bytes, s) + [Cell(c, s)]
  {
  }

  lemma InlineEmpty(sp: Span)
    ensures Inline(sp, []) == []
  {
  }

  /** What a held run shows when the line ends. */
  lemma AheadAtEnd(sp: Span, c: byte, n: nat)
    requires n > 0 ==> !sp.code && ((c == BACK && n == 1) || c == STAR || c == LOW)
    ensures n == 0 ==> Ahead(Pos(sp, Repeat(c, n)), []) == []
    ensures n > 0 && c == BACK ==> Ahead(Pos(sp, Repeat(c, n)), []) == One(sp, BACK)
    ensures n > 0 && c != BACK ==>
      Ahead(Pos(sp, Repeat(c, n)), []) == (if Delimits(sp, c, n, 0) then [] else Cells(Repeat(c, n), StyleOf(sp)))
  {
    if n > 0 && c != BACK {
      AheadOfRun(sp, c, n, 0, []);
    } else {
      assert Repeat(c, 0) + [] == [] && Repeat(c, 1) + [] == [c] && [c][1..] == [];
      assert One(sp, c) + Inline(sp.(prev := c), []) == One(sp, c);
      assert n > 0 ==> Inline(sp, [c]) == One(sp, c) + Inline(sp.(prev := c), []);
    }
  }

  lemma AheadOfNothing(p: Pos)
    requires p.held == []
    ensures forall rest {:trigger Inline(p.span, rest)} :: Ahead(p, rest) == Inline(p.span, rest)
  {
    assert forall rest :: p.held + rest == rest;
  }
}
