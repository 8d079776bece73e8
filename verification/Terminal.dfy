/** Styled characters, the SGR sequences that set their styles, and a terminal that reads both. */
module Terminal {
  import opened Bytes

  /** The renderer's styles: heading, bold, italic, code, dim. */
  datatype Style = Style(h: bool, b: bool, i: bool, c: bool, d: bool)

  const PLAIN := Style(false, false, false, false, false)
  const DIM := Style(false, false, false, false, true)
  const CODE := Style(false, false, false, true, false)

  /** One character as it is meant to be seen. */
  datatype Cell = Cell(ch: byte, style: Style)

  function Cells(s: seq<byte>, style: Style): seq<Cell> { seq(|s|, i requires 0 <= i < |s| => Cell(s[i], style)) }

  function Chars(cells: seq<Cell>): seq<byte> { seq(|cells|, i requires 0 <= i < |cells| => cells[i].ch) }

  function If<T>(on: bool, s: seq<T>): seq<T> { if on then s else [] }

  /** The SGR parameters that turn style `from` into `style`. */
  function Params(from: Style, style: Style): seq<nat> {
    If(from != PLAIN, [0]) + If(style.h || style.b, [1]) + If(style.d, [2]) + If(style.i, [3]) + If(style.h, [4])
    + If(style.c, [32])
  }

  predicate Known(p: nat) { p <= 4 || p == 32 }

  /** A parameter in decimal, of those that `Known` lists. */
  function Digits(p: nat): seq<byte> { if p == 32 then [51, 50] else [48 + p % 10] }

  /** Parameters, separated by ';' and ended by 'm'. */
  function Ended(ps: seq<nat>): seq<byte>
    requires ps != []
  {
    if |ps| == 1 then Digits(ps[0]) + ['m' as int] else Digits(ps[0]) + [';' as int] + Ended(ps[1..])
  }

  lemma ParamsChange(from: Style, style: Style)
    requires from != style
    ensures Params(from, style) != [] && forall p :: p in Params(from, style) ==> Known(p)
  {
  }

  /** What is written when the style changes from `from` to `style`. */
  function Change(from: Style, style: Style): seq<byte> {
    if from == style then []
    else ParamsChange(from, style); [ESC, '[' as int] + Ended(Params(from, style))
  }

  /** What is written to show `cells` after text of style `from`. */
  function Paint(from: Style, cells: seq<Cell>): seq<byte>
    decreases |cells|
  {
    if cells == [] then []
    else Change(from, cells[0].style) + [cells[0].ch] + Paint(cells[0].style, cells[1..])
  }

  function LastStyle(from: Style, cells: seq<Cell>): Style {
    if cells == [] then from else cells[|cells| - 1].style
  }

  lemma {:induction false} PaintAppend(from: Style, cells: seq<Cell>, c: Cell)
    ensures Paint(from, cells + [c]) == Paint(from, cells) + Change(LastStyle(from, cells), c.style) + [c.ch]
    decreases |cells|
  {
    if cells == [] {
      assert cells + [c] == [c] && [c][1..] == [];
    } else {
      assert (cells + [c])[0] == cells[0] && (cells + [c])[1..] == cells[1..] + [c];
      var a := Change(from, cells[0].style) + [cells[0].ch];
      assert Paint(from, cells + [c]) == a + Paint(cells[0].style, cells[1..] + [c]);
      assert Paint(from, cells) == a + Paint(cells[0].style, cells[1..]);
      assert LastStyle(cells[0].style, cells[1..]) == LastStyle(from, cells);
      hide Paint, Change, LastStyle;
      PaintAppend(cells[0].style, cells[1..], c);
      var b, d := Paint(cells[0].style, cells[1..]), Change(LastStyle(from, cells), c.style);
      Associate(a, b + d, [c.ch]);
      Associate(a, b, d);
    }
  }

  // ---- the terminal ----

  datatype Attrs = Attrs(bold: bool, faint: bool, italic: bool, underlined: bool, green: bool)

  const DEFAULT := Attrs(false, false, false, false, false)

  /** `Lead` is `Ground` after the first byte of what may be a C1 control. */
  datatype Mode = Ground | Lead | Escaped | Csi(params: seq<nat>, value: nat)

  /** `garbled` once something arrives that is neither text nor one of the sequences below: another
      sequence, or a C1 control, such as CSI. */
  datatype Term = Term(attrs: Attrs, mode: Mode, shown: seq<(byte, Attrs)>, garbled: bool)

  const BLANK := Term(DEFAULT, Ground, [], false)

  /** Section 8.3.117 of ECMA-48: one parameter of SELECT GRAPHIC RENDITION. */
  function Select(a: Attrs, p: nat): Attrs {
    match p
    case 0 => DEFAULT
    case 1 => a.(bold := true)
    case 2 => a.(faint := true)
    case 3 => a.(italic := true)
    case 4 => a.(underlined := true)
    case 32 => a.(green := true)
    case _ => a
  }

  function SelectAll(a: Attrs, ps: seq<nat>): Attrs
    decreases |ps|
  {
    if ps == [] then a else SelectAll(Select(a, ps[0]), ps[1..])
  }

  function AfterText(c: byte): Mode { if c == LEAD then Lead else Ground }

  /** Between two sequences. */
  predicate Idle(t: Term) { t.mode == Ground || t.mode == Lead }

  function Receive(t: Term, c: byte): Term {
    match t.mode
    case Ground =>
      if c == ESC then t.(mode := Escaped) else t.(mode := AfterText(c), shown := t.shown + [(c, t.attrs)])
    case Lead =>
      if c == ESC then t.(mode := Escaped)
      else if IsC1(c) then t.(mode := Ground, garbled := true)
      else t.(mode := AfterText(c), shown := t.shown + [(c, t.attrs)])
    case Escaped =>
      if c == '[' as int then t.(mode := Csi([], 0)) else t.(mode := Ground, garbled := true)
    case Csi(ps, v) =>
      if 48 <= c <= 57 then t.(mode := Csi(ps, v * 10 + (c - 48)))
      else if c == ';' as int then t.(mode := Csi(ps + [v], 0))
      else if c == 'm' as int then t.(mode := Ground, attrs := SelectAll(t.attrs, ps + [v]))
      else t.(mode := Ground, garbled := true)
  }

  function ReceiveAll(t: Term, s: seq<byte>): Term
    decreases |s|
  {
    if s == [] then t else ReceiveAll(Receive(t, s[0]), s[1..])
  }

  lemma {:induction false} ReceiveConcat(t: Term, a: seq<byte>, b: seq<byte>)
    ensures ReceiveAll(t, a + b) == ReceiveAll(ReceiveAll(t, a), b)
    decreases |a|
  {
    if a == [] {
      assert a + b == b;
    } else {
      assert (a + b)[0] == a[0] && (a + b)[1..] == a[1..] + b;
      ReceiveConcat(Receive(t, a[0]), a[1..], b);
    }
  }

  /** The attributes a style calls for: bold for headings and strong text, italic for emphasis,
      underlined for headings, green for code, faint for markers and rules. */
  function AttrsOf(s: Style): Attrs { Attrs(s.h || s.b, s.d, s.i, s.h, s.c) }

  lemma ReceiveDigits(t: Term, p: nat)
    requires t.mode.Csi? && t.mode.value == 0 && Known(p)
    ensures ReceiveAll(t, Digits(p)) == t.(mode := Csi(t.mode.params, p))
  {
    var d := Digits(p);
    if p == 32 {
      assert d[1..] == [50] && [50][1..] == [];
      assert ReceiveAll(Receive(t, 51), [50]) == Receive(Receive(t, 51), 50);
    } else {
      assert d[1..] == [];
    }
  }

  lemma ReceiveSeparator(t: Term, rest: seq<byte>)
    requires t.mode.Csi?
    ensures ReceiveAll(t, [';' as int] + rest) == ReceiveAll(t.(mode := Csi(t.mode.params + [t.mode.value], 0)), rest)
  {
    assert ([';' as int] + rest)[1..] == rest;
  }

  lemma {:induction false} ReceiveParams(t: Term, ps: seq<nat>)
    requires t.mode.Csi? && t.mode.value == 0 && ps != [] && forall p :: p in ps ==> Known(p)
    ensures ReceiveAll(t, Ended(ps)) == t.(mode := Ground, attrs := SelectAll(t.attrs, t.mode.params + ps))
    decreases |ps|
  {
    var d, p := Digits(ps[0]), ps[0];
    var t1 := t.(mode := Csi(t.mode.params, p));
    ReceiveDigits(t, p);
    hide Digits;
    if |ps| == 1 {
      assert ps == [p];
      ReceiveConcat(t, d, ['m' as int]);
      assert ['m' as int][1..] == [];
    } else {
      var rest := Ended(ps[1..]);
      var t2 := t.(mode := Csi(t.mode.params + [p], 0));
      assert Ended(ps) == d + [';' as int] + rest;
      ReceiveSeparator(t1, rest);
      hide Ended, ReceiveAll, SelectAll;
      Associate(d, [';' as int], rest);
      ReceiveConcat(t, d, [';' as int] + rest);
      ReceiveParams(t2, ps[1..]);
      assert t.mode.params + [p] + ps[1..] == t.mode.params + ps;
    }
  }

  lemma {:induction false} SelectConcat(a: Attrs, ps: seq<nat>, qs: seq<nat>)
    ensures SelectAll(a, ps + qs) == SelectAll(SelectAll(a, ps), qs)
    decreases |ps|
  {
    if ps == [] {
      assert ps + qs == qs;
    } else {
      assert (ps + qs)[1..] == ps[1..] + qs;
      SelectConcat(Select(a, ps[0]), ps[1..], qs);
    }
  }

  /** One optional parameter. */
  lemma SelectOne(a: Attrs, on: bool, p: nat)
    ensures SelectAll(a, If(on, [p])) == if on then Select(a, p) else a
  {
    if on { assert [p][1..] == []; }
  }

  lemma SelectSix(a: Attrs, p0: seq<nat>, p1: seq<nat>, p2: seq<nat>, p3: seq<nat>, p4: seq<nat>, p5: seq<nat>)
    ensures SelectAll(a, p0 + p1 + p2 + p3 + p4 + p5)
      == SelectAll(SelectAll(SelectAll(SelectAll(SelectAll(SelectAll(a, p0), p1), p2), p3), p4), p5)
  {
    hide SelectAll;
    SelectConcat(a, p0 + p1 + p2 + p3 + p4, p5);
    SelectConcat(a, p0 + p1 + p2 + p3, p4);
    SelectConcat(a, p0 + p1 + p2, p3);
    SelectConcat(a, p0 + p1, p2);
    SelectConcat(a, p0, p1);
  }

  lemma SelectParams(from: Style, style: Style)
    requires from != style
    ensures SelectAll(AttrsOf(from), Params(from, style)) == AttrsOf(style)
  {
    hide SelectAll, If;
    SelectSix(AttrsOf(from), If(from != PLAIN, [0]), If(style.h || style.b, [1]), If(style.d, [2]), If(style.i, [3]),
      If(style.h, [4]), If(style.c, [32]));
    SelectOne(AttrsOf(from), from != PLAIN, 0);
    var a1 := Attrs(style.h || style.b, false, false, false, false);
    SelectOne(DEFAULT, style.h || style.b, 1);
    SelectOne(a1, style.d, 2);
    SelectOne(a1.(faint := style.d), style.i, 3);
    SelectOne(a1.(faint := style.d, italic := style.i), style.h, 4);
    SelectOne(a1.(faint := style.d, italic := style.i, underlined := style.h), style.c, 32);
  }

  lemma ReceiveChange(t: Term, from: Style, style: Style)
    requires Idle(t) && t.attrs == AttrsOf(from)
    ensures ReceiveAll(t, Change(from, style)) == if from == style then t else t.(attrs := AttrsOf(style), mode := Ground)
  {
    if from != style {
      ParamsChange(from, style);
      SelectParams(from, style);
      var ps := Params(from, style);
      var s := Change(from, style);
      var t2 := t.(mode := Csi([], 0));
      assert s[0] == ESC && s[1] == '[' as int && s[1..][1..] == Ended(ps);
      assert ReceiveAll(t, s) == ReceiveAll(Receive(Receive(t, ESC), '[' as int), Ended(ps));
      ReceiveParams(t2, ps);
      assert [] + ps == ps;
    }
  }

  /** What a viewer sees of `cells`. */
  function Seen(cells: seq<Cell>): seq<(byte, Attrs)> {
    seq(|cells|, i requires 0 <= i < |cells| => (cells[i].ch, AttrsOf(cells[i].style)))
  }

  /** Two neighbours make up a C1 control; `styled` asks that no change of style comes between. */
  predicate C1CellsAt(cells: seq<Cell>, i: nat, styled: bool)
    requires i + 1 < |cells|
  {
    cells[i].ch == LEAD && IsC1(cells[i + 1].ch) && (styled ==> cells[i].style == cells[i + 1].style)
  }

  predicate C1Cells(cells: seq<Cell>, styled: bool) { exists i :: 0 <= i < |cells| - 1 && C1CellsAt(cells, i, styled) }

  /** The first of `cells` completes a C1 control. */
  predicate CompletesC1(t: Term, from: Style, cells: seq<Cell>) {
    cells != [] && t.mode == Lead && from == cells[0].style && IsC1(cells[0].ch)
  }

  /** A terminal that is sent what `Paint` writes shows every character under its own style, and
      is left with the last one, unless two characters make up a C1 control. */
  lemma {:induction false} TerminalShowsCells(t: Term, from: Style, cells: seq<Cell>)
    requires Idle(t) && t.attrs == AttrsOf(from)
    requires forall c :: c in cells ==> c.ch != ESC
    requires !CompletesC1(t, from, cells) && !C1Cells(cells, true)
    ensures ReceiveAll(t, Paint(from, cells)) == t.(
        attrs := AttrsOf(LastStyle(from, cells)), shown := t.shown + Seen(cells),
        mode := if cells == [] then t.mode else AfterText(cells[|cells| - 1].ch))
    decreases |cells|
  {
    if cells == [] {
      assert t.shown + Seen(cells) == t.shown;
    } else {
      var c, rest := cells[0], cells[1..];
      var u := ReceiveCell(t, from, c, Paint(c.style, rest));
      C1Ahead(cells, u);
      SeenFirst(t.shown, cells);
      assert LastStyle(from, cells) == LastStyle(c.style, rest);
      assert Paint(from, cells) == Change(from, c.style) + [c.ch] + Paint(c.style, rest);
      hide Paint, Change, ReceiveAll, C1Cells, CompletesC1, Seen, AttrsOf, LastStyle;
      TerminalShowsCells(u, c.style, rest);
    }
  }

  lemma SeenFirst(shown: seq<(byte, Attrs)>, cells: seq<Cell>)
    requires cells != []
    ensures shown + Seen(cells) == shown + [(cells[0].ch, AttrsOf(cells[0].style))] + Seen(cells[1..])
  {
  }

  /** The terminal that has got the first cell knows what C1 controls are to come. */
  lemma C1Ahead(cells: seq<Cell>, u: Term)
    requires cells != [] && u.mode == AfterText(cells[0].ch)
    ensures C1Cells(cells, true) <==> CompletesC1(u, cells[0].style, cells[1..]) || C1Cells(cells[1..], true)
  {
    RestOfC1(cells, true);
  }

  lemma RestOfC1(cells: seq<Cell>, styled: bool)
    requires cells != []
    ensures C1Cells(cells, styled) <==> C1Cells(cells[1..], styled) || (|cells| > 1 && C1CellsAt(cells, 0, styled))
  {
    var rest := cells[1..];
    if C1Cells(cells, styled) {
      var i :| 0 <= i < |cells| - 1 && C1CellsAt(cells, i, styled);
      if i > 0 { assert C1CellsAt(rest, i - 1, styled); }
    }
    if C1Cells(rest, styled) {
      var i :| 0 <= i < |rest| - 1 && C1CellsAt(rest, i, styled);
      assert C1CellsAt(cells, i + 1, styled);
    }
  }

  /** And if two do, it is garbled. */
  lemma {:induction false} TerminalGarbles(t: Term, from: Style, cells: seq<Cell>)
    requires Idle(t) && t.attrs == AttrsOf(from)
    requires forall c :: c in cells ==> c.ch != ESC
    requires CompletesC1(t, from, cells) || C1Cells(cells, true)
    ensures ReceiveAll(t, Paint(from, cells)).garbled
    decreases |cells|
  {
    var c, rest := cells[0], cells[1..];
    var after := Paint(c.style, rest);
    if CompletesC1(t, from, cells) {
      assert Paint(from, cells) == [c.ch] + after;
      assert ([c.ch] + after)[1..] == after;
      StaysGarbled(Receive(t, c.ch), after);
    } else {
      var u := ReceiveCell(t, from, c, after);
      C1Ahead(cells, u);
      TerminalGarbles(u, c.style, rest);
    }
  }

  lemma {:induction false} StaysGarbled(t: Term, s: seq<byte>)
    requires t.garbled
    ensures ReceiveAll(t, s).garbled
    decreases |s|
  {
    if s != [] { StaysGarbled(Receive(t, s[0]), s[1..]); }
  }

  lemma ReceiveCell(t: Term, from: Style, c: Cell, rest: seq<byte>) returns (u: Term)
    requires Idle(t) && t.attrs == AttrsOf(from) && c.ch != ESC && !CompletesC1(t, from, [c])
    ensures u == t.(attrs := AttrsOf(c.style), shown := t.shown + [(c.ch, AttrsOf(c.style))], mode := AfterText(c.ch))
    ensures ReceiveAll(t, Change(from, c.style) + [c.ch] + rest) == ReceiveAll(u, rest)
  {
    var s := Change(from, c.style);
    var t1 := if from == c.style then t else t.(attrs := AttrsOf(c.style), mode := Ground);
    u := Receive(t1, c.ch);
    ReceiveChange(t, from, c.style);
    ReceiveConcat(t, s, [c.ch] + rest);
    assert s + ([c.ch] + rest) == s + [c.ch] + rest;
    assert ([c.ch] + rest)[1..] == rest;
  }

  /** What is painted garbles a terminal exactly when it has a C1 control within one style. */
  lemma GarbledByC1(cells: seq<Cell>)
    requires forall c :: c in cells ==> c.ch != ESC
    ensures ReceiveAll(BLANK, Paint(PLAIN, cells)).garbled <==> C1Cells(cells, true)
  {
    if C1Cells(cells, true) { TerminalGarbles(BLANK, PLAIN, cells); } else { TerminalShowsCells(BLANK, PLAIN, cells); }
  }
}
