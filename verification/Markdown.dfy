/** What the markdown renderer shows, said of whole lines and of everything after a character:
    nothing is held back here. Render.dfy streams it. */
module Markdown {
  import opened Bytes
  import opened Terminal

  const STAR: byte := '*' as int
  const LOW: byte := '_' as int
  const BACK: byte := '\\' as int
  const TICK: byte := '`' as int
  const TILDE: byte := '~' as int
  const HASH: byte := '#' as int
  const GT: byte := '>' as int
  const DASH: byte := '-' as int
  const PLUS: byte := '+' as int
  const BAR: byte := '|' as int

  /** The bytes of a line start that are held until the line's kind is known. */
  const HOLD: nat := 256

  // ---- line kinds ----

  datatype Kind = Plain | Undecided | Heading | Quote | Bullet | Fence | Close | Hr | Code

  /** The code block a line is in: none, or one opened by `len` of `mark`. */
  datatype Block = NoBlock | InBlock(mark: byte, len: nat)

  /** How many times `s` starts with `c`. */
  function RunOf(s: seq<byte>, c: byte): (n: nat)
    ensures n <= |s|
  {
    if s != [] && s[0] == c then 1 + RunOf(s[1..], c) else 0
  }

  /** How many spaces and tabs `s` starts with. */
  function BlanksOf(s: seq<byte>): (n: nat)
    ensures n <= |s|
  {
    if s != [] && (s[0] == SPACE || s[0] == TAB) then 1 + BlanksOf(s[1..]) else 0
  }

  /** A kind, and how much of the line is its marker. */
  datatype Class = Class(kind: Kind, skip: nat)

  /** The class of a line of code: it is code, unless it closes the block. */
  function ClassifyCode(mark: byte, len: nat, s: seq<byte>, complete: bool): Class {
    var i := RunOf(s, SPACE);
    var k := RunOf(s[i..], mark);
    var after := s[i..][k..];
    var e := BlanksOf(after);
    if i > 3 || e < |after| || (e > 0 && k < len) then Class(Code, 0)
    else if !complete then Class(Undecided, 0)
    else Class(if k >= len then Close else Code, 0)
  }

  /** The class of a line that starts, after `i` spaces, with `r`. */
  function ClassifyText(i: nat, r: seq<byte>, complete: bool): Class
    requires r != []
  {
    var c := r[0];
    var k := RunOf(r, c);
    var all := k == |r|;
    if c == HASH && i <= 3 && k <= 6 then
      if all then Class(if complete then Plain else Undecided, 0)
      else if r[k] != SPACE then Class(Plain, 0)
      else Class(Heading, i + k + 1)
    else if (c == TICK || c == TILDE) && i <= 3 && (k >= 3 || all) then
      if !complete then Class(Undecided, 0)
      else if k < 3 || (c == TICK && TICK in r[k..]) then Class(Plain, 0)
      else Class(Fence, 0)
    else if c == GT then
      if |r| == 1 && !complete then Class(Undecided, 0)
      else Class(Quote, i + 1 + if |r| > 1 && r[1] == SPACE then 1 else 0)
    else if (c == DASH || c == STAR || c == LOW) && all then
      Class(if !complete then Undecided else if k >= 3 then Hr else Plain, 0)
    else if c == PLUS && all then Class(if complete then Plain else Undecided, 0)
    else if (c == DASH || c == STAR || c == PLUS) && k == 1 && r[1] == SPACE then Class(Bullet, i + 2)
    else Class(Plain, 0)
  }

  /** The class of the line start `s`, or with `complete` of the line `s`. */
  function Classify(block: Block, s: seq<byte>, complete: bool): Class {
    match block
    case InBlock(mark, len) => ClassifyCode(mark, len, s, complete)
    case NoBlock =>
      var i := RunOf(s, SPACE);
      if i == |s| then Class(if complete then Plain else Undecided, 0)
      else ClassifyText(i, s[i..], complete)
  }

  /** The class of a whole line. A line whose first 255 bytes leave it open counts as plain, or
      as code inside a block. */
  function LineClass(block: Block, line: seq<byte>): Class {
    if |line| >= HOLD && Classify(block, line[..HOLD - 1], false).kind.Undecided?
    then Class(if block.InBlock? then Code else Plain, 0)
    else Classify(block, line, true)
  }

  lemma {:induction false} RunOfRepeat(c: byte, n: nat, rest: seq<byte>)
    requires rest == [] || rest[0] != c
    ensures RunOf(Repeat(c, n) + rest, c) == n
  {
    if n > 0 {
      assert (Repeat(c, n) + rest)[1..] == Repeat(c, n - 1) + rest;
      RunOfRepeat(c, n - 1, rest);
    }
  }

  lemma {:induction false} RunExtends(s: seq<byte>, t: seq<byte>, c: byte)
    requires RunOf(s, c) < |s|
    ensures RunOf(s + t, c) == RunOf(s, c)
  {
    if s[0] == c {
      assert (s + t)[1..] == s[1..] + t;
      RunExtends(s[1..], t, c);
    }
  }

  lemma {:induction false} RunThen(s: seq<byte>, t: seq<byte>, c: byte)
    requires RunOf(s, c) == |s| && (t != [] ==> t[0] != c)
    ensures RunOf(s + t, c) == |s|
  {
    if s == [] {
      assert s + t == t;
    } else {
      assert (s + t)[1..] == s[1..] + t;
      RunThen(s[1..], t, c);
    }
  }

  /** A run that something else follows stays as it is. */
  lemma Onward(s: seq<byte>, t: seq<byte>, c: byte)
    requires t != [] && t[0] != c
    ensures RunOf(s + t, c) == RunOf(s, c)
  {
    if RunOf(s, c) < |s| { RunExtends(s, t, c); } else { RunThen(s, t, c); }
  }

  lemma {:induction false} BlanksExtend(s: seq<byte>, t: seq<byte>)
    requires BlanksOf(s) < |s|
    ensures BlanksOf(s + t) == BlanksOf(s)
  {
    if s[0] == SPACE || s[0] == TAB {
      assert (s + t)[1..] == s[1..] + t;
      BlanksExtend(s[1..], t);
    }
  }

  lemma {:induction false} RunGrows(s: seq<byte>, t: seq<byte>, c: byte)
    ensures RunOf(s + t, c) >= RunOf(s, c)
  {
    if s != [] && s[0] == c {
      assert (s + t)[1..] == s[1..] + t;
      RunGrows(s[1..], t, c);
    }
  }

  /** Once decided, a line start has the class of every line it starts, complete or not. */
  lemma DecidedForGood(block: Block, s: seq<byte>, t: seq<byte>, complete: bool)
    requires !Classify(block, s, false).kind.Undecided?
    ensures Classify(block, s + t, complete) == Classify(block, s, false)
  {
    var i := RunOf(s, SPACE);
    if block.InBlock? {
      DecidedCode(block.mark, block.len, s, t, complete);
    } else {
      RunExtends(s, t, SPACE);
      assert (s + t)[i..] == s[i..] + t;
      DecidedText(i, s[i..], t, complete);
    }
  }

  lemma DecidedCode(mark: byte, len: nat, s: seq<byte>, t: seq<byte>, complete: bool)
    requires !ClassifyCode(mark, len, s, false).kind.Undecided?
    ensures ClassifyCode(mark, len, s + t, complete) == Class(Code, 0)
  {
    var i := RunOf(s, SPACE);
    var r := s[i..];
    if i > 3 {
      RunGrows(s, t, SPACE);
    } else {
      var k := RunOf(r, mark);
      RunExtends(s, t, SPACE);
      RunExtends(r, t, mark);
      assert (s + t)[i..] == r + t && (r + t)[k..] == r[k..] + t;
      if BlanksOf(r[k..]) < |r[k..]| { BlanksExtend(r[k..], t); }
    }
  }

  lemma DecidedText(i: nat, r: seq<byte>, t: seq<byte>, complete: bool)
    requires r != [] && !ClassifyText(i, r, false).kind.Undecided?
    ensures ClassifyText(i, r + t, complete) == ClassifyText(i, r, false)
  {
    var c := r[0];
    var k := RunOf(r, c);
    assert (r + t)[0] == c;
    RunGrows(r, t, c);
    if k < |r| {
      RunExtends(r, t, c);
      assert (r + t)[k] == r[k];
    }
  }

  // ---- text within a line ----

  /** Where rendering stands between two characters: heading or not, open strong text, emphasis
      and code, and the character before. */
  datatype Span = Span(h: bool, b: bool, i: bool, code: bool, prev: byte)

  function StyleOf(sp: Span): Style { Style(sp.h, sp.b, sp.i, sp.code, false) }

  function One(sp: Span, c: byte): seq<Cell> { [Cell(c, StyleOf(sp))] }

  /** 0 stands for either end of the line. */
  predicate IsSpace(c: byte) { c == 0 || c == SPACE || c == TAB || c == NL }

  predicate IsWord(c: byte) { 48 <= c <= 57 || 65 <= c <= 90 || 97 <= c <= 122 }

  /** ASCII punctuation: what a backslash can escape. */
  predicate Escapable(c: byte) { SPACE < c < 127 && !IsWord(c) }

  predicate IsMark(c: byte) { c == STAR || c == LOW || c == BACK || c == TICK }

  /** A run of `n` marks `c` followed by `next` opens or closes emphasis: it must lean on text,
      from the left to open and from the right to close, and '_' must not stand inside a word. */
  predicate Delimits(sp: Span, c: byte, n: nat, next: byte) {
    var opens := !IsSpace(next) && (c == LOW ==> !IsWord(sp.prev));
    var closes := !IsSpace(sp.prev) && (c == LOW ==> !IsWord(next));
    var wantB, wantI := n >= 2, n != 2;
    var all := (wantB ==> sp.b) && (wantI ==> sp.i);
    var none := !(wantB && sp.b) && !(wantI && sp.i);
    n <= 3 && ((all && closes) || (none && opens))
  }

  function Toggle(sp: Span, c: byte, n: nat): Span {
    sp.(b := if n >= 2 then !sp.b else sp.b, i := if n != 2 then !sp.i else sp.i, prev := c)
  }

  /** What the rest `s` of a line shows. */
  function Inline(sp: Span, s: seq<byte>): seq<Cell>
    decreases |s|
  {
    if s == [] then [] else
    var c := s[0];
    if sp.code then
      if c == TICK then Inline(sp.(code := false, prev := c), s[1..])
      else One(sp, c) + Inline(sp.(prev := c), s[1..])
    else if c == BACK && |s| > 1 && Escapable(s[1]) then One(sp, s[1]) + Inline(sp.(prev := s[1]), s[2..])
    else if c == STAR || c == LOW then
      var n := RunOf(s, c);
      var next := if n < |s| then s[n] else 0;
      assert n > 0;
      if Delimits(sp, c, n, next) then Inline(Toggle(sp, c, n), s[n..])
      else Cells(s[..n], StyleOf(sp)) + Inline(sp.(prev := c), s[n..])
    else if c == TICK then Inline(sp.(code := true, prev := c), s[1..])
    else One(sp, c) + Inline(sp.(prev := c), s[1..])
  }

  // ---- whole lines and texts ----

  function Start(kind: Kind): Span { Span(kind.Heading?, false, false, false, 0) }

  /** What a line of kind `kind` shows before its text, if `line` starts with `i` spaces. */
  function Marker(kind: Kind, i: nat): seq<Cell> {
    match kind
    case Quote => [Cell(BAR, DIM), Cell(SPACE, DIM)]
    case Bullet => Cells(Repeat(SPACE, i), PLAIN) + [Cell(DASH, PLAIN), Cell(SPACE, PLAIN)]
    case _ => []
  }

  /** What a whole line shows, its end aside. Fence lines are not shown. */
  function LineCells(block: Block, line: seq<byte>): seq<Cell> {
    var k := LineClass(block, line);
    match k.kind
    case Fence => []
    case Close => []
    case Hr => Cells(line, DIM)
    case Code => Cells(line, CODE)
    case _ => Marker(k.kind, RunOf(line, SPACE)) + Inline(Start(k.kind), Rest(line, k.skip))
  }

  predicate IsFence(kind: Kind) { kind.Fence? || kind.Close? }

  function EndCells(kind: Kind): seq<Cell> { if IsFence(kind) then [] else [Cell(NL, PLAIN)] }

  /** The block that the line after `line` is in. */
  function NextBlock(block: Block, line: seq<byte>): Block {
    match LineClass(block, line).kind
    case Fence =>
      var r := line[RunOf(line, SPACE)..];
      if r == [] then block else InBlock(r[0], RunOf(r, r[0]))
    case Close => NoBlock
    case _ => block
  }

  /** A text so far: what its complete lines show, the block they leave open, and the line that
      is not complete yet. */
  datatype Page = Page(shown: seq<Cell>, block: Block, line: seq<byte>)

  function EndLine(p: Page): Page {
    Page(p.shown + LineCells(p.block, p.line) + EndCells(LineClass(p.block, p.line).kind), NextBlock(p.block, p.line), [])
  }

  function Type(p: Page, c: byte): Page { if c == NL then EndLine(p) else p.(line := p.line + [c]) }

  function PageOf(text: seq<byte>): Page {
    if text == [] then Page([], NoBlock, []) else Type(PageOf(text[..|text| - 1]), text[|text| - 1])
  }

  /** What a complete text shows: an unfinished last line is ended. */
  function TextCells(text: seq<byte>): seq<Cell> {
    var p := PageOf(text);
    if p.line == [] then p.shown else EndLine(p).shown
  }

  // ---- lines that start alike ----

  /** Whatever follows the line start `s`, its line has class `k`. */
  ghost predicate Decided(block: Block, s: seq<byte>, k: Class) {
    && k.skip <= |s|
    && (k.kind.Plain? || k.kind.Heading? || k.kind.Quote? || k.kind.Bullet? || k.kind.Code?)
    && (k.kind.Bullet? ==> RunOf(s, SPACE) < |s|)
    && forall rest :: LineClass(block, s + rest) == k
  }

  lemma EarlyText(i: nat, r: seq<byte>)
    requires r != [] && !ClassifyText(i, r, false).kind.Undecided?
    ensures var k := ClassifyText(i, r, false);
      k.skip <= i + |r| && (k.kind.Plain? || k.kind.Heading? || k.kind.Quote? || k.kind.Bullet?)
  {
    var k := RunOf(r, r[0]);
    assert 1 <= k <= |r|;
    hide RunOf;
  }

  lemma EarlyClass(block: Block, s: seq<byte>)
    requires !Classify(block, s, false).kind.Undecided?
    ensures var k := Classify(block, s, false);
      && k.skip <= |s|
      && (k.kind.Plain? || k.kind.Heading? || k.kind.Quote? || k.kind.Bullet? || k.kind.Code?)
      && (k.kind.Bullet? ==> RunOf(s, SPACE) < |s|)
  {
    hide RunOf, BlanksOf, ClassifyText;
    var i := RunOf(s, SPACE);
    if block.NoBlock? && i < |s| { EarlyText(i, s[i..]); }
  }

  lemma CompleteText(i: nat, r: seq<byte>)
    requires r != []
    ensures var k := ClassifyText(i, r, true); k.skip <= i + |r| && !k.kind.Undecided? && !k.kind.Close? && !k.kind.Code?
  {
    var k := RunOf(r, r[0]);
    assert 1 <= k <= |r|;
    hide RunOf;
  }

  lemma CompleteClass(block: Block, s: seq<byte>)
    ensures var k := Classify(block, s, true);
      k.skip <= |s| && !k.kind.Undecided? && (k.kind.Fence? ==> RunOf(s, SPACE) < |s|)
  {
    hide RunOf, BlanksOf, ClassifyText;
    var i := RunOf(s, SPACE);
    if block.NoBlock? && i < |s| { CompleteText(i, s[i..]); }
  }

  lemma PageOfMore(text: seq<byte>, c: byte)
    ensures PageOf(text + [c]) == Type(PageOf(text), c)
  {
    assert (text + [c])[..|text|] == text;
  }

  lemma StartDecides(block: Block, s: seq<byte>)
    requires |s| < HOLD && !Classify(block, s, false).kind.Undecided?
    ensures Decided(block, s, Classify(block, s, false))
  {
    EarlyClass(block, s);
    forall rest ensures LineClass(block, s + rest) == Classify(block, s, false) {
      DecidedForGood(block, s, rest, true);
      if |s + rest| >= HOLD {
        DecidedForGood(block, s, rest[..HOLD - 1 - |s|], false);
        assert (s + rest)[..HOLD - 1] == s + rest[..HOLD - 1 - |s|];
      }
    }
  }

  lemma StartForced(block: Block, s: seq<byte>)
    requires |s| == HOLD && Classify(block, s[..HOLD - 1], false).kind.Undecided?
    ensures Decided(block, s, Class(if block.InBlock? then Code else Plain, 0))
  {
    hide Classify;
    assert forall rest: seq<byte> :: (s + rest)[..HOLD - 1] == s[..HOLD - 1];
  }

  lemma DecidedCells(block: Block, s: seq<byte>, k: Class, rest: seq<byte>)
    requires Decided(block, s, k)
    ensures LineCells(block, s + rest) ==
      if k.kind.Code? then Cells(s, CODE) + Cells(rest, CODE)
      else Marker(k.kind, RunOf(s, SPACE)) + Inline(Start(k.kind), s[k.skip..] + rest)
  {
    hide LineClass, Inline;
    assert LineClass(block, s + rest) == k;
    if k.kind.Code? {
      assert Cells(s + rest, CODE) == Cells(s, CODE) + Cells(rest, CODE);
    } else {
      assert Rest(s + rest, k.skip) == s[k.skip..] + rest;
      if k.kind.Bullet? { RunExtends(s, rest, SPACE); }
    }
  }
}
