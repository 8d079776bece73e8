/** What the kind of a line is, said of its bytes. */
module Kinds {
  import opened Bytes
  import opened Markdown

  /** `i` spaces, and then `r`, which starts with none. */
  predicate Indented(s: seq<byte>, i: nat, r: seq<byte>) { s == Repeat(SPACE, i) + r && (r == [] || r[0] != SPACE) }

  /** `k` of `c`, and then `t`, which starts with none. */
  predicate Runs(r: seq<byte>, c: byte, k: nat, t: seq<byte>) { r == Repeat(c, k) + t && (t == [] || t[0] != c) }

  lemma IndentOf(s: seq<byte>)
    ensures Indented(s, RunOf(s, SPACE), s[RunOf(s, SPACE)..])
  {
    RunSplits(s, SPACE);
  }

  lemma {:induction false} RunSplits(s: seq<byte>, c: byte)
    ensures Runs(s, c, RunOf(s, c), s[RunOf(s, c)..])
  {
    if s != [] && s[0] == c {
      RunSplits(s[1..], c);
      var k := RunOf(s[1..], c);
      hide RunOf;
      RepeatFirst(c, k);
      assert s == [c] + s[1..] && s[1..][k..] == s[k + 1..];
      Associate([c], Repeat(c, k), s[k + 1..]);
    } else {
      assert Repeat(c, 0) + s == s && s[0..] == s;
    }
  }

  lemma RepeatFirst(c: byte, k: nat)
    ensures Repeat(c, k + 1) == [c] + Repeat(c, k)
  {
  }

  lemma IndentIs(s: seq<byte>, i: nat, r: seq<byte>)
    requires Indented(s, i, r)
    ensures RunOf(s, SPACE) == i && i <= |s| && s[i..] == r && |s| == i + |r|
  {
    RunOfRepeat(SPACE, i, r);
  }

  lemma RunIs(r: seq<byte>, c: byte, k: nat, t: seq<byte>)
    requires Runs(r, c, k, t)
    ensures RunOf(r, c) == k && k <= |r| && r[k..] == t && |r| == k + |t| && (k > 0 ==> r[0] == c) && (t != [] ==> r[k] == t[0])
  {
    RunOfRepeat(c, k, t);
  }

  // ---- the shapes ----

  /** At most three spaces, one to six '#', a space. */
  predicate HeadingShape(s: seq<byte>, i: nat, k: nat, t: seq<byte>) {
    i <= 3 && 1 <= k <= 6 && s == Repeat(SPACE, i) + (Repeat(HASH, k) + ([SPACE] + t))
  }

  predicate QuoteShape(s: seq<byte>, i: nat, t: seq<byte>) { s == Repeat(SPACE, i) + ([GT] + t) }

  predicate BulletShape(s: seq<byte>, i: nat, c: byte, t: seq<byte>) {
    (c == DASH || c == STAR || c == PLUS) && s == Repeat(SPACE, i) + ([c] + ([SPACE] + t))
  }

  /** Three or more of one mark, and nothing else. */
  predicate RuleShape(s: seq<byte>, i: nat, c: byte, k: nat) {
    (c == DASH || c == STAR || c == LOW) && k >= 3 && s == Repeat(SPACE, i) + Repeat(c, k)
  }

  /** At most three spaces, three or more backticks or tildes, and no backtick after backticks. */
  predicate FenceShape(s: seq<byte>, i: nat, c: byte, k: nat, t: seq<byte>) {
    && i <= 3 && k >= 3 && (c == TICK || (c == TILDE && (t == [] || t[0] != TILDE)))
    && (c == TICK ==> TICK !in t) && s == Repeat(SPACE, i) + (Repeat(c, k) + t)
  }

  predicate Blank(t: seq<byte>) { forall j :: 0 <= j < |t| ==> t[j] == SPACE || t[j] == TAB }

  /** At most three spaces, at least as many marks as opened the block, and then blanks. */
  predicate CloseShape(s: seq<byte>, mark: byte, len: nat, i: nat, k: nat, t: seq<byte>) {
    i <= 3 && k >= len && Blank(t) && s == Repeat(SPACE, i) + (Repeat(mark, k) + t)
  }

  // ---- shape to class ----

  lemma TextIs(s: seq<byte>, i: nat, r: seq<byte>, complete: bool)
    requires Indented(s, i, r) && r != []
    ensures Classify(NoBlock, s, complete) == ClassifyText(i, r, complete)
  {
    IndentIs(s, i, r);
  }

  lemma HeadingClass(s: seq<byte>, i: nat, k: nat, t: seq<byte>, complete: bool)
    requires HeadingShape(s, i, k, t)
    ensures Classify(NoBlock, s, complete) == Class(Heading, i + k + 1)
  {
    var r := Repeat(HASH, k) + ([SPACE] + t);
    RunIs(r, HASH, k, [SPACE] + t);
    TextIs(s, i, r, complete);
  }

  lemma QuoteClass(s: seq<byte>, i: nat, t: seq<byte>)
    requires QuoteShape(s, i, t)
    ensures Classify(NoBlock, s, true) == Class(Quote, i + 1 + if t != [] && t[0] == SPACE then 1 else 0)
  {
    TextIs(s, i, [GT] + t, true);
  }

  lemma BulletClass(s: seq<byte>, i: nat, c: byte, t: seq<byte>, complete: bool)
    requires BulletShape(s, i, c, t)
    ensures Classify(NoBlock, s, complete) == Class(Bullet, i + 2)
  {
    var r := [c] + ([SPACE] + t);
    assert Repeat(c, 1) == [c];
    RunIs(r, c, 1, [SPACE] + t);
    TextIs(s, i, r, complete);
  }

  lemma RuleClass(s: seq<byte>, i: nat, c: byte, k: nat)
    requires RuleShape(s, i, c, k)
    ensures Classify(NoBlock, s, true) == Class(Hr, 0)
  {
    var r := Repeat(c, k);
    assert r + [] == r;
    RunIs(r, c, k, []);
    TextIs(s, i, r, true);
  }

  lemma FenceClass(s: seq<byte>, i: nat, c: byte, k: nat, t: seq<byte>)
    requires FenceShape(s, i, c, k, t)
    ensures Classify(NoBlock, s, true) == Class(Fence, 0)
  {
    var r := Repeat(c, k) + t;
    assert t == [] || t[0] != c;
    RunIs(r, c, k, t);
    TextIs(s, i, r, true);
  }

  lemma {:induction false} BlanksOfBlank(t: seq<byte>)
    ensures Blank(t) <==> BlanksOf(t) == |t|
  {
    if t != [] {
      BlanksOfBlank(t[1..]);
      assert Blank(t) <==> (t[0] == SPACE || t[0] == TAB) && Blank(t[1..]) by {
        assert forall j :: 0 <= j < |t| - 1 ==> t[1..][j] == t[j + 1];
      }
    }
  }

  lemma CloseClass(s: seq<byte>, mark: byte, len: nat, i: nat, k: nat, t: seq<byte>)
    requires CloseShape(s, mark, len, i, k, t) && mark != SPACE && mark != TAB && len > 0
    ensures Classify(InBlock(mark, len), s, true) == Class(Close, 0)
  {
    var r := Repeat(mark, k) + t;
    IndentIs(s, i, r);
    RunIs(r, mark, k, t);
    BlanksOfBlank(t);
  }

  // ---- class to shape ----

  /** The pieces of a line outside code: indentation, a run of its first character, the rest. */
  lemma Pieces(s: seq<byte>) returns (i: nat, r: seq<byte>, k: nat, t: seq<byte>)
    ensures i == RunOf(s, SPACE) && Indented(s, i, r) && r == s[i..]
    ensures r != [] ==> k == RunOf(r, r[0]) > 0 && Runs(r, r[0], k, t) && t == r[k..]
  {
    i := RunOf(s, SPACE);
    r := s[i..];
    k, t := 0, [];
    IndentOf(s);
    if r != [] {
      k := RunOf(r, r[0]);
      t := r[k..];
      RunSplits(r, r[0]);
    }
  }

  lemma HeadingHas(s: seq<byte>, skip: nat) returns (i: nat, k: nat, t: seq<byte>)
    requires Classify(NoBlock, s, true) == Class(Heading, skip)
    ensures HeadingShape(s, i, k, t) && skip == i + k + 1
  {
    var r, rest;
    i, r, k, rest := Pieces(s);
    hide RunOf;
    t := rest[1..];
    assert rest == [SPACE] + t;
  }

  /** A line is a heading if and only if it has the shape of one; its marker is all up to the space. */
  lemma IsHeading(s: seq<byte>, skip: nat)
    ensures Classify(NoBlock, s, true) == Class(Heading, skip) <==> exists i: nat, k: nat, t :: HeadingShape(s, i, k, t) && skip == i + k + 1
  {
    hide Classify, HeadingShape;
    if Classify(NoBlock, s, true) == Class(Heading, skip) { var i, k, t := HeadingHas(s, skip); }
    forall i: nat, k: nat, t | HeadingShape(s, i, k, t) ensures Classify(NoBlock, s, true) == Class(Heading, i + k + 1) {
      HeadingClass(s, i, k, t, true);
    }
  }

  lemma QuoteHas(s: seq<byte>, skip: nat) returns (i: nat, t: seq<byte>)
    requires Classify(NoBlock, s, true) == Class(Quote, skip)
    ensures QuoteShape(s, i, t) && skip == i + 1 + if t != [] && t[0] == SPACE then 1 else 0
  {
    var r, k, rest;
    i, r, k, rest := Pieces(s);
    hide RunOf;
    t := r[1..];
    assert r == [GT] + t;
  }

  lemma IsQuote(s: seq<byte>, skip: nat)
    ensures Classify(NoBlock, s, true) == Class(Quote, skip) <==>
      exists i: nat, t :: QuoteShape(s, i, t) && skip == i + 1 + if t != [] && t[0] == SPACE then 1 else 0
  {
    hide Classify, QuoteShape;
    if Classify(NoBlock, s, true) == Class(Quote, skip) { var i, t := QuoteHas(s, skip); }
    forall i: nat, t | QuoteShape(s, i, t)
      ensures Classify(NoBlock, s, true) == Class(Quote, i + 1 + if t != [] && t[0] == SPACE then 1 else 0)
    {
      QuoteClass(s, i, t);
    }
  }

  lemma BulletHas(s: seq<byte>, skip: nat) returns (i: nat, c: byte, t: seq<byte>)
    requires Classify(NoBlock, s, true) == Class(Bullet, skip)
    ensures BulletShape(s, i, c, t) && skip == i + 2
  {
    var r, k, rest;
    i, r, k, rest := Pieces(s);
    hide RunOf;
    c, t := r[0], r[2..];
    assert r == [c] + ([SPACE] + t);
  }

  lemma IsBullet(s: seq<byte>, skip: nat)
    ensures Classify(NoBlock, s, true) == Class(Bullet, skip) <==> exists i: nat, c: byte, t :: BulletShape(s, i, c, t) && skip == i + 2
  {
    hide Classify, BulletShape;
    if Classify(NoBlock, s, true) == Class(Bullet, skip) { var i, c, t := BulletHas(s, skip); }
    forall i: nat, c: byte, t | BulletShape(s, i, c, t) ensures Classify(NoBlock, s, true) == Class(Bullet, i + 2) {
      BulletClass(s, i, c, t, true);
    }
  }

  lemma RuleHas(s: seq<byte>) returns (i: nat, c: byte, k: nat)
    requires Classify(NoBlock, s, true).kind == Hr
    ensures RuleShape(s, i, c, k)
  {
    var r, t;
    i, r, k, t := Pieces(s);
    hide RunOf;
    c := r[0];
    assert t == [] && Repeat(c, k) + t == Repeat(c, k);
  }

  lemma IsRule(s: seq<byte>)
    ensures Classify(NoBlock, s, true).kind == Hr <==> exists i: nat, c: byte, k: nat :: RuleShape(s, i, c, k)
  {
    hide Classify, RuleShape;
    if Classify(NoBlock, s, true).kind == Hr { var i, c, k := RuleHas(s); }
    forall i: nat, c: byte, k: nat | RuleShape(s, i, c, k) ensures Classify(NoBlock, s, true).kind == Hr { RuleClass(s, i, c, k); }
  }

  lemma FenceHas(s: seq<byte>) returns (i: nat, c: byte, k: nat, t: seq<byte>)
    requires Classify(NoBlock, s, true).kind == Fence
    ensures FenceShape(s, i, c, k, t)
  {
    var r;
    i, r, k, t := Pieces(s);
    hide RunOf;
    c := r[0];
  }

  lemma IsFence(s: seq<byte>)
    ensures Classify(NoBlock, s, true).kind == Fence <==> exists i: nat, c: byte, k: nat, t :: FenceShape(s, i, c, k, t)
  {
    hide Classify, FenceShape;
    if Classify(NoBlock, s, true).kind == Fence { var i, c, k, t := FenceHas(s); }
    forall i: nat, c: byte, k: nat, t | FenceShape(s, i, c, k, t) ensures Classify(NoBlock, s, true).kind == Fence {
      FenceClass(s, i, c, k, t);
    }
  }

  /** Inside a block a line closes it, or is code. */
  lemma IsClose(s: seq<byte>, mark: byte, len: nat)
    requires mark != SPACE && mark != TAB && len > 0
    ensures Classify(InBlock(mark, len), s, true) ==
      Class(if exists i: nat, k: nat, t :: CloseShape(s, mark, len, i, k, t) then Close else Code, 0)
  {
    if Classify(InBlock(mark, len), s, true).kind == Close {
      var i := RunOf(s, SPACE);
      var r := s[i..];
      var k := RunOf(r, mark);
      IndentOf(s);
      RunSplits(r, mark);
      BlanksOfBlank(r[k..]);
      hide RunOf, BlanksOf;
      assert CloseShape(s, mark, len, i, k, r[k..]);
    } else if exists i: nat, k: nat, t :: CloseShape(s, mark, len, i, k, t) {
      var i: nat, k: nat, t :| CloseShape(s, mark, len, i, k, t);
      CloseClass(s, mark, len, i, k, t);
    }
  }

  /** Of all other kinds no line is; what has none of the shapes is plain, marker and all. */
  lemma IsPlain(s: seq<byte>)
    ensures
      var k := Classify(NoBlock, s, true);
      (k.kind == Heading || k.kind == Quote || k.kind == Bullet || k.kind == Hr || k.kind == Fence) || k == Class(Plain, 0)
  {
    CompleteClass(NoBlock, s);
    if RunOf(s, SPACE) < |s| { CompleteText(RunOf(s, SPACE), s[RunOf(s, SPACE)..]); }
  }

  // ---- lines of any length ----

  /** Byte 256 finds the line undecided, and it is plain, or code, whatever its shape. */
  predicate Overlong(block: Block, line: seq<byte>) {
    |line| >= HOLD && Classify(block, line[..HOLD - 1], false).kind.Undecided?
  }

  lemma LineIs(block: Block, line: seq<byte>)
    ensures LineClass(block, line) ==
      if Overlong(block, line) then Class(if block.InBlock? then Code else Plain, 0) else Classify(block, line, true)
  {
  }

  /** The first 255 bytes are spaces, or spaces and then a start of `r`. */
  lemma StartOf(line: seq<byte>, i: nat, r: seq<byte>)
    requires |line| >= HOLD && line == Repeat(SPACE, i) + r
    ensures
      line[..HOLD - 1] == if i < HOLD - 1 then Repeat(SPACE, i) + r[..HOLD - 1 - i] else Repeat(SPACE, HOLD - 1)
  {
  }

  lemma SpacesAreUndecided(n: nat)
    ensures Classify(NoBlock, Repeat(SPACE, n), false) == Class(Undecided, 0)
  {
    assert Repeat(SPACE, n) + [] == Repeat(SPACE, n);
    RunOfRepeat(SPACE, n, []);
  }

  lemma HeadingIsNotOverlong(line: seq<byte>, i: nat, k: nat, t: seq<byte>)
    requires HeadingShape(line, i, k, t)
    ensures !Overlong(NoBlock, line)
  {
    if |line| >= HOLD {
      var start, u := line[..HOLD - 1], t[..HOLD - 1 - i - k - 1];
      StartOf(line, i, Repeat(HASH, k) + ([SPACE] + t));
      assert (Repeat(HASH, k) + ([SPACE] + t))[..HOLD - 1 - i] == Repeat(HASH, k) + ([SPACE] + u);
      HeadingClass(start, i, k, u, false);
    }
  }

  /** A line is a heading if and only if it has the shape of one, whatever its length. */
  lemma LineIsHeading(line: seq<byte>, skip: nat)
    ensures LineClass(NoBlock, line) == Class(Heading, skip) <==>
      exists i: nat, k: nat, t :: HeadingShape(line, i, k, t) && skip == i + k + 1
  {
    IsHeading(line, skip);
    LineIs(NoBlock, line);
    hide Classify, HeadingShape, LineClass, Overlong;
    forall i: nat, k: nat, t | HeadingShape(line, i, k, t) ensures !Overlong(NoBlock, line) {
      HeadingIsNotOverlong(line, i, k, t);
    }
  }

  lemma QuoteIsOverlong(line: seq<byte>, i: nat, t: seq<byte>)
    requires QuoteShape(line, i, t)
    ensures Overlong(NoBlock, line) <==> |line| >= HOLD && i + 2 >= HOLD
  {
    if |line| >= HOLD {
      StartOf(line, i, [GT] + t);
      SpacesAreUndecided(HOLD - 1);
      if i < HOLD - 1 {
        var u := t[..HOLD - 2 - i];
        assert ([GT] + t)[..HOLD - 1 - i] == [GT] + u;
        TextIs(line[..HOLD - 1], i, [GT] + u, false);
      }
    }
  }

  /** A line is a quote if and only if it has the shape of one, unless its mark comes too late. */
  lemma LineIsQuote(line: seq<byte>, skip: nat)
    ensures LineClass(NoBlock, line) == Class(Quote, skip) <==>
      exists i: nat, t :: QuoteShape(line, i, t) && (|line| < HOLD || i + 2 < HOLD) &&
        skip == i + 1 + if t != [] && t[0] == SPACE then 1 else 0
  {
    IsQuote(line, skip);
    LineIs(NoBlock, line);
    hide Classify, QuoteShape, LineClass, Overlong;
    forall i: nat, t | QuoteShape(line, i, t) ensures Overlong(NoBlock, line) <==> |line| >= HOLD && i + 2 >= HOLD {
      QuoteIsOverlong(line, i, t);
    }
  }

  lemma BulletIsOverlong(line: seq<byte>, i: nat, c: byte, t: seq<byte>)
    requires BulletShape(line, i, c, t)
    ensures Overlong(NoBlock, line) <==> i + 2 >= HOLD
  {
    var r := [c] + ([SPACE] + t);
    if |line| >= HOLD {
      StartOf(line, i, r);
      SpacesAreUndecided(HOLD - 1);
      if i == HOLD - 2 {
        assert r[..1] == [c] && Repeat(c, 1) + [] == [c];
        RunIs([c], c, 1, []);
        TextIs(line[..HOLD - 1], i, [c], false);
      } else if i < HOLD - 2 {
        var u := t[..HOLD - 3 - i];
        assert r[..HOLD - 1 - i] == [c] + ([SPACE] + u);
        BulletClass(line[..HOLD - 1], i, c, u, false);
      }
    }
  }

  lemma LineIsBullet(line: seq<byte>, skip: nat)
    ensures LineClass(NoBlock, line) == Class(Bullet, skip) <==>
      exists i: nat, c: byte, t :: BulletShape(line, i, c, t) && i + 2 < HOLD && skip == i + 2
  {
    IsBullet(line, skip);
    LineIs(NoBlock, line);
    hide Classify, BulletShape, LineClass, Overlong;
    forall i: nat, c: byte, t | BulletShape(line, i, c, t) ensures Overlong(NoBlock, line) <==> i + 2 >= HOLD {
      BulletIsOverlong(line, i, c, t);
    }
  }

  lemma RuleIsOverlong(line: seq<byte>, i: nat, c: byte, k: nat)
    requires RuleShape(line, i, c, k)
    ensures Overlong(NoBlock, line) <==> |line| >= HOLD
  {
    if |line| >= HOLD {
      StartOf(line, i, Repeat(c, k));
      SpacesAreUndecided(HOLD - 1);
      if i < HOLD - 1 {
        var n := HOLD - 1 - i;
        assert Repeat(c, k)[..n] == Repeat(c, n) && Repeat(c, n) + [] == Repeat(c, n);
        RunIs(Repeat(c, n), c, n, []);
        TextIs(line[..HOLD - 1], i, Repeat(c, n), false);
      }
    }
  }

  /** A line is a rule if and only if it has the shape of one and fits the 255 bytes. */
  lemma LineIsRule(line: seq<byte>)
    ensures LineClass(NoBlock, line).kind == Hr <==> exists i: nat, c: byte, k: nat :: RuleShape(line, i, c, k) && |line| < HOLD
  {
    IsRule(line);
    LineIs(NoBlock, line);
    hide Classify, RuleShape, LineClass, Overlong;
    forall i: nat, c: byte, k: nat | RuleShape(line, i, c, k) ensures Overlong(NoBlock, line) <==> |line| >= HOLD {
      RuleIsOverlong(line, i, c, k);
    }
  }

  lemma FenceIsOverlong(line: seq<byte>, i: nat, c: byte, k: nat, t: seq<byte>)
    requires FenceShape(line, i, c, k, t)
    ensures Overlong(NoBlock, line) <==> |line| >= HOLD
  {
    if |line| >= HOLD {
      var r := Repeat(c, k) + t;
      var cut := r[..HOLD - 1 - i];
      StartOf(line, i, r);
      assert cut == Repeat(c, 3) + cut[3..];
      RunGrows(Repeat(c, 3), cut[3..], c);
      assert Repeat(c, 3) + [] == Repeat(c, 3);
      RunOfRepeat(c, 3, []);
      TextIs(line[..HOLD - 1], i, cut, false);
    }
  }

  lemma LineIsFence(line: seq<byte>)
    ensures LineClass(NoBlock, line).kind == Fence <==>
      exists i: nat, c: byte, k: nat, t :: FenceShape(line, i, c, k, t) && |line| < HOLD
  {
    IsFence(line);
    LineIs(NoBlock, line);
    hide Classify, FenceShape, LineClass, Overlong;
    forall i: nat, c: byte, k: nat, t | FenceShape(line, i, c, k, t) ensures Overlong(NoBlock, line) <==> |line| >= HOLD {
      FenceIsOverlong(line, i, c, k, t);
    }
  }

  lemma CloseIsOverlong(line: seq<byte>, mark: byte, len: nat, i: nat, k: nat, t: seq<byte>)
    requires CloseShape(line, mark, len, i, k, t) && mark != SPACE && mark != TAB && len > 0
    ensures Overlong(InBlock(mark, len), line) <==> |line| >= HOLD
  {
    if |line| >= HOLD {
      var r, n := Repeat(mark, k) + t, HOLD - 1 - i;
      StartOf(line, i, r);
      IndentIs(line[..HOLD - 1], i, r[..n]);
      if k >= n {
        assert r[..n] == Repeat(mark, n) + [];
        RunIs(r[..n], mark, n, []);
      } else {
        assert r[..n] == Repeat(mark, k) + t[..n - k];
        RunIs(r[..n], mark, k, t[..n - k]);
        BlanksOfBlank(t[..n - k]);
      }
    }
  }

  /** Inside a block a line that has the closing shape and fits the 255 bytes closes it; every other
      line is code. */
  lemma LineIsClose(line: seq<byte>, mark: byte, len: nat)
    requires mark != SPACE && mark != TAB && len > 0
    ensures LineClass(InBlock(mark, len), line) ==
      Class(if |line| < HOLD && exists i: nat, k: nat, t :: CloseShape(line, mark, len, i, k, t) then Close else Code, 0)
  {
    IsClose(line, mark, len);
    LineIs(InBlock(mark, len), line);
    hide Classify, CloseShape, LineClass, Overlong;
    forall i: nat, k: nat, t | CloseShape(line, mark, len, i, k, t)
      ensures Overlong(InBlock(mark, len), line) <==> |line| >= HOLD
    {
      CloseIsOverlong(line, mark, len, i, k, t);
    }
    assert Overlong(InBlock(mark, len), line) ==> |line| >= HOLD by { OverlongIsLong(InBlock(mark, len), line); }
  }

  lemma OverlongIsLong(block: Block, line: seq<byte>)
    ensures Overlong(block, line) ==> |line| >= HOLD
  {
  }

  /** What has none of the shapes is plain, marker and all. */
  lemma LineIsPlain(line: seq<byte>)
    ensures
      var k := LineClass(NoBlock, line);
      (k.kind == Heading || k.kind == Quote || k.kind == Bullet || k.kind == Hr || k.kind == Fence) || k == Class(Plain, 0)
  {
    IsPlain(line);
  }
}
