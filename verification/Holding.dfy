/** When the renderer holds a line start: whether what follows could still matter. */
module Holding {
  import opened Bytes
  import opened Markdown

  const X: byte := 'x' as int

  /** Two lines that start with `s` are of different classes. */
  ghost predicate Open(block: Block, s: seq<byte>) {
    exists t, u :: NL !in t && NL !in u && LineClass(block, s + t) != LineClass(block, s + u)
  }

  /** Held though nothing that follows can matter. In a code block: a closing mark that no line short
      enough can complete. Else: nothing but 255 spaces; or a start that `ForegoneText` lists. */
  predicate Foregone(block: Block, s: seq<byte>) {
    var i := RunOf(s, SPACE);
    match block
    case InBlock(mark, len) => var k := RunOf(s[i..], mark); k < len && |s| + len - k >= HOLD
    case NoBlock => if i == |s| then |s| == HOLD - 1 else ForegoneText(i, s[i..])
  }

  /** A fence of backticks with a backtick after it; two or more plus signs; and, at the very end of
      the 255 bytes that decide, marks too few for a rule or with no room for a space. */
  predicate ForegoneText(i: nat, r: seq<byte>)
    requires r != []
  {
    var c, k, room := r[0], RunOf(r, r[0]), HOLD - 1 - i - |r|;
    || (c == TICK && i <= 3 && k >= 3 && TICK in r[k..])
    || (c == PLUS && k == |r| && (k >= 2 || room == 0))
    || ((c == DASH || c == STAR) && k == |r| && k < 3 && room == 0)
    || (c == LOW && k == |r| && room < 3 - k)
  }

  /** A code block's mark is no blank and no line end: a fence has backticks or tildes. */
  predicate Opened(block: Block) {
    block.InBlock? ==> block.mark != SPACE && block.mark != TAB && block.mark != NL
  }

  /** What a line becomes that byte 256 finds undecided. */
  function Forced(block: Block): Class { Class(if block.InBlock? then Code else Plain, 0) }

  predicate Held(block: Block, s: seq<byte>) { |s| < HOLD && Classify(block, s, false).kind.Undecided? }

  /** A held line start can still become lines of two classes, with those exceptions and no others. */
  lemma HeldWhileOpen(block: Block, s: seq<byte>)
    requires Held(block, s) && Opened(block)
    ensures Open(block, s) <==> !Foregone(block, s)
  {
    if Foregone(block, s) {
      hide LineClass, Foregone, Held;
      forall t ensures LineClass(block, s + t) == Forced(block) { Settled(block, s, t); }
    } else {
      hide LineClass, Foregone, Held;
      var t, u := Witnesses(block, s);
      assert NL !in t && NL !in u && LineClass(block, s + t) != LineClass(block, s + u);
    }
  }

  // ---- nothing can matter ----

  lemma Settled(block: Block, s: seq<byte>, t: seq<byte>)
    requires Held(block, s) && Foregone(block, s) && Opened(block)
    ensures LineClass(block, s + t) == Forced(block)
  {
    var line := s + t;
    if |line| < HOLD {
      SettledShort(block, s, t);
    } else if !Classify(block, line[..HOLD - 1], false).kind.Undecided? {
      var u, v := t[..HOLD - 1 - |s|], line[HOLD - 1..];
      assert line[..HOLD - 1] == s + u && line == (s + u) + v;
      hide Classify, Foregone;
      DecidedForGood(block, s + u, v, true);
      DecidedForGood(block, s + u, [], true);
      assert (s + u) + [] == s + u;
      SettledShort(block, s, u);
    }
  }

  lemma SettledShort(block: Block, s: seq<byte>, t: seq<byte>)
    requires Held(block, s) && Foregone(block, s) && Opened(block) && |s + t| < HOLD
    ensures Classify(block, s + t, true) == Forced(block)
  {
    var i := RunOf(s, SPACE);
    if block.InBlock? {
      SettledCode(block.mark, block.len, s, t);
    } else if i == |s| {
      assert s + t == s;
    } else {
      RunExtends(s, t, SPACE);
      assert (s + t)[i..] == s[i..] + t;
      SettledText(i, s[i..], t);
    }
  }

  lemma SettledText(i: nat, r: seq<byte>, t: seq<byte>)
    requires r != [] && ForegoneText(i, r) && i + |r + t| < HOLD
    ensures ClassifyText(i, r + t, true) == Class(Plain, 0)
  {
    var c := r[0];
    var k := RunOf(r, c);
    RunGrows(r, t, c);
    if c == TICK {
      RunExtends(r, t, c);
      assert (r + t)[k..] == r[k..] + t;
    }
  }

  lemma SettledCode(mark: byte, len: nat, s: seq<byte>, t: seq<byte>)
    requires Held(InBlock(mark, len), s) && Foregone(InBlock(mark, len), s) && |s + t| < HOLD
    ensures ClassifyCode(mark, len, s + t, true) == Class(Code, 0)
  {
    var all := s + t;
    var i, j := RunOf(s, SPACE), RunOf(all, SPACE);
    RunGrows(s, t, SPACE);
    assert i + RunOf(s[i..], mark) == |s|;
    hide RunOf;
    assert RunOf(all[j..], mark) <= |all| - j;
  }

  // ---- something can ----

  lemma Witnesses(block: Block, s: seq<byte>) returns (t: seq<byte>, u: seq<byte>)
    requires Held(block, s) && !Foregone(block, s) && Opened(block)
    ensures NL !in t && NL !in u && LineClass(block, s + t) != LineClass(block, s + u)
  {
    var i := RunOf(s, SPACE);
    if block.InBlock? {
      t := CodeEnds(block.mark, block.len, s);
      u := [if block.mark == X then GT else X];
      CodeGoesOn(block.mark, block.len, s, u);
      OneMore(block, s, u[0]);
    } else if i == |s| {
      t, u := [], [GT];
      RunThen(s, [GT], SPACE);
      assert s + [] == s && (s + [GT])[i..] == [GT];
    } else {
      t, u := TextWitnesses(s, i, s[i..]);
    }
  }

  /** One byte more ends the line start at the latest. */
  lemma OneMore(block: Block, s: seq<byte>, x: byte)
    requires Held(block, s)
    ensures LineClass(block, s + [x]) == if |s| == HOLD - 1 then Forced(block) else Classify(block, s + [x], true)
  {
    if |s| == HOLD - 1 { assert (s + [x])[..HOLD - 1] == s; }
  }

  /** What is shorter than the buffer is classified as it stands. */
  lemma ShortLine(s: seq<byte>, i: nat, t: seq<byte>)
    requires i == RunOf(s, SPACE) < |s| && |s + t| < HOLD
    ensures LineClass(NoBlock, s + t) == ClassifyText(i, s[i..] + t, true)
  {
    RunExtends(s, t, SPACE);
    assert (s + t)[i..] == s[i..] + t;
  }

  lemma TextWitnesses(s: seq<byte>, i: nat, r: seq<byte>) returns (t: seq<byte>, u: seq<byte>)
    requires Held(NoBlock, s) && i == RunOf(s, SPACE) < |s| && r == s[i..] && !ForegoneText(i, r)
    ensures NL !in t && NL !in u && LineClass(NoBlock, s + t) != LineClass(NoBlock, s + u)
  {
    var c := r[0];
    var k := RunOf(r, c);
    t := [];
    ShortLine(s, i, t);
    assert r + [] == r;
    hide LineClass, Held;
    if (c == TICK || c == TILDE) && k >= 3 {
      u := Repeat(X, HOLD - |s|);
      FenceForced(s, i, r);
    } else if (c == DASH || c == STAR || c == LOW) && k >= 3 {
      u := [X];
      RuleBroken(s, i, r);
    } else if c == GT && |s| == HOLD - 1 {
      u := [X];
      OneMore(NoBlock, s, X);
    } else {
      u := Longer(i, r);
      ShortLine(s, i, u);
    }
  }

  lemma FenceForced(s: seq<byte>, i: nat, r: seq<byte>)
    requires Held(NoBlock, s) && i == RunOf(s, SPACE) < |s| && r == s[i..] && (r[0] == TICK || r[0] == TILDE) && RunOf(r, r[0]) >= 3
    ensures LineClass(NoBlock, s + Repeat(X, HOLD - |s|)) == Class(Plain, 0)
  {
    var u, v := Repeat(X, HOLD - |s|), Repeat(X, HOLD - 1 - |s|);
    assert (s + u)[..HOLD - 1] == s + v;
    RunExtends(s, v, SPACE);
    RunGrows(r, v, r[0]);
    assert (s + v)[i..] == r + v && (r + v)[0] == r[0];
  }

  lemma RuleBroken(s: seq<byte>, i: nat, r: seq<byte>)
    requires Held(NoBlock, s) && i == RunOf(s, SPACE) < |s| && r == s[i..] && RunOf(r, r[0]) >= 3
    requires r[0] == DASH || r[0] == STAR || r[0] == LOW
    ensures LineClass(NoBlock, s + [X]) == Class(Plain, 0)
  {
    OneMore(NoBlock, s, X);
    if |s| < HOLD - 1 {
      ShortLine(s, i, [X]);
      Onward(r, [X], r[0]);
    }
  }

  /** Short starts of headings, quotes, bullets, fences and rules, which a byte or two can complete. */
  lemma Longer(i: nat, r: seq<byte>) returns (u: seq<byte>)
    requires r != [] && ClassifyText(i, r, false).kind.Undecided? && !ForegoneText(i, r) && i + |r| < HOLD
    requires RunOf(r, r[0]) < 3 || (r[0] != TICK && r[0] != TILDE && r[0] != DASH && r[0] != STAR && r[0] != LOW)
    requires r[0] == GT ==> i + |r| < HOLD - 1
    ensures NL !in u && i + |r + u| < HOLD && ClassifyText(i, r + u, true) != ClassifyText(i, r, true)
  {
    var c := r[0];
    var k := RunOf(r, c);
    if c == HASH || c == PLUS || c == GT || ((c == DASH || c == STAR) && k == 1) {
      u := [SPACE];
      RunThen(r, u, c);
      assert (r + u)[k] == SPACE;
    } else {
      u := Repeat(c, 3 - k);
      RunOfRun(r, c, 3 - k);
      assert (r + u)[3..] == [];
    }
  }

  lemma {:induction false} RunOfRun(s: seq<byte>, c: byte, n: nat)
    requires RunOf(s, c) == |s|
    ensures RunOf(s + Repeat(c, n), c) == |s| + n
  {
    if s != [] {
      assert (s + Repeat(c, n))[1..] == s[1..] + Repeat(c, n);
      RunOfRun(s[1..], c, n);
    } else {
      assert s + Repeat(c, n) == Repeat(c, n);
      if n > 0 {
        assert Repeat(c, n)[1..] == [] + Repeat(c, n - 1);
        RunOfRun([], c, n - 1);
      }
    }
  }

  lemma CodeEnds(mark: byte, len: nat, s: seq<byte>) returns (t: seq<byte>)
    requires ClassifyCode(mark, len, s, false).kind.Undecided? && mark != SPACE && mark != NL
    ensures NL !in t && ClassifyCode(mark, len, s + t, true) == Class(Close, 0)
    ensures
      var k := RunOf(s[RunOf(s, SPACE)..], mark);
      |t| == if k < len then len - k else 0
  {
    var i := RunOf(s, SPACE);
    var r := s[i..];
    var k := RunOf(r, mark);
    if k >= len {
      t := [];
      assert s + t == s;
    } else {
      t := Repeat(mark, len - k);
      Onward(s, t, SPACE);
      RunOfRun(r, mark, len - k);
      hide RunOf;
      assert (s + t)[i..] == r + t && (r + t)[len..] == [];
    }
  }

  lemma CodeGoesOn(mark: byte, len: nat, s: seq<byte>, u: seq<byte>)
    requires ClassifyCode(mark, len, s, false).kind.Undecided?
    requires u != [] && u[0] != SPACE && u[0] != TAB && u[0] != mark
    ensures ClassifyCode(mark, len, s + u, true) == Class(Code, 0)
  {
    var i := RunOf(s, SPACE);
    var r := s[i..];
    var k := RunOf(r, mark);
    Onward(s, u, SPACE);
    assert (s + u)[i..] == r + u;
    Onward(r, u, mark);
    assert (r + u)[k..] == r[k..] + u;
    BlanksThen(r[k..], u);
  }

  lemma {:induction false} BlanksThen(s: seq<byte>, t: seq<byte>)
    requires BlanksOf(s) == |s| && t != [] && t[0] != SPACE && t[0] != TAB
    ensures BlanksOf(s + t) == |s|
  {
    if s == [] {
      assert s + t == t;
    } else {
      assert (s + t)[1..] == s[1..] + t;
      BlanksThen(s[1..], t);
    }
  }

  // ---- examples ----

  /** Each of these is held, and each is sure to be plain, or code. */
  lemma ForegoneStarts()
    ensures Held(NoBlock, Repeat(SPACE, 255)) && Foregone(NoBlock, Repeat(SPACE, 255))
    ensures Held(NoBlock, [PLUS, PLUS]) && Foregone(NoBlock, [PLUS, PLUS])
    ensures Held(NoBlock, [TICK, TICK, TICK, X, TICK]) && Foregone(NoBlock, [TICK, TICK, TICK, X, TICK])
    ensures Held(InBlock(TICK, 255), [SPACE, SPACE]) && Foregone(InBlock(TICK, 255), [SPACE, SPACE])
  {
    assert Repeat(SPACE, 255) + [] == Repeat(SPACE, 255);
    RunOfRepeat(SPACE, 255, []);
    RunsOf(PLUS, 2, []);
    RunsOf(TICK, 3, [X, TICK]);
    RunsOf(SPACE, 2, []);
    var s: seq<byte> := [TICK, TICK, TICK, X, TICK];
    assert Repeat(TICK, 3) + [X, TICK] == s && s[0..] == s && s[3..] == [X, TICK] && s[4] == TICK;
    assert RunOf(s, SPACE) == 0;
    assert Repeat(PLUS, 2) == [PLUS, PLUS] && [PLUS, PLUS][0..] == [PLUS, PLUS];
    assert Repeat(SPACE, 2) == [SPACE, SPACE] && [SPACE, SPACE][2..] == [];
  }

  lemma RunsOf(c: byte, n: nat, rest: seq<byte>)
    requires rest == [] || rest[0] != c
    ensures RunOf(Repeat(c, n) + rest, c) == n && Repeat(c, n) + [] == Repeat(c, n)
  {
    RunOfRepeat(c, n, rest);
  }

  /** Three tildes start a fence only while the line stays within 255 bytes. */
  lemma TildesOpenAFenceWhileShort(t: seq<byte>)
    ensures LineClass(NoBlock, [TILDE, TILDE, TILDE] + t) == Class(if |t| + 3 < HOLD then Fence else Plain, 0)
  {
    var s: seq<byte> := [TILDE, TILDE, TILDE];
    RunsOf(TILDE, 3, []);
    assert Repeat(TILDE, 3) == s && s[0..] == s;
    if |t| + 3 < HOLD {
      TildesAre(t, true);
    } else {
      assert (s + t)[..HOLD - 1] == s + t[..HOLD - 4];
      TildesAre(t[..HOLD - 4], false);
    }
  }

  lemma TildesAre(t: seq<byte>, complete: bool)
    ensures Classify(NoBlock, [TILDE, TILDE, TILDE] + t, complete) == Class(if complete then Fence else Undecided, 0)
  {
    var s: seq<byte> := [TILDE, TILDE, TILDE];
    RunsOf(TILDE, 3, []);
    assert Repeat(TILDE, 3) == s && (s + t)[0..] == s + t;
    RunGrows(s, t, TILDE);
  }
}
