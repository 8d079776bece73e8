/** Writing SGR sequences, parameter by parameter. */
module Sgr {
  import opened Bytes
  import opened Terminal

  /** Each parameter followed by ';'. */
  function Separated(ps: seq<nat>): seq<byte> {
    if ps == [] then [] else Digits(ps[0]) + [';' as int] + Separated(ps[1..])
  }

  lemma {:induction false} SeparatedConcat(ps: seq<nat>, qs: seq<nat>)
    ensures Separated(ps + qs) == Separated(ps) + Separated(qs)
  {
    if ps == [] {
      assert ps + qs == qs;
    } else {
      assert (ps + qs)[1..] == ps[1..] + qs;
      SeparatedConcat(ps[1..], qs);
    }
  }

  lemma SeparatedOne(on: bool, p: nat)
    ensures Separated(If(on, [p])) == Item(on, p)
  {
    if on { assert [p][1..] == []; }
  }

  lemma SeparatedSix(p0: seq<nat>, p1: seq<nat>, p2: seq<nat>, p3: seq<nat>, p4: seq<nat>, p5: seq<nat>)
    ensures Separated(p0 + p1 + p2 + p3 + p4 + p5)
      == Separated(p0) + Separated(p1) + Separated(p2) + Separated(p3) + Separated(p4) + Separated(p5)
  {
    hide Separated;
    SeparatedConcat(p0 + p1 + p2 + p3 + p4, p5);
    SeparatedConcat(p0 + p1 + p2 + p3, p4);
    SeparatedConcat(p0 + p1 + p2, p3);
    SeparatedConcat(p0 + p1, p2);
    SeparatedConcat(p0, p1);
  }

  /** The optional parameter `p` and its ';'. */
  function Item(on: bool, p: nat): seq<byte> { if on then Digits(p) + [';' as int] else [] }

  lemma SeparatedParams(from: Style, s: Style)
    ensures Separated(Params(from, s)) == Item(from != PLAIN, 0) + Item(s.h || s.b, 1) + Item(s.d, 2)
      + Item(s.i, 3) + Item(s.h, 4) + Item(s.c, 32)
  {
    hide Separated, If, Item;
    SeparatedSix(If(from != PLAIN, [0]), If(s.h || s.b, [1]), If(s.d, [2]), If(s.i, [3]), If(s.h, [4]), If(s.c, [32]));
    SeparatedOne(from != PLAIN, 0);
    SeparatedOne(s.h || s.b, 1);
    SeparatedOne(s.d, 2);
    SeparatedOne(s.i, 3);
    SeparatedOne(s.h, 4);
    SeparatedOne(s.c, 32);
  }

  /** The sequence with these parameters: 'm' replaces the last ';'. */
  function Closed(p: seq<byte>): (r: seq<byte>)
    requires p != []
    ensures |r| == |p| + 2
  {
    [ESC, '[' as int] + (p[..|p| - 1] + ['m' as int])
  }

  lemma ChangeIsClosed(from: Style, s: Style)
    requires from != s
    ensures Separated(Params(from, s)) != [] && Change(from, s) == Closed(Separated(Params(from, s)))
  {
    ParamsChange(from, s);
    hide Params, Separated, Known;
    SeparatedEnds(Params(from, s));
  }

  lemma {:induction false} SeparatedEnds(ps: seq<nat>)
    requires ps != []
    ensures |Separated(ps)| > 0
    ensures Separated(ps)[..|Separated(ps)| - 1] + ['m' as int] == Ended(ps)
  {
    if |ps| > 1 { SeparatedEnds(ps[1..]); }
  }

  method Append(p: seq<byte>, on: bool, k: nat) returns (q: seq<byte>)
    ensures q == p + Item(on, k) && |q| <= |p| + if k < 10 then 2 else 3
  {
    q := if on then p + (Digits(k) + [';' as int]) else p;
  }

  /** ESC [, parameters separated by ';', 'm': the buffer of 24 bytes is large enough. */
  method Sequence(from: Style, s: Style) returns (p: seq<byte>)
    requires s != from
    ensures p == Change(from, s) && |p| < 24
  {
    SeparatedParams(from, s);
    ChangeIsClosed(from, s);
    hide Params, Separated, Known, Item, Closed, Change, Digits;
    p := Attributes(from, s);
    p := Append(p, s.i, 3);
    p := Append(p, s.h, 4);
    p := Append(p, s.c, 32);
    p := Closed(p);
  }

  /** The first parameters: reset, bold, faint. */
  method Attributes(from: Style, s: Style) returns (p: seq<byte>)
    ensures p == Item(from != PLAIN, 0) + Item(s.h || s.b, 1) + Item(s.d, 2) && |p| <= 6
  {
    hide Item;
    p := Append([], from != PLAIN, 0);
    assert [] + Item(from != PLAIN, 0) == Item(from != PLAIN, 0);
    p := Append(p, s.h || s.b, 1);
    p := Append(p, s.d, 2);
  }
}
