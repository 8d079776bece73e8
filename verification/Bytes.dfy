/** Bytes, and the few facts about sequences of them that several modules share. */
module Bytes {

  type byte = b: int | 0 <= b < 256

  /** A byte of a C string: the terminating NUL is not part of it. */
  type cchar = b: byte | b != 0 witness 1

  const TAB: byte := 9
  const NL: byte := 10
  const CR: byte := 13
  const ESC: byte := 27
  const SPACE: byte := 32

  /** UTF-8 writes the C1 controls in two bytes: this one, and one of 0x80..0x9F. */
  const LEAD: byte := 0xC2

  predicate IsC1(b: byte) { 0x80 <= b <= 0x9F }

  /** The bytes 0x80..0xBF, which only ever continue a UTF-8 sequence. */
  predicate IsCont(b: byte) { 0x80 <= b <= 0xBF }

  function Min(a: int, b: int): int { if a < b then a else b }

  function Repeat<T>(c: T, n: nat): (r: seq<T>) { seq(n, _ => c) }

  /** An ASCII literal as bytes. */
  function Ascii(s: string): (r: seq<byte>)
    ensures |r| == |s| && IsText(r)
  {
    seq(|s|, i requires 0 <= i < |s| => if 1 <= s[i] as int < 128 then s[i] as int else 63)
  }

  predicate IsText(s: seq<byte>) { forall i :: 0 <= i < |s| ==> 1 <= s[i] < 128 }

  /** `n` in decimal. */
  function Decimal(n: nat): (r: seq<byte>)
    ensures IsText(r) && |r| > 0
  {
    if n < 10 then [48 + n] else Decimal(n / 10) + [48 + n % 10]
  }

  /** The first `n` elements, or all when there are fewer. */
  function First<T>(s: seq<T>, n: nat): seq<T> { if |s| <= n then s else s[..n] }

  /** What `First` leaves. */
  function Rest<T>(s: seq<T>, n: nat): seq<T> { if |s| <= n then [] else s[n..] }

  /** The last `n` elements, or all when there are fewer. */
  function Last<T>(s: seq<T>, n: nat): seq<T> { if |s| <= n then s else s[|s| - n..] }

  lemma LastOfLast<T>(a: seq<T>, b: seq<T>, n: nat)
    ensures Last(Last(a, n) + b, n) == Last(a + b, n)
  {
  }

  /** `a` can be obtained from `b` by leaving elements out. */
  predicate Subsequence<T(==)>(a: seq<T>, b: seq<T>) {
    a == [] || (b != [] && ((a[0] == b[0] && Subsequence(a[1..], b[1..])) || Subsequence(a, b[1..])))
  }

  lemma {:induction false} SubsequenceMore<T>(a: seq<T>, b: seq<T>, x: T)
    requires Subsequence(a, b)
    ensures Subsequence(a, b + [x]) && Subsequence(a + [x], b + [x])
    decreases |b|
  {
    if b == [] {
      assert (a + [x])[1..] == [];
    } else {
      assert (b + [x])[1..] == b[1..] + [x];
      if a == [] {
        SubsequenceMore(a, b[1..], x);
      } else if a[0] == b[0] && Subsequence(a[1..], b[1..]) {
        assert (a + [x])[1..] == a[1..] + [x];
        SubsequenceMore(a[1..], b[1..], x);
      } else {
        SubsequenceMore(a, b[1..], x);
      }
    }
  }

  lemma SameAfter<T>(p: seq<T>, a: seq<T>, b: seq<T>, c: seq<T>)
    ensures (p + a) + b == p + c <==> a + b == c
  {
    assert (p + a) + b == p + (a + b);
    if (p + a) + b == p + c {
      assert a + b == (p + (a + b))[|p|..] && c == (p + c)[|p|..];
    }
  }

  lemma Associate<T>(a: seq<T>, b: seq<T>, c: seq<T>)
    ensures (a + b) + c == a + (b + c)
  {
  }

  lemma Suffixes<T>(a: seq<T>, b: seq<T>, c: seq<T>)
    requires a <= b <= c
    ensures a <= c && c[|a|..] == b[|a|..] + c[|b|..]
  {
  }

  lemma Around<T>(s: seq<T>, i: nat)
    requires i < |s|
    ensures s == s[..i] + [s[i]] + s[i + 1..]
  {
  }

  lemma DropTwice<T>(s: seq<T>, k: nat, i: nat)
    requires k <= i <= |s|
    ensures s[k..][i - k..] == s[i..]
  {
  }

  lemma CutTwice<T>(s: seq<T>, i: nat, k: nat)
    requires k <= i <= |s|
    ensures s[..i][k..] == s[k..][..i - k] && s[..i][..k] == s[..k]
  {
  }

  function Concat<T>(parts: seq<seq<T>>): seq<T> { if parts == [] then [] else parts[0] + Concat(parts[1..]) }

  lemma {:induction false} ConcatMore<T>(parts: seq<seq<T>>, p: seq<T>)
    ensures Concat(parts + [p]) == Concat(parts) + p
  {
    if parts == [] {
      assert [p][1..] == [] && [] + [p] == [p];
    } else {
      assert (parts + [p])[0] == parts[0] && (parts + [p])[1..] == parts[1..] + [p];
      ConcatMore(parts[1..], p);
    }
  }
}
