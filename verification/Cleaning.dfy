/** Replacing invalid UTF-8 by U+FFFD, and where text may be cut in two. */
module Cleaning {
  import opened Bytes
  import opened Utf8

  /** U+FFFD, the replacement character. */
  const FFFD: seq<byte> := [0xEF, 0xBF, 0xBD]

  /** Whole characters from end to end. */
  predicate Valid(s: seq<byte>) {
    s == [] || (CharLen(s) > 0 && Valid(s[CharLen(s)..]))
  }

  /** Whole characters kept, every other byte replaced. */
  function Clean(s: seq<byte>): seq<byte> {
    if s == [] then []
    else if CharLen(s) > 0 then s[..CharLen(s)] + Clean(s[CharLen(s)..])
    else FFFD + Clean(s[1..])
  }

  /** A character of `s` starts before `i` and ends after it. */
  predicate Straddles(s: seq<byte>, i: nat)
    requires i <= |s|
  {
    exists p :: 0 <= p < i && p + CharLen(s[p..]) > i
  }

  lemma CharLenAppend(a: seq<byte>, b: seq<byte>)
    requires CharLen(a) > 0
    ensures CharLen(a + b) == CharLen(a)
  {
  }

  /** A shorter view of `s` shows the same first character, unless it cuts that character. */
  lemma CharLenPrefix(s: seq<byte>, i: nat)
    requires i <= |s|
    ensures CharLen(s[..i]) == if CharLen(s) <= i then CharLen(s) else 0
  {
    if CharLen(s[..i]) > 0 {
      CharLenAppend(s[..i], s[i..]);
      assert s[..i] + s[i..] == s;
    }
  }

  /** `Valid` accepts exactly the encodings of sequences of scalar values. */
  lemma ValidIffEncoded(s: seq<byte>)
    ensures Valid(s) <==> exists vs: seq<Scalar> :: EncodeAll(vs) == s
  {
    if Valid(s) { var vs := Decoded(s); }
    forall vs: seq<Scalar> | EncodeAll(vs) == s ensures Valid(s) { EncodedIsValid(vs); }
  }

  lemma {:induction false} Decoded(s: seq<byte>) returns (vs: seq<Scalar>)
    requires Valid(s)
    ensures EncodeAll(vs) == s
  {
    if s == [] {
      vs := [];
    } else {
      ValidFirst(s);
      hide *;
      var v := DecodeInverts(s);
      var rest := Decoded(s[CharLen(s)..]);
      vs := [v] + rest;
      EncodeFirst(v, rest);
    }
  }

  lemma ValidFirst(s: seq<byte>)
    requires Valid(s) && s != []
    ensures CharLen(s) > 0 && Valid(s[CharLen(s)..]) && s == s[..CharLen(s)] + s[CharLen(s)..]
  {
    hide CharLen;
  }

  lemma EncodeFirst(v: Scalar, rest: seq<Scalar>)
    ensures EncodeAll([v] + rest) == Encode(v) + EncodeAll(rest)
  {
    assert ([v] + rest)[1..] == rest;
  }

  lemma {:induction false} EncodedIsValid(vs: seq<Scalar>)
    ensures Valid(EncodeAll(vs))
  {
    if vs != [] {
      EncodedIsValid(vs[1..]);
      EncodeParses(vs[0], EncodeAll(vs[1..]));
      assert EncodeAll(vs)[|Encode(vs[0])|..] == EncodeAll(vs[1..]);
    }
  }

  lemma CleanStep(a: seq<byte>, b: seq<byte>)
    requires CharLen(a) > 0
    ensures Clean(a + b) == a[..CharLen(a)] + Clean(a[CharLen(a)..] + b)
    ensures Valid(a + b) <==> Valid(a[CharLen(a)..] + b)
  {
    var k := CharLen(a);
    CharLenAppend(a, b);
    assert (a + b)[..k] == a[..k] && (a + b)[k..] == a[k..] + b;
  }

  lemma {:induction false} CleanDistributes(a: seq<byte>, b: seq<byte>)
    requires Valid(a)
    ensures Clean(a + b) == a + Clean(b)
    ensures Valid(a + b) <==> Valid(b)
  {
    if a == [] {
      assert a + b == b;
    } else {
      var k := CharLen(a);
      CleanStep(a, b);
      CleanDistributes(a[k..], b);
      assert a[..k] + (a[k..] + Clean(b)) == a + Clean(b);
    }
  }

  lemma {:induction false} CleanIsValid(s: seq<byte>)
    ensures Valid(Clean(s)) && |Clean(s)| >= |s|
  {
    if s != [] {
      var k := CharLen(s);
      if k > 0 {
        CleanIsValid(s[k..]);
        CharLenPrefix(s, k);
        CleanDistributes(s[..k], Clean(s[k..]));
      } else {
        CleanIsValid(s[1..]);
        CleanDistributes(FFFD, Clean(s[1..]));
      }
    }
  }

  /** Valid text, and only valid text, is left as it is. */
  lemma CleanIdentity(s: seq<byte>)
    ensures Clean(s) == s <==> Valid(s)
  {
    CleanIsValid(s);
    if Valid(s) {
      CleanDistributes(s, []);
      assert s + [] == s;
    }
  }

  lemma CleanIdempotent(s: seq<byte>)
    ensures Clean(Clean(s)) == Clean(s)
  {
    CleanIsValid(s);
    CleanIdentity(Clean(s));
  }

  lemma CharLeads(s: seq<byte>)
    requires s != [] && IsCont(s[0])
    ensures CharLen(s) == 0
  {
    if CharLen(s) > 0 { CharShape(s); }
  }

  lemma {:induction false} CleanContinuations(s: seq<byte>, m: nat)
    requires m <= |s| && forall j :: 0 <= j < m ==> IsCont(s[j])
    ensures |Clean(s)| == 3 * m + |Clean(s[m..])|
  {
    if m > 0 {
      CharLeads(s);
      hide CharLen, IsCont;
      CleanContinuations(s[1..], m - 1);
      assert s[1..][m - 1..] == s[m..];
    }
  }

  /** How many bytes cleaning looks at together, and what it makes of them. */
  function StepOf(s: seq<byte>): (r: nat)
    requires s != []
    ensures 1 <= r <= |s|
  {
    if CharLen(s) > 0 then CharLen(s) else 1
  }

  function PieceOf(s: seq<byte>): seq<byte>
    requires s != []
  {
    if CharLen(s) > 0 then s[..CharLen(s)] else FFFD
  }

  lemma CleanFirst(s: seq<byte>)
    requires s != []
    ensures Clean(s) == PieceOf(s) + Clean(s[StepOf(s)..])
  {
  }

  lemma FirstOfPrefix(s: seq<byte>, i: nat)
    requires s != [] && StepOf(s) <= i <= |s|
    ensures StepOf(s[..i]) == StepOf(s) && PieceOf(s[..i]) == PieceOf(s)
  {
    CharLenPrefix(s, i);
    hide CharLen;
    CutTwice(s, i, StepOf(s));
  }

  lemma CleanHead(s: seq<byte>, i: nat)
    requires s != [] && StepOf(s) <= i <= |s|
    ensures Clean(s) == PieceOf(s) + Clean(s[StepOf(s)..])
    ensures Clean(s[..i]) == PieceOf(s) + Clean(s[StepOf(s)..][..i - StepOf(s)])
  {
    CleanFirst(s);
    CleanFirst(s[..i]);
    FirstOfPrefix(s, i);
    hide Clean, StepOf, PieceOf;
    CutTwice(s, i, StepOf(s));
  }

  /** What is not the start of a character is replaced byte by byte, by U+FFFD. */
  lemma CleanStepByStep(s: seq<byte>)
    requires s != []
    ensures CharLen(s) == 0 ==> Clean(s) == Encode(0xFFFD) + Clean(s[1..])
    ensures CharLen(s) > 0 ==> Clean(s) == s[..CharLen(s)] + Clean(s[CharLen(s)..])
  {
    CleanFirst(s);
    hide CharLen, Clean;
  }

  /** Cleaning the two sides of a cut separately is cleaning the whole, exactly when the cut
      falls on a character boundary. */
  lemma {:induction false} CleanSplits(s: seq<byte>, i: nat)
    requires i <= |s|
    ensures Clean(s[..i]) + Clean(s[i..]) == Clean(s) <==> !Straddles(s, i)
  {
    hide *;
    if i == 0 {
      NoCut(s);
    } else if StepOf(s) <= i {
      var t := s[StepOf(s)..];
      CleanSplits(t, i - StepOf(s));
      StraddlesLater(s, i);
      CleanHead(s, i);
      DropTwice(s, StepOf(s), i);
      SameAfter(PieceOf(s), Clean(t[..i - StepOf(s)]), Clean(s[i..]), Clean(t));
    } else {
      CutInFirst(s, i);
    }
  }

  lemma NoCut(s: seq<byte>)
    ensures Clean(s[..0]) + Clean(s[0..]) == Clean(s) && !Straddles(s, 0)
  {
    assert s[..0] == [] && s[0..] == s;
    assert Clean([]) == [];
  }

  lemma CutInFirst(s: seq<byte>, i: nat)
    requires s != [] && 0 < i < StepOf(s)
    ensures |Clean(s[..i])| + |Clean(s[i..])| > |Clean(s)| && Straddles(s, i)
  {
    CleanTornApart(s, i);
    hide CharLen, Clean;
    assert s[0..] == s && 0 + CharLen(s[0..]) > i;
  }

  /** Each byte of a character cut in two is replaced, on both sides of the cut. */
  lemma CleanTornApart(s: seq<byte>, i: nat)
    requires 0 < i < CharLen(s)
    ensures |Clean(s[..i])| + |Clean(s[i..])| > |Clean(s)|
  {
    var k := CharLen(s);
    CharShape(s);
    hide CharLen;
    CharLenPrefix(s, i);
    var a, b := s[..i], s[i..];
    assert a[1..][i - 1..] == [] && b[k - i..] == s[k..];
    CleanContinuations(a[1..], i - 1);
    CleanContinuations(b, k - i);
    assert |Clean(a)| == 3 + |Clean(a[1..])|;
  }

  /** No character starts inside another. */
  lemma FirstEnds(s: seq<byte>, p: nat)
    requires s != [] && p < StepOf(s)
    ensures p + CharLen(s[p..]) <= StepOf(s)
  {
    if p == 0 {
      assert s[0..] == s;
    } else {
      CharShape(s);
      assert s[p..][0] == s[p];
      CharLeads(s[p..]);
    }
  }

  lemma StraddlesLater(s: seq<byte>, i: nat)
    requires s != [] && StepOf(s) <= i <= |s|
    ensures Straddles(s, i) <==> Straddles(s[StepOf(s)..], i - StepOf(s))
  {
    hide CharLen, StepOf;
    var step := StepOf(s);
    var t := s[step..];
    if Straddles(s, i) {
      var p :| 0 <= p < i && p + CharLen(s[p..]) > i;
      if p < step { FirstEnds(s, p); }
      assert t[p - step..] == s[p..];
    }
    if Straddles(t, i - step) {
      var p :| 0 <= p < i - step && p + CharLen(t[p..]) > i - step;
      assert t[p..] == s[p + step..];
    }
  }

  /** In valid text a cut splits a character exactly when a continuation byte follows it. */
  lemma ValidCut(s: seq<byte>, i: nat)
    requires Valid(s) && i <= |s|
    ensures Straddles(s, i) <==> i < |s| && IsCont(s[i])
    ensures !Straddles(s, i) ==> Valid(s[..i]) && Valid(s[i..])
  {
    if Straddles(s, i) {
      var p :| 0 <= p < i && p + CharLen(s[p..]) > i;
      CharShape(s[p..]);
      assert s[p..][i - p] == s[i];
    } else {
      CleanSplits(s, i);
      CleanIdentity(s);
      CleanIsValid(s[..i]);
      CleanIsValid(s[i..]);
      var a, b := Clean(s[..i]), Clean(s[i..]);
      assert a + b == s[..i] + s[i..] by { assert s == s[..i] + s[i..]; }
      assert a == (a + b)[..i] && b == (a + b)[i..];
      if i < |s| { CharShape(s[i..]); }
    }
  }

  method ValidUtf8(b: seq<byte>) returns (r: bool)
    ensures r <==> Valid(b)
  {
    var i := 0;
    assert b[0..] == b;
    while i < |b|
      invariant i <= |b|
      invariant Valid(b) <==> Valid(b[i..])
    {
      var k := Utf8Len(b[i..]);
      if k == 0 { return false; }
      assert b[i..][k..] == b[i + k..];
      i := i + k;
    }
    return true;
  }

  /** The first loop is the common case, text already valid: it copies nothing. */
  method SanitizeUtf8(b: seq<byte>) returns (out: seq<byte>)
    ensures out == Clean(b)
  {
    hide CharLen, Clean;
    var i: nat := 0;
    var k := 1;
    assert b[..0] == [] && b[0..] == b;
    while i < |b| && k > 0
      invariant i <= |b|
      invariant Clean(b) == b[..i] + Clean(b[i..])
      decreases |b| - i + k
    {
      k := Utf8Len(b[i..]);
      if k > 0 { CleanAdvance(b, b[..i], i); }
      i := i + k;
    }
    if i == |b| {
      CleanEnd(b, b);
      return b;
    }
    out := b[..i];
    while i < |b|
      invariant i <= |b|
      invariant Clean(b) == out + Clean(b[i..])
    {
      k := Utf8Len(b[i..]);
      CleanAdvance(b, out, i);
      if k > 0 {
        out := out + b[i..i + k];
        i := i + k;
      } else {
        out := out + FFFD;
        i := i + 1;
      }
    }
    CleanEnd(b, out);
  }

  lemma CleanEnd(b: seq<byte>, out: seq<byte>)
    ensures out + Clean(b[|b|..]) == out && b[..|b|] == b
  {
  }

  lemma CleanAdvance(b: seq<byte>, out: seq<byte>, i: nat)
    requires i < |b|
    ensures
      var k := CharLen(b[i..]);
      out + Clean(b[i..]) == if k > 0 then (out + b[i..i + k]) + Clean(b[i + k..]) else (out + FFFD) + Clean(b[i + 1..])
    ensures b[..i] + b[i..i + CharLen(b[i..])] == b[..i + CharLen(b[i..])]
  {
    hide CharLen;
    var k := CharLen(b[i..]);
    assert b[i..][k..] == b[i + k..] && b[i..][..k] == b[i..i + k];
    assert b[i..][1..] == b[i + 1..];
  }
}
