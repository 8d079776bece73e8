/** UTF-8 as RFC 3629 defines it, less U+0000, and the cleaning of tool output. */
module Utf8 {
  import opened Bytes

  /** Unicode scalar values other than U+0000. */
  type Scalar = v: int | 0 < v <= 0x10FFFF && !(0xD800 <= v <= 0xDFFF) witness 1

  /** Section 3 of RFC 3629. */
  function Encode(v: Scalar): (s: seq<byte>)
    ensures 1 <= |s| <= 4
  {
    var a := v / 64;
    var b := a / 64;
    if v < 0x80 then [v]
    else if v < 0x800 then [0xC0 + a, 0x80 + v % 64]
    else if v < 0x10000 then [0xE0 + b, 0x80 + a % 64, 0x80 + v % 64]
    else [0xF0 + b / 64, 0x80 + b % 64, 0x80 + a % 64, 0x80 + v % 64]
  }

  function EncodeAll(vs: seq<Scalar>): seq<byte> {
    if vs == [] then [] else Encode(vs[0]) + EncodeAll(vs[1..])
  }

  /** How many bytes the character starting with `c` has; 0 if none starts with it. */
  function LeadLen(c: byte): nat {
    if 0x01 <= c <= 0x7F then 1
    else if 0xC2 <= c <= 0xDF then 2
    else if 0xE0 <= c <= 0xEF then 3
    else if 0xF0 <= c <= 0xF4 then 4
    else 0
  }

  /** The second bytes that section 4 of RFC 3629 allows after `c`. */
  predicate SecondAllowed(c: byte, d: byte) {
    (if c == 0xE0 then 0xA0 else if c == 0xF0 then 0x90 else 0x80) <= d
      <= (if c == 0xED then 0x9F else if c == 0xF4 then 0x8F else 0xBF)
  }

  /** The length of the character at the start of `s`, by the grammar of section 4; 0 if none. */
  function CharLen(s: seq<byte>): (k: nat)
    ensures k <= |s| && k <= 4
  {
    if s == [] then 0 else
    var k := LeadLen(s[0]);
    if |s| < k || (k > 1 && !SecondAllowed(s[0], s[1])) || (k > 2 && !IsCont(s[2])) || (k > 3 && !IsCont(s[3]))
    then 0 else k
  }

  /** A character is a byte that is no continuation, then continuations. */
  lemma CharShape(s: seq<byte>)
    requires CharLen(s) > 0
    ensures !IsCont(s[0]) && forall i :: 1 <= i < CharLen(s) ==> IsCont(s[i])
  {
  }

  /** `high` followed by the six bits that the continuation byte `b` carries. */
  function Shift(high: int, b: byte): int { high * 64 + (b - 0x80) }

  lemma ShiftInverts(high: int, b: byte)
    requires IsCont(b)
    ensures Shift(high, b) / 64 == high && 0x80 + Shift(high, b) % 64 == b
  {
  }

  function Decode(s: seq<byte>): (v: int)
    requires CharLen(s) > 0
  {
    var c: int := s[0];
    match CharLen(s)
    case 1 => c
    case 2 => Shift(c - 0xC0, s[1])
    case 3 => Shift(Shift(c - 0xE0, s[1]), s[2])
    case _ => Shift(Shift(Shift(c - 0xF0, s[1]), s[2]), s[3])
  }

  lemma DecodeInverts(s: seq<byte>) returns (v: Scalar)
    requires CharLen(s) > 0
    ensures v == Decode(s) && Encode(v) == s[..CharLen(s)]
  {
    var c: int := s[0];
    match CharLen(s) {
      case 1 =>
      case 2 => ShiftInverts(c - 0xC0, s[1]);
      case 3 =>
        ShiftInverts(c - 0xE0, s[1]);
        ShiftInverts(Shift(c - 0xE0, s[1]), s[2]);
      case _ =>
        ShiftInverts(c - 0xF0, s[1]);
        ShiftInverts(Shift(c - 0xF0, s[1]), s[2]);
        ShiftInverts(Shift(Shift(c - 0xF0, s[1]), s[2]), s[3]);
    }
    v := Decode(s);
  }

  lemma EncodeParses(v: Scalar, rest: seq<byte>)
    ensures CharLen(Encode(v) + rest) == |Encode(v)|
    ensures Decode(Encode(v) + rest) == v
  {
    var e := Encode(v);
    var s := e + rest;
    assert s[0] == e[0];
    if v < 0x80 {
    } else if v < 0x800 {
      assert s[1] == e[1];
    } else if v < 0x10000 {
      assert s[1] == e[1] && s[2] == e[2];
      assert LeadLen(e[0]) == 3;
    } else {
      assert s[1] == e[1] && s[2] == e[2] && s[3] == e[3];
      assert LeadLen(e[0]) == 4;
    }
  }

  /** The grammar of section 4 and the encoding of section 3 describe the same sequences. */
  lemma CharLenIsEncoding(s: seq<byte>)
    ensures CharLen(s) > 0 <==> exists v: Scalar :: Encode(v) <= s
    ensures forall v: Scalar :: Encode(v) <= s ==> CharLen(s) == |Encode(v)| && Decode(s) == v
  {
    forall v: Scalar | Encode(v) <= s ensures CharLen(s) == |Encode(v)| && Decode(s) == v {
      EncodeParses(v, s[|Encode(v)|..]);
      assert s == Encode(v) + s[|Encode(v)|..];
    }
    if CharLen(s) > 0 {
      var v := DecodeInverts(s);
      assert Encode(v) <= s;
    }
  }

  method Utf8Len(p: seq<byte>) returns (len: nat)
    requires p != []
    ensures len == CharLen(p)
  {
    var c := p[0];
    if 0x01 <= c <= 0x7F { return 1; }
    var lo, hi := 0x80, 0xBF;
    if 0xC2 <= c <= 0xDF {
      len := 2;
    } else if 0xE0 <= c <= 0xEF {
      len := 3;
      if c == 0xE0 { lo := 0xA0; } else if c == 0xED { hi := 0x9F; }
    } else if 0xF0 <= c <= 0xF4 {
      len := 4;
      if c == 0xF0 { lo := 0x90; } else if c == 0xF4 { hi := 0x8F; }
    } else {
      return 0;
    }
    if |p| < len || p[1] < lo || p[1] > hi { return 0; }
    for i := 2 to len
      invariant forall j :: 2 <= j < i ==> IsCont(p[j])
    {
      if !IsCont(p[i]) { return 0; }
    }
  }
}
