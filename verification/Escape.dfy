/** Text with its control characters made visible. */
module Escape {
  import opened Wrappers
  import opened Bytes
  import opened Utf8
  import opened Cleaning

  const DEL: byte := 0x7F

  /** Characters of a C string. */
  type cstring = seq<cchar>

  predicate IsControl(c: byte, nl: bool) {
    (c < 0x20 && (nl || (c != NL && c != TAB))) || c == DEL
  }

  /** A C1 control, in two bytes, starts `s`. */
  predicate StartsC1(s: seq<byte>) { |s| >= 2 && s[0] == LEAD && IsC1(s[1]) }

  function Caret(c: byte): seq<byte>
    requires c < 0x20 || c == DEL
  {
    ['^' as int, if c == DEL then '?' as int else c + 64]
  }

  /** `r` with `before` in front of its text. */
  function After(before: seq<byte>, r: (seq<byte>, bool)): (seq<byte>, bool) { (before + r.0, r.1) }

  lemma AfterAfter(a: seq<byte>, b: seq<byte>, r: (seq<byte>, bool))
    ensures After(a, After(b, r)) == After(a + b, r)
    ensures After([], r) == r && After(a, r) == After(a + [], r)
  {
    assert a + (b + r.0) == (a + b) + r.0;
    assert [] + r.0 == r.0 && a + [] == a;
  }

  lemma AfterInjective(a: seq<byte>, r: (seq<byte>, bool), q: (seq<byte>, bool))
    requires After(a, r) == After(a, q)
    ensures r == q
  {
    assert r.0 == (a + r.0)[|a|..] == (a + q.0)[|a|..] == q.0;
  }

  datatype Step = Step(out: seq<byte>, cr: bool, used: nat)

  /** What the start of `s` shows as, after a held carriage return if `cr`. */
  function Next(cr: bool, s: seq<byte>, nl: bool): (n: Step)
    requires s != []
    ensures 1 <= n.used <= |s|
  {
    var before := if cr then Caret(CR) else [];
    if cr && s[0] == NL then Step([NL], false, 1)
    else if s[0] == CR && !nl then Step(before, true, 1)
    else if StartsC1(s) then Step(before + ['M' as int, '-' as int] + Caret(s[1] - 0x80), false, 2)
    else Step(before + (if IsControl(s[0], nl) then Caret(s[0]) else [s[0]]), false, 1)
  }

  /** What `s` shows as after a held carriage return (`cr`), and whether it ends in a held one. */
  function Run(cr: bool, s: seq<byte>, nl: bool): (r: (seq<byte>, bool))
    decreases |s|
  {
    if s == [] then ([], cr)
    else var n := Next(cr, s, nl); After(n.out, Run(n.cr, s[n.used..], nl))
  }

  /** What a complete text shows as. */
  function Complete(s: seq<byte>, nl: bool): seq<byte> {
    Flushed(Run(false, s, nl))
  }

  function Flush(held: bool): seq<byte> { if held then Caret(CR) else [] }

  class State {
    var cr: bool

    constructor ()
      ensures !cr
    {
      cr := false;
    }
  }

  lemma RunAt(b: seq<byte>, cr: bool, p: seq<byte>, i: nat, nl: bool)
    requires i <= |p|
    ensures
      if i == |p| then After(b, Run(cr, p[i..], nl)) == (b, cr)
      else
        var n := Next(cr, p[i..], nl);
        After(b, Run(cr, p[i..], nl)) == After(b + n.out, Run(n.cr, p[i + n.used..], nl))
  {
    hide Next;
    if i < |p| {
      var n := Next(cr, p[i..], nl);
      assert p[i..][n.used..] == p[i + n.used..];
      AfterAfter(b, n.out, Run(n.cr, p[i + n.used..], nl));
    } else {
      assert b + [] == b;
    }
  }

  /** What the loop makes of the character at `i`. */
  method EscapeOne(held: bool, p: cstring, i: nat, nl: bool) returns (out: seq<byte>, cr: bool, used: nat)
    requires i < |p|
    ensures Step(out, cr, used) == Next(held, p[i..], nl)
  {
    cr := held;
    out := [];
    var c: byte := p[i];
    if cr && c == NL { return [NL], false, 1; }
    if cr {
      cr := false;
      out := Caret(CR);
    }
    used := 1;
    if c == CR && !nl {
      cr := true;
    } else if c == LEAD && i + 1 < |p| && IsC1(p[i + 1]) {
      used := 2;
      var d: byte := p[i + 1];
      out := out + ['M' as int, '-' as int] + Caret(d - 0x80);
    } else if IsControl(c, nl) {
      out := out + Caret(c);
    } else {
      out := out + [c];
    }
  }

  /** With a state the result and the carriage return kept in it are those of `Run`, and no text gives
      out what is kept; without a state the text counts as complete. */
  method Escape(e: State?, s: Option<cstring>, nl: bool) returns (b: seq<byte>)
    modifies e
    ensures e == null && s.Some? ==> b == Complete(s.value, nl)
    ensures e != null && s.Some? ==> (b, e.cr) == Run(old(e.cr), s.value, nl)
    ensures s.None? ==> b == Flush(e != null && old(e.cr))
    ensures e != null && s.None? ==> !e.cr
  {
    var p := if s.Some? then s.value else [];
    var cr;
    b, cr := EscapeAll(e != null && e.cr, p, nl);
    hide Next;
    if e == null || s.None? {
      b := b + Flush(cr);
      cr := false;
    }
    if e != null { e.cr := cr; }
  }

  /** The loop over the characters. */
  method EscapeAll(held: bool, p: cstring, nl: bool) returns (b: seq<byte>, cr: bool)
    ensures (b, cr) == Run(held, p, nl)
  {
    b, cr := [], held;
    var i := 0;
    hide Run, Next, Halfway;
    HalfwayStarts(held, p, nl);
    while i < |p|
      invariant i <= |p| && Halfway(held, p, nl, b, cr, i)
    {
      HalfwaySteps(held, p, nl, b, cr, i);
      var out, used;
      out, cr, used := EscapeOne(cr, p, i, nl);
      i := i + used;
      b := b + out;
    }
    HalfwayEnds(held, p, nl, b, cr);
  }

  /** Before `i`, `p` shows as `b`, and the rest follows with the carriage return that `cr` holds. */
  predicate Halfway(held: bool, p: seq<byte>, nl: bool, b: seq<byte>, cr: bool, i: nat)
    requires i <= |p|
  {
    Run(held, p, nl) == After(b, Run(cr, p[i..], nl))
  }

  lemma HalfwayStarts(held: bool, p: seq<byte>, nl: bool)
    ensures Halfway(held, p, nl, [], held, 0)
  {
    AfterAfter([], [], Run(held, p, nl));
    assert p[0..] == p;
  }

  lemma HalfwaySteps(held: bool, p: seq<byte>, nl: bool, b: seq<byte>, cr: bool, i: nat)
    requires i < |p| && Halfway(held, p, nl, b, cr, i)
    ensures
      var n := Next(cr, p[i..], nl);
      Halfway(held, p, nl, b + n.out, n.cr, i + n.used)
  {
    RunAt(b, cr, p, i, nl);
    hide Run, Next, After;
  }

  lemma HalfwayEnds(held: bool, p: seq<byte>, nl: bool, b: seq<byte>, cr: bool)
    requires Halfway(held, p, nl, b, cr, |p|)
    ensures Run(held, p, nl) == (b, cr)
  {
    RunAt(b, cr, p, |p|, nl);
    hide Run, Next, After;
  }

  /** A piece ends inside a C1 control that the next one completes. */
  predicate Torn(a: seq<byte>, b: seq<byte>) {
    a != [] && a[|a| - 1] == LEAD && b != [] && IsC1(b[0])
  }

  lemma NextPrefix(cr: bool, a: seq<byte>, b: seq<byte>, nl: bool)
    requires |a| > 1 || (|a| == 1 && !Torn(a, b))
    ensures
      var n := Next(cr, a, nl);
      Next(cr, a + b, nl) == n && (a + b)[n.used..] == a[n.used..] + b && (Torn(a, b) <==> Torn(a[n.used..], b))
  {
  }

  lemma TornDiffers(cr: bool, a: seq<byte>, b: seq<byte>, nl: bool)
    requires |a| == 1 && Torn(a, b)
    ensures Run(cr, a + b, nl) != After(Run(cr, a, nl).0, Run(Run(cr, a, nl).1, b, nl))
  {
    assert Run(false, a[1..], nl) == ([], false);
    var k := if cr then 2 else 0;
    assert Run(cr, a + b, nl).0[k] == 'M' as int;
    assert Run(cr, a, nl).0[k] == LEAD;
  }

  /** Two pieces show as the whole does, unless the cut falls inside a C1 control. */
  lemma {:induction false} RunConcat(cr: bool, a: seq<byte>, b: seq<byte>, nl: bool)
    ensures Run(cr, a + b, nl) == After(Run(cr, a, nl).0, Run(Run(cr, a, nl).1, b, nl)) <==> !Torn(a, b)
    decreases |a|
  {
    if a == [] {
      assert a + b == b;
      AfterAfter([], [], Run(cr, b, nl));
    } else if |a| == 1 && Torn(a, b) {
      TornDiffers(cr, a, b, nl);
    } else {
      hide Next, StartsC1;
      NextPrefix(cr, a, b, nl);
      var n := Next(cr, a, nl);
      var rest := a[n.used..];
      RunConcat(n.cr, rest, b, nl);
      var whole, first := Run(n.cr, rest + b, nl), Run(n.cr, rest, nl);
      var later := Run(first.1, b, nl);
      AfterAfter(n.out, first.0, later);
      if After(n.out, whole) == After(n.out, After(first.0, later)) {
        AfterInjective(n.out, whole, After(first.0, later));
      }
    }
  }

  /** The text that feeding `chunks` one by one and then flushing shows. */
  function Pieces(cr: bool, chunks: seq<seq<byte>>, nl: bool): seq<byte>
    decreases |chunks|
  {
    if chunks == [] then Flush(cr)
    else var r := Run(cr, chunks[0], nl); r.0 + Pieces(r.1, chunks[1..], nl)
  }

  function Flushed(r: (seq<byte>, bool)): seq<byte> { r.0 + Flush(r.1) }

  lemma FlushAfter(a: seq<byte>, r: (seq<byte>, bool))
    ensures Flushed(After(a, r)) == a + Flushed(r)
  {
  }

  /** Chunks of whole characters, fed one by one and flushed, show as their concatenation. */
  lemma {:induction false} ChunksShowAsWhole(cr: bool, chunks: seq<seq<byte>>, nl: bool)
    requires forall c :: c in chunks ==> Valid(c)
    ensures Valid(Concat(chunks))
    ensures Pieces(cr, chunks, nl) == Flushed(Run(cr, Concat(chunks), nl))
    decreases |chunks|
  {
    if chunks != [] {
      hide Next, Torn, Valid, CharLen, Flush;
      var c, rest := chunks[0], Concat(chunks[1..]);
      var r := Run(cr, c, nl);
      ChunksShowAsWhole(r.1, chunks[1..], nl);
      CleanDistributes(c, rest);
      NoTornChunk(c, rest);
      assert c in chunks && forall d :: d in chunks[1..] ==> d in chunks;
      RunConcat(cr, c, rest, nl);
      FlushAfter(r.0, Run(r.1, rest, nl));
    }
  }

  lemma NoTornChunk(a: seq<byte>, b: seq<byte>)
    requires Valid(a) && Valid(b)
    ensures !Torn(a, b)
  {
    if Torn(a, b) { CharShape(b); }
  }

  predicate C1At(s: seq<byte>, i: nat)
    requires i < |s|
  {
    i + 1 < |s| && s[i] == LEAD && IsC1(s[i + 1])
  }

  /** No control character, of one byte or two, but the newline and tab that `nl` asks to keep. */
  predicate Harmless(s: seq<byte>, nl: bool) {
    && (forall i :: 0 <= i < |s| ==> !IsControl(s[i], nl))
    && (forall i :: 0 <= i < |s| ==> !C1At(s, i))
  }

  lemma HarmlessConcat(a: seq<byte>, b: seq<byte>, nl: bool)
    requires Harmless(a, nl) && Harmless(b, nl) && !Torn(a, b)
    ensures Harmless(a + b, nl)
  {
    var s := a + b;
    forall i | 0 <= i < |s| ensures !C1At(s, i) && !IsControl(s[i], nl) {
      if i < |a| {
        assert !C1At(a, i) && !IsControl(a[i], nl);
      } else {
        assert !C1At(b, i - |a|) && !IsControl(b[i - |a|], nl);
      }
    }
  }

  lemma NextIsHarmless(cr: bool, s: seq<byte>, nl: bool)
    requires s != [] && (nl ==> !cr)
    ensures nl ==> !Next(cr, s, nl).cr
    ensures Harmless(Next(cr, s, nl).out, nl)
    ensures
      var n := Next(cr, s, nl);
      n.out != [] && n.out[|n.out| - 1] == LEAD ==> !n.cr && n.used == 1 && s[0] == LEAD && !StartsC1(s)
  {
  }

  /** Nothing that was not a second byte in the text shows as one. */
  lemma FirstShown(cr: bool, s: seq<byte>, nl: bool)
    requires Run(cr, s, nl).0 != [] && IsC1(Run(cr, s, nl).0[0])
    ensures s[0] == Run(cr, s, nl).0[0]
  {
  }

  /** A newline completes a held carriage return whatever `nl` says: hence the condition. */
  lemma {:induction false} RunIsHarmless(cr: bool, s: seq<byte>, nl: bool)
    requires nl ==> !cr
    ensures Harmless(Run(cr, s, nl).0, nl)
    decreases |s|
  {
    if s != [] {
      var n := Next(cr, s, nl);
      var rest := Run(n.cr, s[n.used..], nl);
      RunIsHarmless(n.cr, s[n.used..], nl);
      NextIsHarmless(cr, s, nl);
      if Torn(n.out, rest.0) { FirstShown(n.cr, s[n.used..], nl); }
      hide Harmless, Next;
      HarmlessConcat(n.out, rest.0, nl);
    }
  }

  /** Escaping leaves no control character; text without any, and only such text, is unchanged. */
  lemma CompleteIsHarmless(s: seq<byte>, nl: bool)
    ensures Harmless(Complete(s, nl), nl)
    ensures Complete(s, nl) == s <==> Harmless(s, nl)
  {
    var r := Run(false, s, nl);
    RunIsHarmless(false, s, nl);
    HarmlessConcat(r.0, Flush(r.1), nl);
    if Harmless(s, nl) { HarmlessIsKept(s, nl); }
  }

  lemma {:induction false} HarmlessIsKept(s: seq<byte>, nl: bool)
    requires Harmless(s, nl)
    ensures Run(false, s, nl) == (s, false)
  {
    if s != [] {
      HarmlessFirst(s, nl);
      assert Run(false, s, nl) == After([s[0]], Run(false, s[1..], nl));
      hide Next, Harmless, Run;
      HarmlessIsKept(s[1..], nl);
      assert [s[0]] + s[1..] == s;
    }
  }

  lemma HarmlessFirst(s: seq<byte>, nl: bool)
    requires s != [] && Harmless(s, nl)
    ensures Harmless(s[1..], nl) && Next(false, s, nl) == Step([s[0]], false, 1)
  {
    assert !C1At(s, 0) && !IsControl(s[0], nl);
    forall i | 0 <= i < |s| - 1 ensures !C1At(s[1..], i) && !IsControl(s[1..][i], nl) {
      assert !C1At(s, i + 1) && !IsControl(s[i + 1], nl);
    }
  }

  // ---- the notation ----

  /** Each control character alone: '^' and a letter, '^?' for DEL, 'M-' before it for the C1 ones. */
  lemma CaretNotation(c: byte, nl: bool)
    ensures c < 32 && (nl || (c != NL && c != TAB)) ==> Complete([c], nl) == [94, 64 + c]
    ensures c == 127 ==> Complete([c], nl) == [94, 63]
    ensures 0x80 <= c <= 0x9F ==> Complete([LEAD, c], nl) == [77, 45, 94, c - 64]
    ensures (32 <= c && c != 127) || (!nl && (c == NL || c == TAB)) ==> Complete([c], nl) == [c]
  {
    assert [c][1..] == [] && [LEAD, c][2..] == [];
    assert Run(false, [], nl) == ([], false) && Run(true, [], nl) == ([], true);
  }

  /** CRLF is a line end; a carriage return before anything else is shown. */
  lemma CarriageReturns(c: byte)
    ensures Complete([CR, c], false) == if c == NL then [NL] else [94, 77] + Complete([c], false)
  {
    assert [CR, c][1..] == [c] && [c][1..] == [];
    assert Run(false, [CR, c], false) == After([], Run(true, [c], false));
    assert Run(false, [], false) == ([], false) && Run(true, [], false) == ([], true);
  }

  // ---- lead bytes ----

  /** Each lead byte is followed by a continuation byte, as in whole characters. */
  predicate LeadsContinued(s: seq<byte>) {
    forall i :: 0 <= i < |s| && s[i] == LEAD ==> i + 1 < |s| && IsCont(s[i + 1])
  }

  /** And that byte does not make it a C1 control. */
  predicate LeadsFollowed(s: seq<byte>) {
    forall i :: 0 <= i < |s| && s[i] == LEAD ==> i + 1 < |s| && s[i + 1] >= 0xA0
  }

  lemma ValidLeads(s: seq<byte>)
    requires Valid(s)
    ensures LeadsContinued(s)
  {
    forall i | 0 <= i < |s| && s[i] == LEAD ensures i + 1 < |s| && IsCont(s[i + 1]) {
      ValidCut(s, i);
      CharShape(s[i..]);
      assert s[i..][0] == LEAD && CharLen(s[i..]) == 2;
      assert s[i..][1] == s[i + 1];
    }
  }

  lemma LeadsConcat(a: seq<byte>, b: seq<byte>)
    requires LeadsFollowed(b)
    requires forall i :: 0 <= i < |a| && a[i] == LEAD ==> i == |a| - 1 && b != [] && b[0] >= 0xA0
    ensures LeadsFollowed(a + b)
  {
    var s := a + b;
    forall i | 0 <= i < |s| && s[i] == LEAD ensures i + 1 < |s| && s[i + 1] >= 0xA0 {
      if i >= |a| { assert b[i - |a|] == LEAD; }
    }
  }

  lemma NextLeads(cr: bool, s: seq<byte>, nl: bool)
    requires s != [] && LeadsContinued(s)
    ensures
      var n := Next(cr, s, nl);
      forall i :: 0 <= i < |n.out| && n.out[i] == LEAD ==>
        i == |n.out| - 1 && n.used == 1 && !n.cr && |s| > 1 && 0xA0 <= s[1] <= 0xBF
  {
    assert s[0] == LEAD ==> IsCont(s[1]);
  }

  /** Escaping whole characters leaves no lead byte of a C1 control. */
  lemma {:induction false} RunLeads(cr: bool, s: seq<byte>, nl: bool)
    requires LeadsContinued(s)
    ensures LeadsFollowed(Run(cr, s, nl).0)
    ensures !cr && s != [] && 0xA0 <= s[0] <= 0xBF ==> Run(cr, s, nl).0 != [] && Run(cr, s, nl).0[0] == s[0]
    decreases |s|
  {
    if s != [] {
      var n := Next(cr, s, nl);
      NextLeads(cr, s, nl);
      assert !cr && 0xA0 <= s[0] <= 0xBF ==> n.out == [s[0]];
      hide Next;
      var rest := s[n.used..];
      assert forall i :: 0 <= i < |rest| ==> rest[i] == s[n.used + i];
      RunLeads(n.cr, rest, nl);
      LeadsConcat(n.out, Run(n.cr, rest, nl).0);
    }
  }

  lemma CompleteLeads(s: seq<byte>, nl: bool)
    requires Valid(s)
    ensures LeadsFollowed(Complete(s, nl))
  {
    ValidLeads(s);
    RunLeads(false, s, nl);
    var r := Run(false, s, nl);
    hide Run, Valid, LeadsContinued;
    LeadsKept(r.0, Flush(r.1));
  }

  lemma LeadsKept(a: seq<byte>, b: seq<byte>)
    requires LeadsFollowed(a) && LEAD !in b
    ensures LeadsFollowed(a + b)
  {
    var s := a + b;
    assert forall j :: 0 <= j < |b| ==> b[j] != LEAD;
    forall i | 0 <= i < |s| && s[i] == LEAD ensures i + 1 < |s| && s[i + 1] >= 0xA0 {
      if i < |a| { assert a[i] == LEAD; }
    }
  }

  /** No control character of one byte, but newline and tab, is left by any pieces. */
  lemma {:induction false} PiecesAreText(cr: bool, chunks: seq<seq<byte>>)
    ensures forall i :: 0 <= i < |Pieces(cr, chunks, false)| ==> !IsControl(Pieces(cr, chunks, false)[i], false)
    decreases |chunks|
  {
    if chunks != [] {
      RunIsHarmless(cr, chunks[0], false);
      PiecesAreText(Run(cr, chunks[0], false).1, chunks[1..]);
      hide Run;
    }
  }
}
