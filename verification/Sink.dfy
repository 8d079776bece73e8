/** The output collector: a head buffer, a ring for the tail, and what is shown of them. */
module Sink {
  import opened Bytes
  import opened Utf8
  import opened Cleaning

  lemma {:induction false} TextIsValid(s: seq<byte>)
    requires IsText(s)
    ensures Valid(s)
  {
    if s != [] { TextIsValid(s[1..]); }
  }

  /** The note that stands for `dropped` bytes. */
  function Note(dropped: nat): (r: seq<byte>)
    ensures IsText(r)
  {
    Bracketed(Decimal(dropped))
  }

  function Bracketed(digits: seq<byte>): (r: seq<byte>)
    ensures IsText(digits) ==> IsText(r)
  {
    Ascii("\n[... ") + digits + Ascii(" bytes omitted ...]\n")
  }

  /** How many bytes a character has whose lead byte is `c`, taken at its word. */
  function Need(c: byte): nat {
    if c >= 0xF0 then 4 else if c >= 0xE0 then 3 else if c >= 0xC0 then 2 else 1
  }

  /** `head` without a last character that runs past its end, looking back `i..3` bytes. */
  function WholeHead(head: seq<byte>, i: nat := 1): (h: seq<byte>)
    requires i >= 1
    ensures h <= head && |head| - |h| <= 3
    decreases 4 - i
  {
    if i > 3 || i > |head| then head
    else if IsCont(head[|head| - i]) then WholeHead(head, i + 1)
    else if Need(head[|head| - i]) > i then head[..|head| - i]
    else head
  }

  /** `tail` without the continuation bytes it starts with. */
  function WholeTail(tail: seq<byte>): (t: seq<byte>)
    ensures |t| <= |tail| && t == tail[|tail| - |t|..]
  {
    if tail != [] && IsCont(tail[0]) then WholeTail(tail[1..]) else tail
  }

  /** `head` ends with the first `k` bytes of what its lead byte says is a longer character. */
  predicate EndsCut(head: seq<byte>, k: nat) {
    && 1 <= k <= 3 && k <= |head| && (forall j :: |head| - k < j < |head| ==> 0x80 <= head[j] <= 0xBF)
    && var c := head[|head| - k];
    (c >= 0xC0 && k == 1) || (c >= 0xE0 && k == 2) || (c >= 0xF0 && k == 3)
  }

  /** Of any bytes, a cut character at the end of the head is left out, and nothing else; and so are the
      continuation bytes that the tail starts with. */
  lemma EndsAreCut(head: seq<byte>, tail: seq<byte>)
    ensures forall k :: EndsCut(head, k) ==> WholeHead(head) == head[..|head| - k]
    ensures WholeHead(head) == head || EndsCut(head, |head| - |WholeHead(head)|)
    ensures forall j :: 0 <= j < |tail| - |WholeTail(tail)| ==> 0x80 <= tail[j] <= 0xBF
    ensures WholeTail(tail) != [] ==> !(0x80 <= WholeTail(tail)[0] <= 0xBF)
  {
    CutFrom(head, 1);
    TailCut(tail);
    forall k | EndsCut(head, k) ensures WholeHead(head) == head[..|head| - k] {
      CutAt(head, k, 1);
    }
  }

  lemma {:induction false} CutFrom(head: seq<byte>, i: nat)
    requires 1 <= i && forall j :: 0 <= j < |head| && |head| - i < j ==> IsCont(head[j])
    ensures WholeHead(head, i) == head || EndsCut(head, |head| - |WholeHead(head, i)|)
    decreases 4 - i
  {
    if i <= 3 && i <= |head| && IsCont(head[|head| - i]) { CutFrom(head, i + 1); }
  }

  lemma {:induction false} CutAt(head: seq<byte>, k: nat, i: nat)
    requires EndsCut(head, k) && 1 <= i <= k
    ensures WholeHead(head, i) == head[..|head| - k]
    decreases k - i
  {
    if i < k { CutAt(head, k, i + 1); }
  }

  lemma {:induction false} TailCut(tail: seq<byte>)
    ensures forall j :: 0 <= j < |tail| - |WholeTail(tail)| ==> IsCont(tail[j])
    ensures WholeTail(tail) != [] ==> !IsCont(WholeTail(tail)[0])
  {
    if tail != [] && IsCont(tail[0]) {
      TailCut(tail[1..]);
      assert forall j :: 1 <= j < |tail| ==> tail[j] == tail[1..][j - 1];
    }
  }

  /** What is shown of a head and a tail of `total` bytes. */
  function Shown(head: seq<byte>, tail: seq<byte>, total: nat): seq<byte>
    requires |head| + |tail| <= total
  {
    if |head| + |tail| == total then Clean(head) + Clean(tail)
    else
      var h, t := WholeHead(head), WholeTail(tail);
      Clean(h) + Note(total - |h| - |t|) + Clean(t)
  }

  /** What is shown of `fed` by its first `n` and, of the rest, its last `c` bytes. */
  function ShownParts(n: nat, c: nat, fed: seq<byte>): seq<byte> {
    Shown(First(fed, n), Last(Rest(fed, n), c), |fed|)
  }

  /** What a collector of `cap` bytes shows once `fed` has been fed to it: the simple form. */
  function ShownOf(cap: nat, fed: seq<byte>): seq<byte> {
    ShownParts(cap / 5, cap - cap / 5, fed)
  }

  lemma ModWrap(x: nat, n: nat)
    requires n > 0 && x < 2 * n
    ensures x % n == if x < n then x else x - n
  {
  }

  /** The `len` bytes of the ring `a` that start at `at`. */
  function Unroll(a: seq<byte>, at: nat, len: nat): (r: seq<byte>)
    requires at <= |a| && len <= |a|
    ensures |r| == len
  {
    (a[at..] + a[..at])[..len]
  }

  lemma UnrollPush(a: seq<byte>, at: nat, len: nat, c: byte)
    requires at < |a| && len < |a|
    ensures
      var slot := if at + len < |a| then at + len else at + len - |a|;
      Unroll(a[slot := c], at, len + 1) == Unroll(a, at, len) + [c]
  {
  }

  lemma UnrollReplace(a: seq<byte>, at: nat, c: byte)
    requires at < |a|
    ensures
      var next := if at + 1 < |a| then at + 1 else 0;
      Unroll(a[at := c], next, |a|) == Unroll(a, at, |a|)[1..] + [c]
  {
  }

  /** One byte more in the ring, whether or not it is full. */
  lemma RingStep(a: seq<byte>, at: nat, len: nat, c: byte)
    requires at < |a| && len <= |a|
    ensures
      var full := len == |a|;
      var slot := (at + len) % |a|;
      Unroll(a[slot := c], if full then (at + 1) % |a| else at, if full then len else len + 1)
      == Last(Unroll(a, at, len) + [c], |a|)
  {
    ModWrap(at + len, |a|);
    ModWrap(at + 1, |a|);
    if len == |a| { UnrollReplace(a, at, c); } else { UnrollPush(a, at, len, c); }
  }

  lemma OldBytesFade(ring: seq<byte>, q: seq<byte>, n: nat)
    requires |ring| <= n
    ensures |q| >= n ==> Last(ring + q, n) == Last(q, n)
    ensures Last(ring + q[..0], n) == ring
  {
  }

  lemma LastOfMore(ring: seq<byte>, q: seq<byte>, i: nat, n: nat)
    requires i < |q|
    ensures Last(Last(ring + q[..i], n) + [q[i]], n) == Last(ring + q[..i + 1], n)
  {
    LastOfLast(ring + q[..i], [q[i]], n);
    assert ring + q[..i] + [q[i]] == ring + q[..i + 1];
  }

  /** Where the next `k` bytes go: what the head still lacks, then the ring. */
  lemma HeadStep(fed: seq<byte>, p: seq<byte>, max: nat, k: nat)
    requires k == Min(|p|, max - |First(fed, max)|)
    ensures First(fed, max) + p[..k] == First(fed + p, max)
    ensures Rest(fed, max) + p[k..] == Rest(fed + p, max)
  {
  }

  class Collector {
    const headMax: nat
    const tailCap: nat
    var total: nat
    var head: seq<byte>
    const tail: array<byte>
    var tailLen: nat
    var tailAt: nat
    ghost var fed: seq<byte>

    ghost predicate Shape()
      reads `tailLen, `tailAt
    {
      tail.Length == tailCap && tailLen <= tailCap && tailAt <= tailCap && (tailCap > 0 ==> tailAt < tailCap)
    }

    /** The ring, unrolled. */
    ghost function Ring(): (r: seq<byte>)
      requires Shape()
      reads `tailLen, `tailAt, tail
      ensures |r| == tailLen
    {
      Unroll(tail[..], tailAt, tailLen)
    }

    /** Head and ring are what the simple form keeps of `bytes`. */
    ghost predicate Keeps(bytes: seq<byte>)
      reads `head, `tailLen, `tailAt, tail
      ensures Keeps(bytes) ==> Shape() && |head| + tailLen <= |bytes|
    {
      Shape() && head == First(bytes, headMax) && Ring() == Last(Rest(bytes, headMax), tailCap)
    }

    ghost predicate Valid()
      reads this, tail
    {
      Keeps(fed)
    }

    constructor (cap: nat)
      ensures Valid() && fed == [] && total == 0 && fresh(tail)
      ensures headMax == cap / 5 && tailCap == cap - cap / 5
    {
      headMax := cap / 5;
      tailCap := cap - cap / 5;
      total := 0;
      head := [];
      tail := new byte[cap - cap / 5];
      tailLen := 0;
      tailAt := 0;
      fed := [];
    }

    /** Wrap one byte into the ring. */
    method Push(c: byte)
      requires Shape() && tailCap > 0
      modifies this`tailLen, this`tailAt, tail
      ensures Shape() && Ring() == Last(old(Ring()) + [c], tailCap)
    {
      RingStep(tail[..], tailAt, tailLen, c);
      hide Unroll, Last;
      var at := (tailAt + tailLen) % tailCap;
      ghost var was := tail[..];
      tail[at] := c;
      assert tail[..] == was[at := c];
      if tailLen < tailCap {
        tailLen := tailLen + 1;
      } else {
        tailAt := (tailAt + 1) % tailCap;
      }
    }

    /** A chunk that fills the ring: only its last `tailCap` bytes can survive. */
    method Replace(q: seq<byte>)
      requires Shape() && |q| >= tailCap
      modifies this`tailLen, this`tailAt, tail
      ensures Shape() && Ring() == Last(q, tailCap)
    {
      forall i | 0 <= i < tailCap { tail[i] := q[|q| - tailCap + i]; }
      tailLen := tailCap;
      tailAt := 0;
      assert tail[..] == Last(q, tailCap);
    }

    /** The ring's share of a chunk. */
    method Wrap(q: seq<byte>)
      requires Shape()
      modifies this`tailLen, this`tailAt, tail
      ensures Shape() && Ring() == Last(old(Ring()) + q, tailCap)
    {
      ghost var ring := Ring();
      OldBytesFade(ring, q, tailCap);
      hide Last, Unroll;
      if |q| >= tailCap {
        Replace(q);
        return;
      }
      for i := 0 to |q|
        invariant Shape() && Ring() == Last(ring + q[..i], tailCap)
      {
        LastOfMore(ring, q, i, tailCap);
        Push(q[i]);
      }
      assert q[..|q|] == q;
    }

    method Add(p: seq<byte>)
      requires Valid()
      modifies this, tail
      ensures Valid() && fed == old(fed) + p && total == old(total) + |p|
    {
      total := total + |p|;
      var q := p;
      HeadStep(fed, p, headMax, if |head| < headMax then Min(|p|, headMax - |head|) else 0);
      if |head| < headMax {
        var k := headMax - |head|;
        if k > |q| { k := |q|; }
        head := head + q[..k];
        q := q[k..];
      }
      LastOfLast(Rest(fed, headMax), q, tailCap);
      fed := fed + p;
      hide Last, First, Rest;
      Wrap(q);
    }

    /** The output is that of the simple form, for all that was fed. */
    method Take() returns (out: seq<byte>)
      requires Shape() && |head| + tailLen <= total
      ensures out == Shown(head, Ring(), total)
      ensures forall bytes :: Keeps(bytes) && total == |bytes| ==> out == ShownParts(headMax, tailCap, bytes)
    {
      out := TakeParts();
    }

    method TakeParts() returns (out: seq<byte>)
      requires Shape() && |head| + tailLen <= total
      ensures out == Shown(head, Ring(), total)
    {
      hide Clean, Unroll, WholeHead, WholeTail, Note;
      var t := Unrolled();
      var dropped := total - |head| - |t|;
      if dropped == 0 {
        var a := SanitizeUtf8(head);
        var b := SanitizeUtf8(t);
        return a + b;
      }
      var keep := CutHead(head);
      var skip := CutTail(t);
      dropped := dropped + (|head| - keep) + skip;
      var a := SanitizeUtf8(head[..keep]);
      var b := SanitizeUtf8(t[skip..]);
      return a + Note(dropped) + b;
    }

    method Unrolled() returns (t: seq<byte>)
      requires Shape()
      ensures t == Ring()
    {
      t := [];
      for i := 0 to tailLen
        invariant t == Ring()[..i]
      {
        ModWrap(tailAt + i, tailCap);
        t := t + [tail[(tailAt + i) % tailCap]];
      }
    }
  }

  /** The scan of at most three bytes finds where `WholeHead` cuts. */
  method CutHead(head: seq<byte>) returns (keep: nat)
    ensures keep <= |head| && head[..keep] == WholeHead(head)
  {
    keep := |head|;
    var i := 1;
    while i <= 3 && i <= |head|
      invariant 1 <= i <= 4 && keep == |head|
      invariant WholeHead(head, i) == WholeHead(head)
    {
      var c := head[|head| - i];
      if !IsCont(c) {
        if Need(c) > i { keep := |head| - i; }
        return;
      }
      i := i + 1;
    }
  }

  method CutTail(tail: seq<byte>) returns (skip: nat)
    ensures skip <= |tail| && tail[skip..] == WholeTail(tail)
  {
    skip := 0;
    while skip < |tail| && IsCont(tail[skip])
      invariant skip <= |tail| && WholeTail(tail[skip..]) == WholeTail(tail)
    {
      assert tail[skip..][1..] == tail[skip + 1..];
      skip := skip + 1;
    }
  }

  /** The number that decimal digits stand for. */
  function Value(digits: seq<byte>): int {
    if digits == [] then 0 else Value(digits[..|digits| - 1]) * 10 + digits[|digits| - 1] - 48
  }

  lemma {:induction false} DecimalRoundTrip(n: nat)
    ensures Value(Decimal(n)) == n
  {
    if n >= 10 {
      DecimalRoundTrip(n / 10);
      var d := Decimal(n);
      assert d[..|d| - 1] == Decimal(n / 10);
    } else {
      assert [48 + n][..0] == [];
    }
  }

  lemma ShownIsValid(head: seq<byte>, tail: seq<byte>, total: nat)
    requires |head| + |tail| <= total
    ensures Valid(Shown(head, tail, total))
  {
    hide Clean, Valid, WholeHead, WholeTail;
    if |head| + |tail| == total {
      CleanIsValid(head);
      CleanIsValid(tail);
      CleanDistributes(Clean(head), Clean(tail));
    } else {
      var h, t := WholeHead(head), WholeTail(tail);
      CleanIsValid(h);
      CleanIsValid(t);
      NoteBetween(Clean(h), total - |h| - |t|, Clean(t));
    }
  }

  lemma NoteBetween(a: seq<byte>, dropped: nat, b: seq<byte>)
    requires Valid(a) && Valid(b)
    ensures Valid(a + Note(dropped) + b)
  {
    var note := Note(dropped);
    TextIsValid(note);
    hide *;
    CleanDistributes(note, b);
    CleanDistributes(a, note + b);
    Associate(a, note, b);
  }

  /** In valid text `WholeHead` cuts at the last boundary that fits. */
  lemma WholeHeadOfValid(fed: seq<byte>, n: nat, i: nat)
    requires Valid(fed) && n < |fed| && 1 <= i <= n + 1
    requires forall q :: n - i < q < n ==> IsCont(fed[q])
    ensures !Straddles(fed, |WholeHead(fed[..n], i)|)
    ensures forall m :: |WholeHead(fed[..n], i)| < m <= n ==> IsCont(fed[m])
    decreases 4 - i
  {
    hide CharLen;
    var s := fed[..n];
    if i > 3 || i > n {
      if Straddles(fed, n) {
        var p :| 0 <= p < n && p + CharLen(fed[p..]) > n;
        CharShape(fed[p..]);
      }
    } else if IsCont(s[n - i]) {
      WholeHeadOfValid(fed, n, i + 1);
    } else {
      LastLead(fed, n, i);
    }
  }

  lemma LastLead(fed: seq<byte>, n: nat, i: nat)
    requires Valid(fed) && 1 <= i <= n < |fed| && i <= 3 && !IsCont(fed[n - i])
    requires forall q :: n - i < q < n ==> IsCont(fed[q])
    ensures
      var keep := if Need(fed[n - i]) > i then n - i else n;
      !Straddles(fed, keep) && forall m :: keep < m <= n ==> IsCont(fed[m])
  {
    var q := n - i;
    LeadAt(fed, q);
    ValidCut(fed, q);
    ValidCut(fed, n);
    hide Valid, Straddles, Need, IsCont;
    var k := Need(fed[q]);
  }

  /** A lead byte in valid text tells how long its character is. */
  lemma LeadAt(s: seq<byte>, q: nat)
    requires Valid(s) && q < |s| && !IsCont(s[q])
    ensures
      var k := Need(s[q]);
      && 1 <= k && q + k <= |s| && (forall m :: q < m < q + k ==> IsCont(s[m]))
      && (q + k < |s| ==> !IsCont(s[q + k]))
  {
    ValidCut(s, q);
    var t := s[q..];
    CharShape(t);
    assert CharLen(t) == Need(t[0]);
    hide CharLen, Need;
    forall m | q < m < q + Need(t[0]) ensures IsCont(s[m]) { assert s[m] == t[m - q]; }
    if CharLen(t) < |t| { CharShape(t[CharLen(t)..]); }
  }

  lemma {:induction false} WholeTailOf(s: seq<byte>)
    ensures WholeTail(s) != [] ==> !IsCont(WholeTail(s)[0])
    ensures forall m :: 0 <= m < |s| - |WholeTail(s)| ==> IsCont(s[m])
  {
    if s != [] && IsCont(s[0]) {
      WholeTailOf(s[1..]);
      assert WholeTail(s) == WholeTail(s[1..]);
      forall m | 0 < m < |s| - |WholeTail(s)| ensures IsCont(s[m]) { assert s[m] == s[1..][m - 1]; }
    }
  }

  /** What the collector keeps of more bytes than fit. */
  lemma Kept(cap: nat, fed: seq<byte>)
    requires cap < |fed|
    ensures First(fed, cap / 5) == fed[..cap / 5]
    ensures Last(Rest(fed, cap / 5), cap - cap / 5) == fed[|fed| - (cap - cap / 5)..]
  {
  }

  lemma KeptHead(fed: seq<byte>, n: nat) returns (h: nat)
    requires Valid(fed) && n < |fed|
    ensures h <= n && WholeHead(fed[..n]) == fed[..h] && Valid(fed[..h])
    ensures forall m :: h < m <= n ==> !Valid(fed[..m])
  {
    h := |WholeHead(fed[..n])|;
    WholeHeadOfValid(fed, n, 1);
    hide CharLen, WholeHead;
    ValidCut(fed, h);
    forall m | h < m <= n ensures !Valid(fed[..m]) { ContinuationFollows(fed, m); }
  }

  lemma KeptTail(fed: seq<byte>, n: nat) returns (p: nat)
    requires Valid(fed) && n <= |fed|
    ensures n <= p <= |fed| && WholeTail(fed[n..]) == fed[p..] && Valid(fed[p..])
    ensures forall m :: n <= m < p ==> !Valid(fed[m..])
  {
    var tail := fed[n..];
    p := |fed| - |WholeTail(tail)|;
    WholeTailOf(tail);
    hide CharLen, WholeTail;
    assert p < |fed| ==> WholeTail(tail)[0] == fed[p];
    ValidCut(fed, p);
    forall m | n <= m < p ensures !Valid(fed[m..]) {
      assert fed[m] == tail[m - n];
      ContinuationFollows(fed, m);
    }
  }

  /** Valid text that does not fit is shown as whole characters, the note, whole characters:
      nothing is replaced, the count is exact, and no more characters would fit. */
  lemma TruncationKeepsCharacters(cap: nat, fed: seq<byte>) returns (h: nat, p: nat)
    requires Valid(fed) && cap < |fed|
    ensures h <= cap / 5 && |fed| - (cap - cap / 5) <= p <= |fed|
    ensures Valid(fed[..h]) && Valid(fed[p..])
    ensures ShownOf(cap, fed) == fed[..h] + Note(p - h) + fed[p..]
    ensures forall m :: h < m <= cap / 5 ==> !Valid(fed[..m])
    ensures forall m :: |fed| - (cap - cap / 5) <= m < p ==> !Valid(fed[m..])
  {
    hide CharLen, Clean, WholeHead, WholeTail, Note, Valid;
    Kept(cap, fed);
    h := KeptHead(fed, cap / 5);
    p := KeptTail(fed, |fed| - (cap - cap / 5));
    CleanIdentity(fed[..h]);
    CleanIdentity(fed[p..]);
  }

  lemma ContinuationFollows(s: seq<byte>, m: nat)
    requires Valid(s) && m < |s| && IsCont(s[m])
    ensures !Valid(s[..m]) && !Valid(s[m..])
  {
    assert s[..m] + s[m..] == s;
    if Valid(s[..m]) { CleanDistributes(s[..m], s[m..]); }
  }

  /** Whatever the bytes: a prefix and a suffix of them is what is shown, the number in the note
      makes up exactly for the rest, and the result is valid. */
  lemma TruncationAccounts(cap: nat, fed: seq<byte>) returns (h: seq<byte>, t: seq<byte>, digits: seq<byte>)
    requires cap < |fed|
    ensures h <= fed && |t| <= |fed| && t == fed[|fed| - |t|..]
    ensures cap / 5 - 3 <= |h| <= cap / 5 && |t| <= cap - cap / 5
    ensures ShownOf(cap, fed) == Clean(h) + Bracketed(digits) + Clean(t) && Bracketed(digits) == Note(|fed| - |h| - |t|)
    ensures Value(digits) + |h| + |t| == |fed| && digits == Decimal(|fed| - |h| - |t|)
    ensures Valid(ShownOf(cap, fed))
  {
    hide *;
    h, t := KeptEnds(cap, fed);
    ShownTruncated(cap, fed);
    digits := NoteCounts(|fed| - |h| - |t|);
  }

  function HeadOf(cap: nat, fed: seq<byte>): seq<byte> { First(fed, cap / 5) }

  function TailOf(cap: nat, fed: seq<byte>): seq<byte> { Last(Rest(fed, cap / 5), cap - cap / 5) }

  lemma KeptEnds(cap: nat, fed: seq<byte>) returns (h: seq<byte>, t: seq<byte>)
    requires cap < |fed|
    ensures h == WholeHead(HeadOf(cap, fed)) && t == WholeTail(TailOf(cap, fed))
    ensures h <= fed && |t| <= |fed| && t == fed[|fed| - |t|..]
    ensures cap / 5 - 3 <= |h| <= cap / 5 && |t| <= cap - cap / 5
  {
    Kept(cap, fed);
    var head, tail := HeadOf(cap, fed), TailOf(cap, fed);
    hide WholeHead, WholeTail, First, Last, Rest;
    h, t := WholeHead(head), WholeTail(tail);
    PartsOfParts(fed, head, tail, h, t);
  }

  lemma PartsOfParts(s: seq<byte>, head: seq<byte>, tail: seq<byte>, h: seq<byte>, t: seq<byte>)
    requires |head| <= |s| && head == s[..|head|] && |tail| <= |s| && tail == s[|s| - |tail|..]
    requires h <= head && |t| <= |tail| && t == tail[|tail| - |t|..]
    ensures h <= s && t == s[|s| - |t|..]
  {
  }

  lemma ShownTruncated(cap: nat, fed: seq<byte>)
    requires cap < |fed|
    ensures
      var h, t := WholeHead(HeadOf(cap, fed)), WholeTail(TailOf(cap, fed));
      |h| + |t| <= cap && ShownOf(cap, fed) == Clean(h) + Note(|fed| - |h| - |t|) + Clean(t)
    ensures Valid(ShownOf(cap, fed))
  {
    hide *;
    KeptSizes(cap, fed);
    ShownCut(HeadOf(cap, fed), TailOf(cap, fed), |fed|);
    ShownIsValid(HeadOf(cap, fed), TailOf(cap, fed), |fed|);
  }

  lemma KeptSizes(cap: nat, fed: seq<byte>)
    requires cap < |fed|
    ensures |HeadOf(cap, fed)| == cap / 5 && |TailOf(cap, fed)| == cap - cap / 5
    ensures ShownOf(cap, fed) == Shown(HeadOf(cap, fed), TailOf(cap, fed), |fed|)
  {
    hide Shown;
  }

  lemma ShownCut(head: seq<byte>, tail: seq<byte>, total: nat)
    requires |head| + |tail| < total
    ensures
      var h, t := WholeHead(head), WholeTail(tail);
      |h| <= |head| && |t| <= |tail| && Shown(head, tail, total) == Clean(h) + Note(total - |h| - |t|) + Clean(t)
  {
    hide Clean, WholeHead, WholeTail, Note;
  }

  /** The note says how many bytes are missing, in digits, on a line of its own. */
  lemma NoteSays(dropped: nat)
    ensures Note(dropped) == Ascii("\n[... ") + Decimal(dropped) + Ascii(" bytes omitted ...]\n")
    ensures forall i :: 0 <= i < |Decimal(dropped)| ==> 48 <= Decimal(dropped)[i] <= 57
    ensures Value(Decimal(dropped)) == dropped
  {
    DecimalRoundTrip(dropped);
    DecimalDigits(dropped);
    hide Ascii, Decimal, Value;
  }

  lemma {:induction false} DecimalDigits(n: nat)
    ensures forall i :: 0 <= i < |Decimal(n)| ==> 48 <= Decimal(n)[i] <= 57
  {
    if n >= 10 { DecimalDigits(n / 10); }
  }

  lemma NoteCounts(dropped: nat) returns (digits: seq<byte>)
    ensures Note(dropped) == Bracketed(digits) && Value(digits) == dropped && digits == Decimal(dropped)
  {
    digits := Decimal(dropped);
    DecimalRoundTrip(dropped);
  }

  /** Output that fits is the cleaned output exactly when no character straddles the end of the
      head: head and tail are cleaned one by one. */
  lemma FittingOutput(cap: nat, fed: seq<byte>)
    requires |fed| <= cap
    ensures ShownOf(cap, fed) == Clean(fed) <==> !(cap / 5 < |fed| && Straddles(fed, cap / 5))
    ensures Valid(fed) ==> (ShownOf(cap, fed) == fed <==> !(cap / 5 < |fed| && IsCont(fed[cap / 5])))
  {
    var n := cap / 5;
    CleanIdentity(fed);
    ShownFitting(cap, fed);
    hide ShownOf, Clean, Valid, Straddles;
    if n < |fed| {
      CleanSplits(fed, n);
      if Valid(fed) { ValidCut(fed, n); }
    }
  }

  lemma ShownFitting(cap: nat, fed: seq<byte>)
    requires |fed| <= cap
    ensures ShownOf(cap, fed) ==
      if cap / 5 < |fed| then Clean(fed[..cap / 5]) + Clean(fed[cap / 5..]) else Clean(fed)
  {
    var head, tail := HeadOf(cap, fed), TailOf(cap, fed);
    assert |head| + |tail| == |fed|;
    assert ShownOf(cap, fed) == Clean(head) + Clean(tail);
    assert cap / 5 >= |fed| ==> tail == [] && Clean([]) == [];
    hide Clean, ShownOf;
    assert cap / 5 >= |fed| ==> Clean(fed) + [] == Clean(fed);
  }

  /** Text that fits and is valid, and is not shown as it is, under every cap that a user can set
      (src/myra.c:1594): ASCII up to the last byte of the head, then U+00E9. */
  lemma FittingOutputCanBeTorn(cap: nat)
    requires cap >= 1024
    ensures
      var ascii := Repeat('a' as int, cap / 5 - 1);
      var fed := ascii + [0xC3, 0xA9];
      Valid(fed) && |fed| <= cap && ShownOf(cap, fed) == ascii + FFFD + FFFD
  {
    var ascii: seq<byte> := Repeat('a' as int, cap / 5 - 1);
    var fed := ascii + [0xC3, 0xA9];
    assert |ascii| == cap / 5 - 1 && forall i :: 0 <= i < |ascii| ==> ascii[i] == 'a' as int;
    hide *;
    TextIsValid(ascii);
    TornChar();
    CleanDistributes(ascii, [0xC3, 0xA9]);
    CleanDistributes(ascii, [0xC3]);
    assert fed[..cap / 5] == ascii + [0xC3] && fed[cap / 5..] == [0xA9];
    ShownFitting(cap, fed);
    Associate(ascii, FFFD, FFFD);
  }

  lemma TornChar()
    ensures Valid([0xC3, 0xA9]) && Clean([0xC3]) == FFFD && Clean([0xA9]) == FFFD
  {
    var c: seq<byte> := [0xC3, 0xA9];
    assert c[2..] == [];
    assert Clean([0xC3]) == FFFD + Clean([]) && Clean([0xA9]) == FFFD + Clean([]) && Clean([]) == [];
  }
}
