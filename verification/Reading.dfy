/** The read tool: a large file is read at both ends only, and shows as if it had been read whole. */
module Reading {
  import opened Bytes
  import opened Sink

  const MAX_RAW: nat := 64 * 1024 * 1024
  const CHUNK: nat := 65536

  datatype Outcome = Text(out: seq<byte>) | IsBinary | CannotRead

  /** `out`, with the note that the rest of the stream was not read. */
  function Stopped(out: seq<byte>): seq<byte> {
    var line := if out != [] && out[|out| - 1] != NL then [NL] else [];
    out + line + Ascii("[stopped after 64 MB; the rest was not read]")
  }

  /** On a line of its own. */
  lemma StoppedSays(out: seq<byte>)
    ensures out == [] || out[|out| - 1] == NL ==> Stopped(out) == out + Ascii("[stopped after 64 MB; the rest was not read]")
    ensures out != [] && out[|out| - 1] != NL ==> Stopped(out) == out + [NL] + Ascii("[stopped after 64 MB; the rest was not read]")
  {
    assert out + [] == out;
  }

  /** How many bytes one read returns of `left`. */
  method AnyPart(left: nat) returns (n: nat)
    requires left > 0
    ensures 1 <= n <= CHUNK && n <= left
  {
    n :| 1 <= n <= CHUNK && n <= left;
  }

  /** Read at least `limit` bytes from `pos`, unless the file ends or a read fails: one that starts at a
      place in `bad` does. Each read returns as many bytes as it likes, so the last one may overshoot. */
  method FillSink(file: seq<byte>, bad: set<nat>, pos: nat, s: Collector, limit: nat) returns (ok: bool, nul: bool, end: nat)
    requires s.Valid() && pos <= |file|
    modifies s, s.tail
    ensures s.Valid() && pos <= end <= |file|
    ensures s.fed == old(s.fed) + file[pos..end] && s.total == old(s.total) + (end - pos)
    ensures ok ==> end - pos >= limit || end == |file|
    ensures !ok ==> end in bad
    ensures nul <==> 0 in file[pos..end]
  {
    hide *;
    nul, end := false, pos;
    while end - pos < limit
      modifies s, s.tail
      invariant s.Valid() && pos <= end <= |file|
      invariant s.fed == old(s.fed) + file[pos..end] && s.total == old(s.total) + (end - pos)
      invariant nul <==> 0 in file[pos..end]
      decreases |file| - end
    {
      if end in bad { return false, nul, end; }
      if end == |file| { break; }
      var n := AnyPart(|file| - end);
      var chunk := file[end..end + n];
      assert file[pos..end + n] == file[pos..end] + chunk;
      if 0 in chunk { nul := true; }
      s.Add(chunk);
      end := end + n;
    }
    ok := true;
  }

  /** The two ends of a file, with whatever was read past the first, are all a collector keeps
      of the whole. */
  lemma EndsSuffice(file: seq<byte>, n: nat, c: nat, end: nat)
    requires n + c < |file| && n <= end <= |file|
    ensures
      var fed := file[..end] + file[|file| - c..];
      First(fed, n) == First(file, n) && Last(Rest(fed, n), c) == Last(Rest(file, n), c)
    ensures First(file, n) <= file[..end]
    ensures Last(Rest(file, n), c) == file[|file| - c..]
  {
    var fed := file[..end] + file[|file| - c..];
    assert Rest(fed, n) == file[n..end] + file[|file| - c..];
    assert Rest(file, n) == file[n..];
    LastOfConcat(file[n..end], file[|file| - c..]);
  }

  lemma LastOfConcat(a: seq<byte>, b: seq<byte>)
    ensures Last(a + b, |b|) == b
  {
  }

  lemma KeepsEnds(s: Collector, file: seq<byte>, end: nat)
    requires s.headMax + s.tailCap < |file| && s.headMax <= end <= |file|
    requires s.Keeps(file[..end] + file[|file| - s.tailCap..])
    ensures s.Keeps(file) && s.head <= file[..end] && s.Ring() == file[|file| - s.tailCap..]
  {
    hide Unroll, First, Rest, Last, Collector.Shape, Collector.Ring;
    EndsSuffice(file, s.headMax, s.tailCap, end);
  }

  /** Skip the middle of a regular file, don't read it. */
  method ReadEnds(file: seq<byte>, bad: set<nat>, s: Collector) returns (ok: bool, nul: bool, end: nat)
    requires s.Valid() && s.fed == [] && s.headMax + s.tailCap < |file|
    modifies s, s.tail
    ensures ok ==> s.Keeps(file) && s.total == |file|
    ensures ok ==> s.headMax <= end <= |file| && s.fed == file[..end] + file[|file| - s.tailCap..]
    ensures nul <==> 0 in s.fed
    ensures nul ==> 0 in file
    ensures !ok ==> bad != {}
  {
    hide Collector.Keeps, Unroll;
    ok, nul, end := FillSink(file, bad, 0, s, s.headMax);
    assert file[0..end] == file[..end] && s.fed == file[..end];
    if ok {
      var pos := |file| - s.tailCap;
      var nul2, end2;
      ok, nul2, end2 := FillSink(file, bad, pos, s, s.tailCap);
      assert s.fed == file[..end] + file[pos..end2];
      assert ok ==> file[pos..end2] == file[pos..];
      if ok { KeepsEnds(s, file, end); }
      nul := nul || nul2;
    }
    s.total := |file|;
  }

  method ReadAll(file: seq<byte>, bad: set<nat>, s: Collector) returns (ok: bool, nul: bool, end: nat)
    requires s.Valid() && s.fed == [] && s.total == 0
    modifies s, s.tail
    ensures end <= |file| && (ok ==> end >= MAX_RAW || end == |file|)
    ensures s.Keeps(file[..end]) && s.total == end && s.fed == file[..end]
    ensures nul <==> 0 in file[..end]
    ensures !ok ==> bad != {}
  {
    hide Unroll, First, Rest, Last;
    ok, nul, end := FillSink(file, bad, 0, s, MAX_RAW);
    assert file[0..end] == file[..end] && [] + file[..end] == file[..end];
  }

  /** `file` is what reading to the end would give; only a regular file has a known size. `read` is
      what has been read of it: all up to `end`, and of a large file the tail. */
  method ToolRead(file: seq<byte>, bad: set<nat>, regular: bool, cap: nat) returns (r: Outcome, end: nat, ghost read: seq<byte>)
    requires cap <= MAX_RAW
    ensures end <= |file|
    ensures r.Text? && regular ==> r.out == ShownOf(cap, file)
    ensures r.Text? && !regular ==> r.out == if end >= MAX_RAW then Stopped(ShownOf(cap, file[..end])) else ShownOf(cap, file)
    ensures r.Text? && regular && |file| > cap ==> end >= cap / 5 && read == file[..end] + file[|file| - (cap - cap / 5)..]
    ensures !regular || |file| <= cap ==> read == file[..end] && (r.Text? ==> end == |file| || end >= MAX_RAW)
    ensures r.IsBinary? <==> 0 in read
    ensures r.IsBinary? ==> 0 in file
    ensures r.CannotRead? ==> bad != {}
  {
    var s := new Collector(cap);
    hide Collector.Keeps, Collector.Valid, ShownParts, Stopped, Shown;
    var ok, nul;
    assert file[..|file|] == file;
    if regular && |file| > cap {
      ok, nul, end := ReadEnds(file, bad, s);
      if !ok { end := 0; }
    } else {
      ok, nul, end := ReadAll(file, bad, s);
    }
    read := s.fed;
    if !ok || nul { return if nul then IsBinary else CannotRead, end, read; }
    var out := s.Take();
    r := Text(if !regular && s.total >= MAX_RAW then Stopped(out) else out);
  }
}
