/** A streamed reply, rebuilt from server-sent events that arrive in arbitrary pieces. */
module Stream {
  import opened Wrappers
  import opened Bytes

  const MAX_RESPONSE: nat := 64 * 1024 * 1024

  /** One piece of a tool call: its index, and what of it is given. */
  datatype Fragment = Fragment(index: int, id: Option<seq<byte>>, name: Option<seq<byte>>, args: Option<seq<byte>>)

  datatype Part = Text(text: seq<byte>) | Calls(fragments: seq<Fragment>)

  /** One event: an error, why the reply ended, and the parts of its delta in order. */
  datatype Chunk = Chunk(error: Option<seq<byte>>, finish: Option<seq<byte>>, parts: seq<Part>)

  // ---- lines ----

  /** Where the first newline is at or after `from`; the length if nowhere. */
  function NewlineAt(s: seq<byte>, from: nat := 0): (n: nat)
    requires from <= |s|
    ensures from <= n <= |s| && NL !in s[from..n] && (n < |s| ==> s[n] == NL)
    decreases |s| - from
  {
    if from == |s| || s[from] == NL then from else NewlineAt(s, from + 1)
  }

  /** The complete lines of `s`, newlines aside, and what follows the last one. */
  function LinesOf(s: seq<byte>): seq<seq<byte>>
    decreases |s|
  {
    var n := NewlineAt(s);
    if n == |s| then [] else [s[..n]] + LinesOf(s[n + 1..])
  }

  function RestOf(s: seq<byte>): (r: seq<byte>)
    ensures NL !in r && |r| <= |s|
    decreases |s|
  {
    var n := NewlineAt(s);
    if n == |s| then s else RestOf(s[n + 1..])
  }

  /** The line without the carriage return of a CRLF. */
  function Chomp(line: seq<byte>): seq<byte> {
    if line != [] && line[|line| - 1] == CR then line[..|line| - 1] else line
  }

  function ChompAll(lines: seq<seq<byte>>): seq<seq<byte>> {
    seq(|lines|, i requires 0 <= i < |lines| => Chomp(lines[i]))
  }

  lemma NewlineUnique(s: seq<byte>, from: nat, n: nat)
    requires from <= n <= |s| && NL !in s[from..n] && (n < |s| ==> s[n] == NL)
    ensures NewlineAt(s, from) == n
    decreases n - from
  {
    if from < n {
      assert s[from..n][0] == s[from] && s[from + 1..n] == s[from..n][1..];
      NewlineUnique(s, from + 1, n);
    }
  }

  lemma LinesFirst(s: seq<byte>, n: nat)
    requires n < |s| && NL !in s[..n] && s[n] == NL
    ensures LinesOf(s) == [s[..n]] + LinesOf(s[n + 1..]) && RestOf(s) == RestOf(s[n + 1..])
  {
    assert s[0..n] == s[..n];
    NewlineUnique(s, 0, n);
  }

  lemma NoLine(s: seq<byte>)
    requires NL !in s
    ensures LinesOf(s) == [] && RestOf(s) == s
  {
    NewlineUnique(s, 0, |s|);
  }

  /** More input only adds lines: those of what was left over, followed by it. */
  lemma {:induction false} LinesOfMore(s: seq<byte>, p: seq<byte>)
    ensures LinesOf(s + p) == LinesOf(s) + LinesOf(RestOf(s) + p)
    ensures RestOf(s + p) == RestOf(RestOf(s) + p)
    decreases |s|
  {
    var n := NewlineAt(s);
    assert s[0..n] == s[..n];
    if n == |s| { NoLine(s); }
    hide LinesOf, RestOf, NewlineAt;
    if n < |s| {
      assert (s + p)[..n] == s[..n] && (s + p)[n + 1..] == s[n + 1..] + p;
      LinesFirst(s, n);
      LinesFirst(s + p, n);
      LinesOfMore(s[n + 1..], p);
      Associate([s[..n]], LinesOf(s[n + 1..]), LinesOf(RestOf(s) + p));
    } else {
      assert [] + LinesOf(s + p) == LinesOf(s + p);
    }
  }

  // ---- events ----

  const DATA: seq<byte> := [100, 97, 116, 97, 58]  // "data:"
  const DONE: seq<byte> := [91, 68, 79, 78, 69, 93]  // "[DONE]"

  /** The C string at the start of `s`. */
  function CString(s: seq<byte>): seq<byte> { if s == [] || s[0] == 0 then [] else [s[0]] + CString(s[1..]) }

  /** The data of a line; comments and other fields have none. */
  function DataOf(line: seq<byte>): Option<seq<byte>> {
    var s := CString(line);
    if DATA <= s then Some(if |s| > 5 && s[5] == SPACE then s[6..] else s[5..]) else None
  }

  type Parser = seq<byte> -> Option<Chunk>

  /** The events of `lines`, in order. */
  function ChunksOf(parse: Parser, lines: seq<seq<byte>>): seq<Chunk> {
    if lines == [] then [] else
    var last := DataOf(lines[|lines| - 1]);
    ChunksOf(parse, lines[..|lines| - 1])
    + if last.Some? && last.value != DONE && parse(last.value).Some? then [parse(last.value).value] else []
  }

  /** Whether the server said it was done. */
  predicate DoneIn(lines: seq<seq<byte>>) { exists i :: 0 <= i < |lines| && DataOf(lines[i]) == Some(DONE) }

  // ---- what events add up to ----

  function TextsIn(parts: seq<Part>): seq<byte> {
    if parts == [] then [] else
    var last := parts[|parts| - 1];
    TextsIn(parts[..|parts| - 1]) + if last.Text? then last.text else []
  }

  function FragmentsIn(parts: seq<Part>): seq<Fragment> {
    if parts == [] then [] else
    var last := parts[|parts| - 1];
    FragmentsIn(parts[..|parts| - 1]) + if last.Calls? then last.fragments else []
  }

  function PartsOf(chunks: seq<Chunk>): seq<Part> {
    if chunks == [] then [] else PartsOf(chunks[..|chunks| - 1]) + chunks[|chunks| - 1].parts
  }

  /** The last reason given, as far as the field of 32 bytes holds it. */
  function FinishOf(chunks: seq<Chunk>): seq<byte> {
    if chunks == [] then []
    else if chunks[|chunks| - 1].finish.Some? then First(chunks[|chunks| - 1].finish.value, 31)
    else FinishOf(chunks[..|chunks| - 1])
  }

  function ErrorOf(chunks: seq<Chunk>): Option<seq<byte>> {
    if chunks == [] then None
    else if chunks[|chunks| - 1].error.Some? then chunks[|chunks| - 1].error
    else ErrorOf(chunks[..|chunks| - 1])
  }

  // ---- tool calls ----

  predicate Counts(f: Fragment) { 0 <= f.index <= 255 }

  /** How many calls the fragments make: calls without one of their own are blank. */
  function Width(fs: seq<Fragment>): nat {
    if fs == [] then 0 else
    var w, last := Width(fs[..|fs| - 1]), fs[|fs| - 1];
    if Counts(last) && last.index >= w then last.index + 1 else w
  }

  /** The fragments of call `i`, in order. */
  function Own(fs: seq<Fragment>, i: nat): seq<Fragment> {
    if fs == [] then [] else
    var last := fs[|fs| - 1];
    Own(fs[..|fs| - 1], i) + if Counts(last) && last.index == i then [last] else []
  }

  function ArgsOf(own: seq<Fragment>): seq<byte> {
    if own == [] then [] else
    var last := own[|own| - 1];
    ArgsOf(own[..|own| - 1]) + if last.args.Some? then last.args.value else []
  }

  /** The last value given that is not empty. */
  function IdOf(own: seq<Fragment>): seq<byte> {
    if own == [] then [] else
    var last := own[|own| - 1].id;
    if last.Some? && last.value != [] then last.value else IdOf(own[..|own| - 1])
  }

  function NameOf(own: seq<Fragment>): seq<byte> {
    if own == [] then [] else
    var last := own[|own| - 1].name;
    if last.Some? && last.value != [] then last.value else NameOf(own[..|own| - 1])
  }

  /** A rebuilt tool call. */
  datatype Call = Call(id: seq<byte>, name: seq<byte>, args: seq<byte>)

  function CallOf(own: seq<Fragment>): Call { Call(IdOf(own), NameOf(own), ArgsOf(own)) }

  function CallsOf(fs: seq<Fragment>): seq<Call> {
    seq(Width(fs), i requires 0 <= i => CallOf(Own(fs, i)))
  }

  lemma {:induction false} OwnBeyond(fs: seq<Fragment>, i: nat)
    ensures i >= Width(fs) ==> Own(fs, i) == []
    ensures Width(fs) > 0 ==> Own(fs, Width(fs) - 1) != []
  {
    if fs != [] {
      var most := fs[..|fs| - 1];
      OwnBeyond(most, i);
      OwnBeyond(most, if Width(fs) > 0 then Width(fs) - 1 else 0);
    }
  }

  /** However the fragments of different calls interleave, and whatever text comes between, the
      calls are the same. */
  lemma CallsIgnoreInterleaving(a: seq<Fragment>, b: seq<Fragment>)
    requires forall i: nat {:trigger Own(a, i)} {:trigger Own(b, i)} :: Own(a, i) == Own(b, i)
    ensures CallsOf(a) == CallsOf(b)
  {
    NoNarrower(a, b);
    NoNarrower(b, a);
    hide Width, Own, CallOf;
    forall i: nat | i < Width(a) ensures CallsOf(a)[i] == CallsOf(b)[i] {
      assert Own(a, i) == Own(b, i);
    }
  }

  lemma NoNarrower(a: seq<Fragment>, b: seq<Fragment>)
    requires forall i: nat {:trigger Own(a, i)} {:trigger Own(b, i)} :: Own(a, i) == Own(b, i)
    ensures Width(a) >= Width(b)
  {
    hide Width, Own;
    if Width(b) > 0 {
      var i: nat := Width(b) - 1;
      OwnBeyond(a, i);
      OwnBeyond(b, i);
    }
  }

  /** The reply as a whole: content is absent only beside calls. */
  datatype Reply = Reply(content: Option<seq<byte>>, calls: seq<Call>, finish: seq<byte>)

  function ReplyOf(chunks: seq<Chunk>): Reply {
    var text, calls := TextsIn(PartsOf(chunks)), CallsOf(FragmentsIn(PartsOf(chunks)));
    Reply(if text != [] then Some(text) else if calls != [] then None else Some([]), calls, FinishOf(chunks))
  }

  /** All lines of a finished transfer: the last may lack its newline. */
  function AllLines(text: seq<byte>): seq<seq<byte>> {
    ChompAll(LinesOf(text)) + if RestOf(text) == [] then [] else [RestOf(text)]
  }

  // ---- what the definitions come to ----

  /** The texts of the parts that are text, in order of arrival. */
  function TextPieces(parts: seq<Part>): seq<seq<byte>> {
    if parts == [] then []
    else (if parts[0].Text? then [parts[0].text] else []) + TextPieces(parts[1..])
  }

  /** The parts of each event, in order of arrival. */
  function EventParts(chunks: seq<Chunk>): seq<seq<Part>> {
    seq(|chunks|, i requires 0 <= i < |chunks| => chunks[i].parts)
  }

  lemma {:induction false} TextsConcat(a: seq<Part>, b: seq<Part>)
    ensures TextsIn(a + b) == TextsIn(a) + TextsIn(b)
    decreases |b|
  {
    if b == [] {
      assert a + b == a;
    } else {
      assert (a + b)[..|a + b| - 1] == a + b[..|b| - 1];
      TextsConcat(a, b[..|b| - 1]);
    }
  }

  lemma TextOfOne(p: Part)
    ensures TextsIn([p]) == if p.Text? then p.text else []
  {
    assert [p][..0] == [];
  }

  /** The texts are joined in order. */
  lemma {:induction false} TextsAreJoined(parts: seq<Part>)
    ensures TextsIn(parts) == Concat(TextPieces(parts))
  {
    if parts != [] {
      var first, rest := parts[0], parts[1..];
      assert [first] + rest == parts;
      assert TextPieces(parts) == (if first.Text? then [first.text] else []) + TextPieces(rest);
      hide *;
      TextsAreJoined(rest);
      TextsConcat([first], rest);
      TextOfOne(first);
      ConcatFirst(if first.Text? then first.text else [], TextPieces(rest));
      assert [] + TextPieces(rest) == TextPieces(rest) && [] + Concat(TextPieces(rest)) == Concat(TextPieces(rest));
    }
  }

  lemma ConcatFirst<T>(p: seq<T>, rest: seq<seq<T>>)
    ensures Concat([p] + rest) == p + Concat(rest)
  {
    assert ([p] + rest)[1..] == rest;
  }

  lemma {:induction false} FragmentsConcat(a: seq<Part>, b: seq<Part>)
    ensures FragmentsIn(a + b) == FragmentsIn(a) + FragmentsIn(b)
    decreases |b|
  {
    if b == [] {
      assert a + b == a;
    } else {
      assert (a + b)[..|a + b| - 1] == a + b[..|b| - 1];
      FragmentsConcat(a, b[..|b| - 1]);
    }
  }

  lemma FragmentsOfOne(p: Part)
    ensures FragmentsIn([p]) == if p.Calls? then p.fragments else []
  {
    assert [p][..0] == [];
  }

  /** The events' parts are joined in order. */
  lemma {:induction false} PartsAreJoined(chunks: seq<Chunk>)
    ensures PartsOf(chunks) == Concat(EventParts(chunks))
  {
    if chunks != [] {
      var most, last := chunks[..|chunks| - 1], chunks[|chunks| - 1];
      PartsAreJoined(most);
      assert EventParts(chunks) == EventParts(most) + [last.parts];
      ConcatMore(EventParts(most), last.parts);
    }
  }

  /** The reason to end is the last one given, cut to 31 bytes. */
  lemma {:induction false} FinishIsLast(chunks: seq<Chunk>)
    ensures FinishOf(chunks) == [] || exists k :: FinishAt(chunks, k) && FinishOf(chunks) == First(chunks[k].finish.value, 31)
    ensures forall k :: FinishAt(chunks, k) ==> FinishOf(chunks) == First(chunks[k].finish.value, 31)
  {
    if chunks != [] {
      var most := chunks[..|chunks| - 1];
      FinishIsLast(most);
      if chunks[|chunks| - 1].finish.Some? {
        assert FinishAt(chunks, |chunks| - 1);
      } else {
        assert forall k :: FinishAt(chunks, k) <==> FinishAt(most, k) by {
          assert forall j :: 0 <= j < |most| ==> most[j] == chunks[j];
        }
      }
    }
  }

  predicate FinishAt(chunks: seq<Chunk>, k: int) {
    0 <= k < |chunks| && chunks[k].finish.Some? && forall j :: k < j < |chunks| ==> chunks[j].finish.None?
  }

  /** So is the error, if any event has one. */
  lemma {:induction false} ErrorIsLast(chunks: seq<Chunk>)
    ensures ErrorOf(chunks) == None || exists k :: ErrorAt(chunks, k)
    ensures forall k :: ErrorAt(chunks, k) ==> ErrorOf(chunks) == chunks[k].error
  {
    if chunks != [] {
      var most := chunks[..|chunks| - 1];
      ErrorIsLast(most);
      if chunks[|chunks| - 1].error.Some? {
        assert ErrorAt(chunks, |chunks| - 1);
      } else {
        assert forall k :: ErrorAt(chunks, k) <==> ErrorAt(most, k) by {
          assert forall j :: 0 <= j < |most| ==> most[j] == chunks[j];
        }
      }
    }
  }

  predicate ErrorAt(chunks: seq<Chunk>, k: int) {
    0 <= k < |chunks| && chunks[k].error.Some? && forall j :: k < j < |chunks| ==> chunks[j].error.None?
  }

  lemma {:induction false} OwnConcat(a: seq<Fragment>, b: seq<Fragment>, i: nat)
    ensures Own(a + b, i) == Own(a, i) + Own(b, i)
    decreases |b|
  {
    if b == [] {
      assert a + b == a;
    } else {
      assert (a + b)[..|a + b| - 1] == a + b[..|b| - 1];
      OwnConcat(a, b[..|b| - 1], i);
    }
  }

  lemma OwnOfOne(f: Fragment, i: nat)
    ensures Own([f], i) == if f.index == i && i <= 255 then [f] else []
  {
    assert [f][..0] == [];
  }

  /** There are as many calls as the largest index up to 255 calls for. */
  lemma {:induction false} WidthIsLargest(fs: seq<Fragment>)
    ensures forall k :: 0 <= k < |fs| && 0 <= fs[k].index <= 255 ==> fs[k].index < Width(fs)
    ensures Width(fs) > 0 ==> exists k :: 0 <= k < |fs| && fs[k].index == Width(fs) - 1
    ensures Width(fs) <= 256
  {
    if fs != [] {
      var most := fs[..|fs| - 1];
      WidthIsLargest(most);
      assert forall j :: 0 <= j < |most| ==> most[j] == fs[j];
      if Width(fs) != Width(most) { assert fs[|fs| - 1].index == Width(fs) - 1; }
    }
  }

  lemma {:induction false} ArgsConcat(a: seq<Fragment>, b: seq<Fragment>)
    ensures ArgsOf(a + b) == ArgsOf(a) + ArgsOf(b)
    decreases |b|
  {
    if b == [] {
      assert a + b == a;
    } else {
      assert (a + b)[..|a + b| - 1] == a + b[..|b| - 1];
      ArgsConcat(a, b[..|b| - 1]);
    }
  }

  lemma ArgsOfOne(f: Fragment)
    ensures ArgsOf([f]) == if f.args.Some? then f.args.value else []
  {
    assert [f][..0] == [];
  }

  predicate Given(v: Option<seq<byte>>) { v.Some? && v.value != [] }

  /** Id and name of a call are the last ones given that are not empty. */
  lemma {:induction false} LastGiven(own: seq<Fragment>, k: nat)
    requires k < |own|
    ensures Given(own[k].id) && (forall j :: k < j < |own| ==> !Given(own[j].id)) ==> IdOf(own) == own[k].id.value
    ensures Given(own[k].name) && (forall j :: k < j < |own| ==> !Given(own[j].name)) ==> NameOf(own) == own[k].name.value
    ensures (forall j :: 0 <= j < |own| ==> !Given(own[j].id)) ==> IdOf(own) == []
    ensures (forall j :: 0 <= j < |own| ==> !Given(own[j].name)) ==> NameOf(own) == []
    decreases |own|
  {
    var most := own[..|own| - 1];
    assert forall j :: 0 <= j < |most| ==> most[j] == own[j];
    if most != [] { LastGiven(most, if k < |most| then k else 0); }
  }

  /** A call's id, name and arguments are those of its own fragments. */
  lemma CallReads(fs: seq<Fragment>, i: nat)
    requires i < Width(fs)
    ensures |CallsOf(fs)| == Width(fs)
    ensures
      var c, own := CallsOf(fs)[i], Own(fs, i);
      c.id == IdOf(own) && c.name == NameOf(own) && c.args == ArgsOf(own)
  {
  }

  // ---- lines as events ----

  lemma {:induction false} CStringStops(s: seq<byte>, rest: seq<byte>)
    requires 0 !in s && (rest == [] || rest[0] == 0)
    ensures CString(s + rest) == s
  {
    if s == [] {
      assert s + rest == rest;
    } else {
      assert (s + rest)[1..] == s[1..] + rest;
      CStringStops(s[1..], rest);
    }
  }

  /** "data:", at most one space that does not count, and the data. */
  lemma DataLine(p: seq<byte>)
    requires 0 !in p
    ensures DataOf([100, 97, 116, 97, 58, SPACE] + p) == Some(p)
    ensures p == [] || p[0] != SPACE ==> DataOf([100, 97, 116, 97, 58] + p) == Some(p)
  {
    var a: seq<byte> := [100, 97, 116, 97, 58, SPACE];
    var b: seq<byte> := [100, 97, 116, 97, 58];
    CStringStops(a + p, []);
    CStringStops(b + p, []);
    assert a + p + [] == a + p && b + p + [] == b + p;
    assert (a + p)[6..] == p && (b + p)[5..] == p && (a + p)[..5] == b && (b + p)[..5] == b;
  }

  /** No other line has data. */
  lemma OtherLine(l: seq<byte>)
    requires |l| < 5 || l[..5] != [100, 97, 116, 97, 58]
    ensures DataOf(l) == None
  {
    CStringIsPrefix(l);
    assert DATA <= CString(l) ==> DATA <= l;
  }

  lemma {:induction false} CStringIsPrefix(s: seq<byte>)
    ensures CString(s) <= s
  {
    if s != [] && s[0] != 0 { CStringIsPrefix(s[1..]); }
  }

  lemma {:induction false} ChunksConcat(parse: Parser, a: seq<seq<byte>>, b: seq<seq<byte>>)
    ensures ChunksOf(parse, a + b) == ChunksOf(parse, a) + ChunksOf(parse, b)
    decreases |b|
  {
    if b == [] {
      assert a + b == a;
    } else {
      assert (a + b)[..|a + b| - 1] == a + b[..|b| - 1];
      hide DataOf;
      ChunksConcat(parse, a, b[..|b| - 1]);
    }
  }

  /** A line is an event if its data parses and is not the end mark. */
  lemma ChunkOfOne(parse: Parser, l: seq<byte>)
    ensures
      var d := DataOf(l);
      ChunksOf(parse, [l]) ==
        if d.Some? && d.value != [91, 68, 79, 78, 69, 93] && parse(d.value).Some? then [parse(d.value).value] else []
  {
    assert [l][..0] == [];
    hide DataOf;
  }

  /** A carriage return before the newline is not part of the line. */
  lemma ChompedLine(l: seq<byte>)
    ensures Chomp(l + [CR]) == l
    ensures l == [] || l[|l| - 1] != CR ==> Chomp(l) == l
  {
  }

  /** Lines end at newlines, and the last one at the end of the text. */
  lemma LineByLine(l: seq<byte>, rest: seq<byte>)
    requires NL !in l
    ensures AllLines(l + [NL] + rest) == [Chomp(l)] + AllLines(rest)
    ensures l != [] ==> AllLines(l) == [l]
  {
    hide LinesOf, RestOf, ChompAll;
    var s := l + [NL] + rest;
    assert s[..|l|] == l && s[|l| + 1..] == rest;
    LinesFirst(s, |l|);
    NoLine(l);
    ChompFirst(l, LinesOf(rest));
    NothingFed();
    Associate([Chomp(l)], ChompAll(LinesOf(rest)), if RestOf(rest) == [] then [] else [RestOf(rest)]);
  }

  /** What a reply says, of the texts and fragments as they arrived. */
  predicate Says(chunks: seq<Chunk>, r: Reply) {
    var text := Concat(TextPieces(Concat(EventParts(chunks))));
    && r.content == (if text != [] then Some(text) else if r.calls != [] then None else Some([]))
    && r.calls == CallsOf(FragmentsIn(Concat(EventParts(chunks))))
    && r.finish == FinishOf(chunks)
  }

  lemma ReplySays(chunks: seq<Chunk>)
    ensures Says(chunks, ReplyOf(chunks))
  {
    PartsAreJoined(chunks);
    TextsAreJoined(PartsOf(chunks));
    hide PartsOf, TextsIn, TextPieces, CallsOf, FragmentsIn, EventParts, FinishOf, Concat;
  }

  // ---- the receiver ----

  class Receiver {
    const parse: Parser
    var line: seq<byte>              // what `fed` has after its last line end
    var raw: seq<byte>               // the body, while there are no events
    var content: seq<byte>
    var heads: seq<(seq<byte>, seq<byte>)>  // ids and names of the calls
    var args: seq<seq<byte>>         // their arguments
    var finish: seq<byte>
    var error: Option<seq<byte>>
    var events: nat
    var done: bool                   // the server sent [DONE]
    var received: nat
    var oversize: bool
    ghost var fed: seq<byte>         // what has been taken in as a stream
    ghost var lines: seq<seq<byte>>  // what has been handled line by line

    /** The calls rebuilt so far are those that `fs` make. */
    ghost predicate Merged(fs: seq<Fragment>)
      reads `heads, `args
    {
      && |heads| == |args| == Width(fs)
      && forall i :: 0 <= i < |args| ==>
        heads[i].0 == IdOf(Own(fs, i)) && heads[i].1 == NameOf(Own(fs, i)) && args[i] == ArgsOf(Own(fs, i))
    }

    /** The calls that the fragments so far make take in some more. */
    method MergeCalls(deltas: seq<Fragment>, ghost fs: seq<Fragment>)
      requires Merged(fs)
      modifies `heads, `args
      ensures Merged(fs + deltas)
    {
      assert fs + deltas[..0] == fs;
      for k := 0 to |deltas|
        invariant Merged(fs + deltas[..k])
      {
        assert fs + deltas[..k + 1] == fs + deltas[..k] + [deltas[k]];
        MergeCall(deltas[k], fs + deltas[..k]);
      }
      assert deltas[..|deltas|] == deltas;
    }

    method MergeCall(d: Fragment, ghost fs: seq<Fragment>)
      requires Merged(fs)
      modifies `heads, `args
      ensures Merged(fs + [d])
    {
      WidthMore(fs, d);
      forall i: nat { OwnMore(fs, d, i); }
      hide Own, Width, ArgsOf, IdOf, NameOf;
      var idx := d.index;
      if idx < 0 || idx > 255 { return; }
      Widen(idx, fs);
      if d.id.Some? && d.id.value != [] { heads := heads[idx := (d.id.value, heads[idx].1)]; }
      if d.name.Some? && d.name.value != [] { heads := heads[idx := (heads[idx].0, d.name.value)]; }
      if d.args.Some? { args := args[idx := args[idx] + d.args.value]; }
    }

    /** Blank calls up to `idx`. */
    method Widen(idx: nat, ghost fs: seq<Fragment>)
      requires Merged(fs)
      modifies `heads, `args
      ensures |heads| == |args| == if Width(fs) <= idx then idx + 1 else Width(fs)
      ensures forall i :: 0 <= i < |args| ==>
        heads[i].0 == IdOf(Own(fs, i)) && heads[i].1 == NameOf(Own(fs, i)) && args[i] == ArgsOf(Own(fs, i))
    {
      forall i: nat { OwnBeyond(fs, i); }
      hide Own, Width;
      while |heads| <= idx
        invariant |heads| == |args| && (|heads| == Width(fs) || Width(fs) < |heads| <= idx + 1)
        invariant forall i :: 0 <= i < |args| ==>
          heads[i].0 == IdOf(Own(fs, i)) && heads[i].1 == NameOf(Own(fs, i)) && args[i] == ArgsOf(Own(fs, i))
        decreases idx + 1 - |heads|
      {
        heads := heads + [([], [])];
        args := args + [[]];
      }
    }

    /** What has been rebuilt is what `chunks` add up to. */
    ghost predicate Rebuilt(chunks: seq<Chunk>)
      reads `content, `heads, `args, `finish, `error, `events
    {
      && content == TextsIn(PartsOf(chunks)) && Merged(FragmentsIn(PartsOf(chunks)))
      && finish == FinishOf(chunks) && error == ErrorOf(chunks) && events == |chunks|
    }

    /** The lines handled and the line held are those of what was fed, however it was cut. */
    ghost predicate Valid()
      reads this
    {
      && lines == ChompAll(LinesOf(fed)) && line == RestOf(fed)
      && Rebuilt(ChunksOf(parse, lines)) && done == DoneIn(lines)
    }

    constructor (parse: Parser)
      ensures Valid() && fed == [] && this.parse == parse && received == 0 && !oversize && raw == []
    {
      this.parse := parse;
      line, raw, content, heads, args, finish, error := [], [], [], [], [], [], None;
      events, done, received, oversize, fed, lines := 0, false, 0, false, [], [];
    }

    method TakePart(part: Part, ghost parts: seq<Part>)
      requires content == TextsIn(parts) && Merged(FragmentsIn(parts))
      modifies `content, `heads, `args
      ensures content == TextsIn(parts + [part]) && Merged(FragmentsIn(parts + [part]))
    {
      assert (parts + [part])[..|parts|] == parts;
      match part
      case Text(text) =>
        content := content + text;
        assert FragmentsIn(parts) + [] == FragmentsIn(parts);
      case Calls(fragments) =>
        MergeCalls(fragments, FragmentsIn(parts));
        assert TextsIn(parts) + [] == TextsIn(parts);
    }

    method StreamEvent(chunk: Chunk, ghost chunks: seq<Chunk>)
      requires Rebuilt(chunks)
      modifies `content, `heads, `args, `finish, `error, `events
      ensures Rebuilt(chunks + [chunk]) && events == old(events) + 1
    {
      ghost var was := PartsOf(chunks);
      AddsUp(chunks, chunk);
      hide PartsOf, TextsIn, FragmentsIn, FinishOf, ErrorOf, Merged;
      if chunk.error.Some? { error := chunk.error; }
      events := events + 1;
      if chunk.finish.Some? { finish := First(chunk.finish.value, 31); }
      assert was + chunk.parts[..0] == was;
      for k := 0 to |chunk.parts|
        modifies `content, `heads, `args
        invariant content == TextsIn(was + chunk.parts[..k]) && Merged(FragmentsIn(was + chunk.parts[..k]))
      {
        assert was + chunk.parts[..k + 1] == was + chunk.parts[..k] + [chunk.parts[k]];
        TakePart(chunk.parts[k], was + chunk.parts[..k]);
      }
      assert chunk.parts[..|chunk.parts|] == chunk.parts;
    }

    /** Handle one line. */
    method StreamLine(l: seq<byte>)
      requires Rebuilt(ChunksOf(parse, lines)) && done == DoneIn(lines)
      modifies `content, `heads, `args, `finish, `error, `events, `done, `lines
      ensures lines == old(lines) + [l] && Rebuilt(ChunksOf(parse, lines)) && done == DoneIn(lines)
      ensures events >= old(events)
    {
      hide Rebuilt, ChunksOf, DoneIn, DataOf;
      ghost var was := lines;
      lines := lines + [l];
      DoneMore(was, l);
      ChunksMore(parse, was, l);
      var data := DataIn(l);
      if data.None? { return; }
      if data.value == DONE {
        done := true;
      } else {
        var chunk := parse(data.value);
        if chunk.Some? { StreamEvent(chunk.value, ChunksOf(parse, was)); }
      }
    }

    static method DataIn(l: seq<byte>) returns (data: Option<seq<byte>>)
      ensures data == DataOf(l)
    {
      var s := CString(l);
      if !(DATA <= s) { return None; }
      data := Some(if |s| > 5 && s[5] == SPACE then s[6..] else s[5..]);
    }

    /** memchr for a newline. */
    static method FindNewline(s: seq<byte>, from: nat) returns (n: nat)
      requires from <= |s|
      ensures n == NewlineAt(s, from)
    {
      n := from;
      while n < |s| && s[n] != NL
        invariant from <= n <= |s| && NewlineAt(s, n) == NewlineAt(s, from)
      {
        n := n + 1;
      }
    }

    /** Take in what has arrived: only the new bytes are searched for line ends, as the held ones
        have none. What is not taken makes the transfer stop. */
    method OnStream(p: seq<byte>, status: int) returns (taken: nat)
      requires Valid()
      modifies this
      ensures Valid() && received == old(received) + |p| && oversize == (old(oversize) || received > MAX_RESPONSE)
      ensures taken == if oversize then 0 else |p|
      ensures fed == if oversize || status != 200 then old(fed) else old(fed) + p
      ensures raw == if oversize || old(events) > 0 then old(raw) else old(raw) + p
      ensures events >= old(events)
    {
      hide Rebuilt, ChompAll, LinesOf, RestOf, ChunksOf, DoneIn;
      received := received + |p|;
      if received > MAX_RESPONSE { oversize := true; }
      if oversize { return 0; }
      if events == 0 { raw := raw + p; }
      if status == 200 { Split(p); }
      taken := |p|;
    }

    method Split(p: seq<byte>)
      requires Valid()
      modifies `line, `content, `heads, `args, `finish, `error, `events, `done, `lines, `fed
      ensures Valid() && fed == old(fed) + p && events >= old(events)
    {
      ghost var text := fed + p;
      SplitMore(fed, p);
      hide ChunksOf, DoneIn, Rebuilt, LinesOf, RestOf, ChompAll;
      var known := |line|;
      line := line + p;
      assert line[0..] == line && line[0..known] == old(line);
      fed := text;
      Scan(known, text);
    }

    /** Handle the complete lines of `line`, whose first `known` bytes hold no newline. */
    method Scan(known: nat, ghost text: seq<byte>)
      requires known <= |line| && NL !in line[0..known]
      requires Rebuilt(ChunksOf(parse, lines)) && done == DoneIn(lines)
      requires ChompAll(LinesOf(text)) == lines + ChompAll(LinesOf(line[0..])) && RestOf(text) == RestOf(line[0..])
      modifies `line, `content, `heads, `args, `finish, `error, `events, `done, `lines
      ensures Rebuilt(ChunksOf(parse, lines)) && done == DoneIn(lines)
      ensures lines == ChompAll(LinesOf(text)) && line == RestOf(text) && events >= old(events)
    {
      hide ChunksOf, DoneIn, Rebuilt, LinesOf, RestOf, ChompAll;
      var start := 0;
      var nl := FindNewline(line, known);
      assert line[0..nl] == line[0..known] + line[known..nl];
      while nl < |line|
        modifies `content, `heads, `args, `finish, `error, `events, `done, `lines
        invariant start <= nl <= |line| && NL !in line[start..nl] && (nl < |line| ==> line[nl] == NL)
        invariant Rebuilt(ChunksOf(parse, lines)) && done == DoneIn(lines)
        invariant ChompAll(LinesOf(text)) == lines + ChompAll(LinesOf(line[start..]))
        invariant RestOf(text) == RestOf(line[start..]) && events >= old(events)
        decreases |line| - start
      {
        SplitOne(lines, line, start, nl);
        StreamLine(line[start..if nl > start && line[nl - 1] == CR then nl - 1 else nl]);
        start := nl + 1;
        nl := FindNewline(line, start);
      }
      SplitEnd(lines, line, start);
      line := line[start..];
    }

    /** The reply is the one that the chunks add up to. */
    method Result(ghost chunks: seq<Chunk>) returns (r: Reply)
      requires Rebuilt(chunks)
      ensures r == ReplyOf(chunks) && Says(chunks, r)
    {
      ReplySays(chunks);
      hide Own, Width, TextsIn, FragmentsIn, PartsOf, FinishOf, ErrorOf, IdOf, NameOf, ArgsOf, Says;
      var calls := [];
      for i := 0 to |heads|
        invariant calls == CallsOf(FragmentsIn(PartsOf(chunks)))[..i]
      {
        calls := calls + [Call(heads[i].0, heads[i].1, args[i])];
      }
      var shown := if content != [] then Some(content) else if |heads| > 0 then None else Some([]);
      r := Reply(shown, calls, finish);
    }
  }

  /** How a transfer ended: cut off for its size; or with so many events, a reason to end, the end
      mark, an error among them, any text for the user, the body when there were no events, and the
      reply that the events rebuild. */
  datatype Ending =
    | TooLarge(text: bool)
    | Ended(events: nat, finish: seq<byte>, done: bool, error: bool, text: bool, raw: seq<byte>, reply: Reply)

  /** What a whole body comes to: with status 200 it is read as an event stream. */
  function EndingOf(parse: Parser, body: seq<byte>, status: int): Ending {
    var lines := LinesIn(body, status);
    var chunks := ChunksOf(parse, lines);
    Ended(|chunks|, FinishOf(chunks), DoneIn(lines), ErrorOf(chunks).Some?, TextsIn(PartsOf(chunks)) != [],
      if chunks == [] then body else [], ReplyOf(chunks))
  }

  function LinesIn(body: seq<byte>, status: int): seq<seq<byte>> { if status == 200 then AllLines(body) else [] }

  /** A transfer comes to what its whole body does, wherever it was cut into pieces. */
  method Transfer(parse: Parser, pieces: seq<seq<byte>>, status: int) returns (e: Ending)
    ensures e.TooLarge? <==> |Concat(pieces)| > MAX_RESPONSE
    ensures e.Ended? ==> e == EndingOf(parse, Concat(pieces), status)
  {
    var st := new Receiver(parse);
    hide *;
    assert pieces[..0] == [];
    NothingFed();
    for i := 0 to |pieces|
      invariant st.Valid() && !st.oversize && st.parse == parse && fresh(st)
      invariant st.received == |Concat(pieces[..i])| <= MAX_RESPONSE
      invariant st.fed == if status == 200 then Concat(pieces[..i]) else []
      invariant st.events == 0 ==> st.raw == Concat(pieces[..i])
    {
      ConcatNext(pieces, i);
      var taken := st.OnStream(pieces[i], status);
      if st.oversize { return TooLarge(st.content != []); }
    }
    assert pieces[..|pieces|] == pieces;
    e := Finish(st, Concat(pieces), status);
  }

  /** The transfer is over: a last line may lack its newline. */
  method Finish(st: Receiver, ghost body: seq<byte>, ghost status: int) returns (e: Ending)
    requires st.Valid() && st.fed == (if status == 200 then body else [])
    requires st.events == 0 ==> st.raw == body
    modifies st
    ensures e.Ended? && e == EndingOf(st.parse, body, status)
  {
    hide LinesOf, RestOf, ChompAll, ChunksOf, DoneIn, ReplyOf, TextsIn, PartsOf, FinishOf, ErrorOf;
    NothingFed();
    assert st.lines + [] == st.lines;
    if st.line != [] { st.StreamLine(st.line); }
    assert st.lines == LinesIn(body, status);
    ghost var chunks := ChunksOf(st.parse, st.lines);
    var reply := st.Result(chunks);
    e := Ended(st.events, st.finish, st.done, st.error.Some?, st.content != [], if st.events == 0 then st.raw else [], reply);
    assert st.content == TextsIn(PartsOf(chunks)) && st.events == |chunks|;
  }

  lemma NothingFed()
    ensures LinesOf([]) == [] && RestOf([]) == [] && ChompAll([]) == [] && Concat<byte>([]) == []
  {
  }

  lemma ConcatNext(pieces: seq<seq<byte>>, i: nat)
    requires i < |pieces|
    ensures Concat(pieces[..i + 1]) == Concat(pieces[..i]) + pieces[i]
    ensures |Concat(pieces[..i + 1])| <= |Concat(pieces)|
  {
    assert pieces[..i + 1] == pieces[..i] + [pieces[i]];
    ConcatMore(pieces[..i], pieces[i]);
    ConcatGrows(pieces, i + 1);
  }

  lemma {:induction false} ConcatGrows(pieces: seq<seq<byte>>, i: nat)
    requires i <= |pieces|
    ensures |Concat(pieces[..i])| <= |Concat(pieces)|
  {
    if i > 0 {
      assert pieces[..i][1..] == pieces[1..][..i - 1];
      ConcatGrows(pieces[1..], i - 1);
    }
  }

  lemma SplitMore(s: seq<byte>, p: seq<byte>)
    ensures ChompAll(LinesOf(s + p)) == ChompAll(LinesOf(s)) + ChompAll(LinesOf(RestOf(s) + p))
    ensures RestOf(s + p) == RestOf(RestOf(s) + p) && NL !in RestOf(s)
  {
    LinesOfMore(s, p);
    hide LinesOf, RestOf;
  }

  /** The first of the lines that are left. */
  lemma FirstLine(s: seq<byte>, start: nat, nl: nat)
    requires start <= nl < |s| && NL !in s[start..nl] && s[nl] == NL
    ensures LinesOf(s[start..]) == [s[start..nl]] + LinesOf(s[nl + 1..])
    ensures RestOf(s[start..]) == RestOf(s[nl + 1..])
  {
    var t := s[start..];
    assert t[..nl - start] == s[start..nl] && t[nl - start + 1..] == s[nl + 1..];
    LinesFirst(t, nl - start);
  }

  lemma NoLineLeft(s: seq<byte>, start: nat)
    requires start <= |s| && NL !in s[start..|s|]
    ensures LinesOf(s[start..]) == [] && RestOf(s[start..]) == s[start..]
  {
    assert s[start..] == s[start..|s|];
    NoLine(s[start..]);
  }

  lemma SplitOne(lines: seq<seq<byte>>, s: seq<byte>, start: nat, nl: nat)
    requires start <= nl < |s| && NL !in s[start..nl] && s[nl] == NL
    ensures
      var l := if nl > start && s[nl - 1] == CR then s[start..nl - 1] else s[start..nl];
      lines + ChompAll(LinesOf(s[start..])) == (lines + [l]) + ChompAll(LinesOf(s[nl + 1..]))
    ensures RestOf(s[start..]) == RestOf(s[nl + 1..])
  {
    FirstLine(s, start, nl);
    var rest := LinesOf(s[nl + 1..]);
    hide LinesOf, RestOf, NewlineAt;
    ChompFirst(s[start..nl], rest);
    assert nl > start ==> s[start..nl][..nl - start - 1] == s[start..nl - 1];
    hide ChompAll;
    Associate(lines, [Chomp(s[start..nl])], ChompAll(rest));
  }

  lemma ChompFirst(l: seq<byte>, rest: seq<seq<byte>>)
    ensures ChompAll([l] + rest) == [Chomp(l)] + ChompAll(rest)
  {
  }

  lemma SplitEnd(lines: seq<seq<byte>>, s: seq<byte>, start: nat)
    requires start <= |s| && NL !in s[start..|s|]
    ensures lines + ChompAll(LinesOf(s[start..])) == lines && RestOf(s[start..]) == s[start..]
  {
    NoLineLeft(s, start);
  }

  lemma DoneMore(lines: seq<seq<byte>>, l: seq<byte>)
    ensures DoneIn(lines + [l]) <==> DoneIn(lines) || DataOf(l) == Some(DONE)
  {
    var more := lines + [l];
    if DoneIn(lines) {
      var i :| 0 <= i < |lines| && DataOf(lines[i]) == Some(DONE);
      assert DataOf(more[i]) == Some(DONE);
    }
    if DataOf(l) == Some(DONE) { assert DataOf(more[|lines|]) == Some(DONE); }
  }

  lemma ChunksMore(parse: Parser, lines: seq<seq<byte>>, l: seq<byte>)
    ensures var d := DataOf(l);
      ChunksOf(parse, lines + [l]) == if d.Some? && d.value != DONE && parse(d.value).Some?
        then ChunksOf(parse, lines) + [parse(d.value).value] else ChunksOf(parse, lines)
  {
    assert (lines + [l])[..|lines|] == lines;
  }

  lemma AddsUp(chunks: seq<Chunk>, c: Chunk)
    ensures PartsOf(chunks + [c]) == PartsOf(chunks) + c.parts
    ensures FinishOf(chunks + [c]) == if c.finish.Some? then First(c.finish.value, 31) else FinishOf(chunks)
    ensures ErrorOf(chunks + [c]) == if c.error.Some? then c.error else ErrorOf(chunks)
  {
    assert (chunks + [c])[..|chunks|] == chunks;
  }

  lemma OwnMore(fs: seq<Fragment>, d: Fragment, i: nat)
    ensures var own, more := Own(fs, i), Own(fs + [d], i);
      && more == (if Counts(d) && d.index == i then own + [d] else own)
      && IdOf(own + [d]) == (if d.id.Some? && d.id.value != [] then d.id.value else IdOf(own))
      && NameOf(own + [d]) == (if d.name.Some? && d.name.value != [] then d.name.value else NameOf(own))
      && ArgsOf(own + [d]) == ArgsOf(own) + (if d.args.Some? then d.args.value else [])
  {
    var own := Own(fs, i);
    assert (fs + [d])[..|fs|] == fs && (own + [d])[..|own|] == own;
  }

  lemma WidthMore(fs: seq<Fragment>, d: Fragment)
    ensures Width(fs + [d]) == if Counts(d) && d.index >= Width(fs) then d.index + 1 else Width(fs)
  {
    assert (fs + [d])[..|fs|] == fs;
  }
}
