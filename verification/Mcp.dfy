/** One MCP server behind a pipe: messages out through partial writes, messages in line by line. */
module Mcp {
  import opened Wrappers
  import opened Bytes
  import opened JsonRpc
  import Stream

  /** What a message from the server has of what the client looks at. */
  datatype Msg = Msg(id: Id, verb: Option<seq<byte>>, error: Option<seq<byte>>, result: Option<seq<byte>>)

  /** What the client sends: requests of its own, notifications, answers to the server's requests. */
  datatype Out = Request(id: nat, verb: seq<byte>) | Notify(verb: seq<byte>) | Cancel(request: nat) | Answer(to: Id, pong: bool)

  const PING: seq<byte> := Ascii("ping")
  const MAX_RAW: nat := 64 * 1024 * 1024

  /** Messages as JSON text, which has no newline in it. */
  type Encoder = Out -> seq<byte>

  ghost predicate OneLine(encode: Encoder) { forall o :: NL !in encode(o) }

  function Line(encode: Encoder, o: Out): seq<byte> { encode(o) + [NL] }

  /** The bytes of whole messages, one per line. */
  function Wire(encode: Encoder, messages: seq<Out>): seq<byte> {
    if messages == [] then [] else Wire(encode, messages[..|messages| - 1]) + Line(encode, messages[|messages| - 1])
  }

  /** The bytes of whole lines. */
  function Joined(lines: seq<seq<byte>>): seq<byte> {
    if lines == [] then [] else Joined(lines[..|lines| - 1]) + lines[|lines| - 1] + [NL]
  }

  lemma WireMore(encode: Encoder, messages: seq<Out>, o: Out)
    ensures Wire(encode, messages + [o]) == Wire(encode, messages) + Line(encode, o)
  {
    assert (messages + [o])[..|messages|] == messages;
  }

  lemma JoinedMore(lines: seq<seq<byte>>, l: seq<byte>)
    ensures Joined(lines + [l]) == Joined(lines) + l + [NL]
  {
    assert (lines + [l])[..|lines|] == lines;
  }

  /** A server's requests, which want an answer: a method and an id. */
  predicate WantsAnswer(m: Msg) { m.verb.Some? && m.id != NoId && m.id != NullId }

  function AnswerTo(m: Msg): Out { Answer(m.id, m.verb == Some(PING)) }

  /** The answers that the messages among `lines` want, in order. */
  function Answers(parse: seq<byte> -> Option<Msg>, lines: seq<seq<byte>>): seq<Out> {
    if lines == [] then [] else
    var m := parse(lines[|lines| - 1]);
    Answers(parse, lines[..|lines| - 1]) + if m.Some? && WantsAnswer(m.value) then [AnswerTo(m.value)] else []
  }

  /** Line by line: a message with a method, and an id that is neither absent nor null, is answered with
      that id, with a result if it is a ping. */
  lemma AnswersForLine(parse: seq<byte> -> Option<Msg>, l: seq<byte>)
    ensures
      var m := parse(l);
      Answers(parse, [l]) ==
        if m.Some? && m.value.verb.Some? && m.value.id != NoId && m.value.id != NullId
        then [Answer(m.value.id, m.value.verb == Some(Ascii("ping")))] else []
  {
    assert [l][..0] == [] && Answers(parse, []) == [];
  }

  lemma {:induction false} AnswersConcat(parse: seq<byte> -> Option<Msg>, a: seq<seq<byte>>, b: seq<seq<byte>>)
    ensures Answers(parse, a + b) == Answers(parse, a) + Answers(parse, b)
    decreases |b|
  {
    if b == [] {
      assert a + b == a;
    } else {
      assert (a + b)[..|a + b| - 1] == a + b[..|b| - 1];
      AnswersConcat(parse, a, b[..|b| - 1]);
    }
  }

  /** Requests carry ever larger ids, none above `last`. */
  predicate FreshIds(messages: seq<Out>, last: nat) {
    && (forall i :: 0 <= i < |messages| && messages[i].Request? ==> messages[i].id <= last)
    && (forall i, j :: 0 <= i < j < |messages| && messages[i].Request? && messages[j].Request? ==> messages[i].id < messages[j].id)
  }

  /** Why a message is not given whole: the pipe is closed, the user interrupts, time is up, or the
      server has exited. */
  datatype Cause = Closed | Interrupted | Late | Exited

  /** `sent` are answers to what is `wanted`, in order and none twice, and all of them unless a send
      has failed. */
  predicate Keeps(sent: seq<Out>, wanted: seq<Out>, failed: bool) {
    Subsequence(sent, wanted) && (!failed ==> sent == wanted)
  }

  lemma KeepsMore(sent: seq<Out>, wanted: seq<Out>, failed: bool, o: Out)
    requires Keeps(sent, wanted, failed)
    ensures Keeps(sent + [o], wanted + [o], failed) && Keeps(sent, wanted + [o], true) && Keeps(sent, wanted, true)
  {
    SubsequenceMore(sent, wanted, o);
  }

  /** The bytes given are whole messages, and at most a part of one more, which is the last. */
  ghost predicate Framed(encode: Encoder, given: seq<byte>, whole: seq<Out>, open: bool) {
    || given == Wire(encode, whole)
    || (!open && exists o, k :: 0 < k < |Line(encode, o)| && given == Wire(encode, whole) + Line(encode, o)[..k])
  }

  lemma FramedMore(encode: Encoder, given: seq<byte>, whole: seq<Out>, o: Out, k: nat)
    requires Framed(encode, given, whole, true) && k <= |Line(encode, o)|
    ensures k == 0 ==> given + Line(encode, o)[..k] == given
    ensures 0 < k < |Line(encode, o)| ==> Framed(encode, given + Line(encode, o)[..k], whole, false)
    ensures k == |Line(encode, o)| ==> Framed(encode, given + Line(encode, o)[..k], whole + [o], true)
  {
    WireMore(encode, whole, o);
    assert Line(encode, o)[..|Line(encode, o)|] == Line(encode, o);
  }

  lemma FramedClosed(encode: Encoder, given: seq<byte>, whole: seq<Out>)
    ensures Framed(encode, given, whole, true) ==> Framed(encode, given, whole, false)
  {
  }

  class Server {
    const parse: seq<byte> -> Option<Msg>
    const encode: Encoder
    var inOpen: bool                  // its stdin, which is written
    var outOpen: bool                 // its stdout, which is read
    var line: seq<byte>               // what `got` has after its last line end
    var nextId: nat
    var interrupted: bool
    ghost var given: seq<byte>        // the bytes it has been given
    ghost var whole: seq<Out>         // the messages it has been given whole
    ghost var got: seq<byte>          // the bytes kept of what it wrote
    ghost var heard: seq<seq<byte>>   // the lines taken from them
    ghost var failed: nat             // how many messages it has not been given whole

    /** It has been given whole message lines, and at most a part of one more, after which nothing
        can be written; ids are never used twice; what it wrote is taken line by line. */
    ghost predicate Valid()
      reads this
    {
      && OneLine(encode) && Framed(encode, given, whole, inOpen)
      && FreshIds(whole, nextId) && got == Joined(heard) + line
    }

    constructor (parse: seq<byte> -> Option<Msg>, encode: Encoder)
      requires OneLine(encode)
      ensures Valid() && inOpen && outOpen && nextId == 0 && given == [] && heard == [] && failed == 0
    {
      this.parse, this.encode := parse, encode;
      inOpen, outOpen, line, nextId, interrupted := true, true, [], 0, false;
      given, whole, got, heard, failed := [], [], [], [], 0;
    }

    method Poll()
      modifies `interrupted
      ensures old(interrupted) ==> interrupted
    {
      if * { interrupted := true; }
    }

    /** What the server takes of `text` is given to it, and only a cause stops that. `ticks` is how
        often the wait for it to read can be resumed before the deadline. */
    method Write(text: seq<byte>, ticks: nat) returns (off: nat, why: Option<Cause>)
      modifies `interrupted, `given
      ensures off <= |text| && given == old(given) + text[..off]
      ensures (off < |text| <==> why.Some?) && (why == Some(Interrupted) ==> interrupted) && why != Some(Closed)
      ensures old(interrupted) ==> interrupted
    {
      off := 0;
      var left := ticks;
      assert given == given + text[..0];
      while off < |text|
        invariant off <= |text| && given == old(given) + text[..off]
        invariant old(interrupted) ==> interrupted
        decreases |text| - off, left
      {
        if * {  // some of it is taken
          var k: nat :| 1 <= k <= |text| - off;
          assert old(given) + text[..off] + text[off..off + k] == old(given) + text[..off + k];
          given := given + text[off..off + k];
          off := off + k;
        } else if * {  // a signal
          if left == 0 { return off, Some(Late); }
          left := left - 1;
        } else if * {
          return off, Some(Exited);
        } else {  // it is not reading
          Poll();
          if interrupted { return off, Some(Interrupted); }
          if left == 0 { return off, Some(Late); }
          left := left - 1;
        }
      }
      why := None;
    }

    /** The message is given whole; or not at all; or in part, and then nothing is given any more. */
    method SendLine(msg: Out, ticks: nat) returns (why: Option<Cause>)
      requires Valid() && FreshIds(whole + [msg], nextId)
      modifies `inOpen, `interrupted, `given, `whole, `failed
      ensures Valid() && old(given) <= given && (inOpen ==> old(inOpen))
      ensures whole == (if why.None? then old(whole) + [msg] else old(whole)) && (why.None? ==> inOpen)
      ensures failed == old(failed) + if why.None? then 0 else 1
      ensures why.Some? && inOpen ==> given == old(given)
      ensures !old(inOpen) <==> why == Some(Closed)
      ensures !old(inOpen) ==> given == old(given)
      ensures (why == Some(Interrupted) ==> interrupted) && (old(interrupted) ==> interrupted)
    {
      if !inOpen {
        failed := failed + 1;
        return Some(Closed);
      }
      var text := Line(encode, msg);
      var off;
      off, why := Write(text, ticks);
      FramedMore(encode, old(given), whole, msg, off);
      hide Framed, FreshIds, Joined;
      if off == |text| {
        whole := whole + [msg];
        return;
      }
      failed := failed + 1;
      if off > 0 { inOpen := false; }
    }

    /** Close both pipes, and stop the server. */
    method Reap()
      modifies `inOpen, `outOpen
      ensures !inOpen && !outOpen
    {
      inOpen, outOpen := false, false;
    }

    /** The first line of what has been read, if it is complete, leaves it. */
    method CutLine() returns (l: Option<seq<byte>>)
      requires got == Joined(heard) + line
      modifies `line, `heard
      ensures got == Joined(heard) + line
      ensures l.None? ==> line == old(line) && heard == old(heard) && NL !in line
      ensures l.Some? ==> heard == old(heard) + [l.value] && |line| < |old(line)| && NL !in l.value
    {
      var nl := 0;
      while nl < |line| && line[nl] != NL
        invariant nl <= |line| && NL !in line[..nl]
      {
        nl := nl + 1;
      }
      if nl == |line| {
        assert line[..nl] == line;
        return None;
      }
      var first := line[..nl];
      JoinedMore(heard, first);
      assert line == first + [NL] + line[nl + 1..];
      heard := heard + [first];
      line := line[nl + 1..];
      l := Some(first);
    }

    /** Wait for more from the server; not any more when it has exited, writes too much, is
        interrupted or late. */
    method Listen(ticks: nat) returns (left: nat, more: bool)
      requires got == Joined(heard) + line
      modifies `inOpen, `outOpen, `line, `interrupted, `got
      ensures got == Joined(heard) + line && old(got) <= got && (inOpen ==> old(inOpen))
      ensures if more then left < ticks else left <= ticks && (left == 0 || interrupted || !outOpen)
      ensures old(interrupted) ==> interrupted
    {
      left := ticks;
      if !outOpen { return left, false; }
      Poll();
      if interrupted || left == 0 { return left, false; }
      left := left - 1;
      if * { return left, true; }  // nothing yet, or a signal
      var chunk: seq<byte> := *;
      if chunk == [] {
        Reap();
        return left, true;
      }
      if |line| + |chunk| > MAX_RAW {
        Reap();
        return left, false;
      }
      Associate(Joined(heard), line, chunk);
      line := line + chunk;
      got := got + chunk;
      more := true;
    }

    /** The first line from here on that parses is the message, and nothing is lost; none only when
        there is nothing more to wait for. */
    method Take(ticks: nat) returns (m: Option<Msg>, left: nat)
      requires got == Joined(heard) + line
      modifies `inOpen, `outOpen, `line, `interrupted, `got, `heard
      ensures got == Joined(heard) + line && old(got) <= got && left <= ticks && (inOpen ==> old(inOpen))
      ensures old(heard) <= heard
      ensures m.Some? ==> |heard| > |old(heard)| && parse(heard[|heard| - 1]) == m && NL !in heard[|heard| - 1]
      ensures forall i :: |old(heard)| <= i < (if m.Some? then |heard| - 1 else |heard|) ==> parse(heard[i]) == None
      ensures m.None? ==> (left == 0 || interrupted || !outOpen)
      ensures m.Some? ==> left < ticks || |line| < |old(line)|
      ensures old(interrupted) ==> interrupted
    {
      hide Joined;
      left := ticks;
      while true
        invariant got == Joined(heard) + line && old(got) <= got && left <= ticks && (inOpen ==> old(inOpen))
        invariant old(heard) <= heard && (old(interrupted) ==> interrupted)
        invariant left < ticks || |line| <= |old(line)|
        invariant forall i :: |old(heard)| <= i < |heard| ==> parse(heard[i]) == None
        decreases left, |line|
      {
        var l := CutLine();
        if l.Some? {
          m := parse(l.value);
          if m.Some? { return; }
        } else {
          var more;
          left, more := Listen(left);
          if !more { return None, left; }
        }
      }
    }

    /** What was sent since `sent` and heard since `from`: a request, then the answers that what was
        heard wants; all of them, unless a send has failed since there were `was` failures. */
    ghost predicate Served(sent: seq<Out>, request: Out, from: seq<seq<byte>>, was: nat)
      reads `whole, `heard, `failed
    {
      && |whole| > |sent| && whole[..|sent| + 1] == sent + [request] && from <= heard
      && Keeps(whole[|sent| + 1..], Answers(parse, heard[|from|..]), failed > was)
    }

    /** No message heard since `from` is a response to request `id`. */
    ghost predicate Unanswered(from: nat, id: nat)
      reads `heard
    {
      forall i :: from <= i < |heard| ==> !IsResponse(parse(heard[i]), id)
    }

    /** The server's request is answered, with its own id, unless the send fails: ping with a result,
        all others with an error. */
    method Serve(m: Msg, ticks: nat)
      requires Valid() && WantsAnswer(m)
      modifies `inOpen, `interrupted, `given, `whole, `failed
      ensures Valid() && old(given) <= given && (inOpen ==> old(inOpen))
      ensures
        || (whole == old(whole) + [Answer(m.id, m.verb == Some(PING))] && failed == old(failed))
        || (whole == old(whole) && failed == old(failed) + 1)
      ensures (!old(inOpen) ==> given == old(given)) && (old(interrupted) ==> interrupted)
    {
      FreshWithout(whole, nextId, AnswerTo(m));
      hide FreshIds, Framed;
      var why := SendLine(Answer(m.id, m.verb == Some(PING)), ticks);
    }

    /** Another line that has been heard, and what it wants has been sent or has failed. */
    lemma ServedMore(
      sent: seq<Out>, request: Out, from: seq<seq<byte>>, was: nat, before: seq<Out>, failures: nat, lines: seq<seq<byte>>)
      requires |before| > |sent| && before[..|sent| + 1] == sent + [request] && from <= lines < heard
      requires Keeps(before[|sent| + 1..], Answers(parse, lines[|from|..]), failures > was)
      requires forall i :: |lines| <= i < |heard| - 1 ==> parse(heard[i]) == None
      requires parse(heard[|heard| - 1]).Some?
      ensures
        var m := parse(heard[|heard| - 1]).value;
        var answer := if WantsAnswer(m) then [AnswerTo(m)] else [];
        && (whole == before + answer && failed == failures ==> Served(sent, request, from, was))
        && (whole == before && was <= failures < failed ==> Served(sent, request, from, was))
    {
      var m := parse(heard[|heard| - 1]).value;
      var answers, wanted := before[|sent| + 1..], Answers(parse, lines[|from|..]);
      AnswersNext(parse, lines, heard, |from|);
      KeepsMore(answers, wanted, failures > was, AnswerTo(m));
      hide Keeps, Answers;
      assert wanted + [] == wanted && before + [] == before;
      assert (before + [AnswerTo(m)])[..|sent| + 1] == sent + [request];
      assert (before + [AnswerTo(m)])[|sent| + 1..] == answers + [AnswerTo(m)];
    }

    /** The first response to request `id` ends the call, and its result, if it has one and no error, is
        the call's. Without such a response the call ends only when there is nothing more to wait for.
        The requests of the server that come first are all answered, unless a send fails. */
    method Await(id: nat, verb: seq<byte>, ticks: nat, ghost sent: seq<Out>, ghost from: seq<seq<byte>>, ghost was: nat)
      returns (result: Option<seq<byte>>, ghost left: nat)
      requires Valid() && nextId == id && Served(sent, Request(id, verb), from, was) && heard == from && was <= failed
      modifies `inOpen, `outOpen, `line, `interrupted, `given, `whole, `got, `heard, `failed
      ensures Valid() && old(given) <= given && from <= heard && (old(interrupted) ==> interrupted)
      ensures Unanswered(|from|, id) ==> result == None && (left == 0 || interrupted || !outOpen)
      ensures Unanswered(|from|, id) && (!outOpen || verb == INITIALIZE) ==> Served(sent, Request(id, verb), from, was)
      ensures Unanswered(|from|, id) && outOpen && verb != INITIALIZE ==> GivenUp(id, was)
      ensures !Unanswered(|from|, id) ==> Concluded(|from|, id, result) && Served(sent, Request(id, verb), from, was)
    {
      hide FreshIds, Framed, Keeps, Answers, Joined;
      var ticking: nat := ticks;
      left := ticks;
      while true
        invariant Valid() && old(given) <= given && was <= failed && left == ticking
        invariant Served(sent, Request(id, verb), from, was) && Unanswered(|from|, id)
        invariant old(interrupted) ==> interrupted
        decreases ticking, |line|
      {
        ghost var lines, before, failures := heard, whole, failed;
        FramedClosed(encode, given, whole);
        var r;
        r, ticking := Take(ticking);
        left := ticking;
        if r.None? {
          AnswersSkip(parse, lines[|from|..], heard[|from|..]);
          if outOpen && verb != INITIALIZE { GiveUp(id, ticking); }
          return None, left;
        }
        var m := r.value;
        if m.verb.Some? && m.id != NoId && m.id != NullId { Serve(m, ticking); }
        ServedMore(sent, Request(id, verb), from, was, before, failures, lines);
        if m.verb.None? && m.id == NumId(id) {
          assert IsResponse(parse(heard[|heard| - 1]), id);
          return if m.error.Some? then None else m.result, left;
        }
      }
    }

    /** The last message heard is the first response to `id` since `from`, and it says `result`. */
    ghost predicate Concluded(from: nat, id: nat, result: Option<seq<byte>>)
      reads `heard
    {
      && from < |heard| && (forall i :: from <= i < |heard| - 1 ==> !IsResponse(parse(heard[i]), id))
      && var m := parse(heard[|heard| - 1]);
      && IsResponse(m, id) && result == if m.value.error.Some? then None else m.value.result
    }

    /** Request `id` has been given up: its cancel was the last message sent, or could not be sent, as a
        send has failed since there were `was` failures. */
    ghost predicate GivenUp(id: nat, was: nat)
      reads `whole, `failed
    {
      failed > was || (whole != [] && whole[|whole| - 1] == Cancel(id))
    }

    /** A response to this request's own id, which no request had before, decides the result. Without
        one there is no result, and only because the request could not be sent, the user interrupted,
        time was up or the server's output ended. */
    method Rpc(verb: seq<byte>, ticks: nat) returns (result: Option<seq<byte>>, ghost left: nat, ghost why: Option<Cause>)
      requires Valid()
      modifies `inOpen, `outOpen, `line, `nextId, `interrupted, `given, `whole, `got, `heard, `failed
      ensures Valid() && nextId == old(nextId) + 1 && old(given) <= given && old(heard) <= heard
      ensures !old(inOpen) ==> given == old(given)
      ensures why.Some? ==> result == None && heard == old(heard) && whole == old(whole)
      ensures (why == Some(Closed) <==> !old(inOpen)) && (why == Some(Interrupted) ==> interrupted)
      ensures why.None? && Unanswered(|old(heard)|, nextId) ==> result == None && (left == 0 || interrupted || !outOpen)
      ensures why.None? && !Unanswered(|old(heard)|, nextId) ==> Concluded(|old(heard)|, nextId, result)
      ensures why.None? && Unanswered(|old(heard)|, nextId) && outOpen && verb != INITIALIZE ==> GivenUp(nextId, old(failed))
      ensures result.Some? ==> Served(old(whole), Request(nextId, verb), old(heard), old(failed))
    {
      ghost var sent, from := whole, heard;
      left := ticks;
      var stopped := Begin(verb, ticks);
      why := stopped;
      hide *;
      if stopped.Some? { return None, left, why; }
      result, left := Await(nextId, verb, ticks, sent, from, failed);
    }

    /** The request is sent, with an id of its own. */
    method Begin(verb: seq<byte>, ticks: nat) returns (stopped: Option<Cause>)
      requires Valid()
      modifies `inOpen, `nextId, `interrupted, `given, `whole, `failed
      ensures Valid() && nextId == old(nextId) + 1 && old(given) <= given && (!old(inOpen) ==> given == old(given))
      ensures stopped.Some? ==> whole == old(whole)
      ensures stopped.None? ==> failed == old(failed) && Served(old(whole), Request(nextId, verb), heard, failed)
      ensures (stopped == Some(Closed) <==> !old(inOpen)) && (stopped == Some(Interrupted) ==> interrupted)
    {
      ghost var sent := whole;
      nextId := nextId + 1;
      FreshWithout(whole, nextId - 1, Request(nextId, verb));
      hide FreshIds, Framed, Served;
      stopped := SendLine(Request(nextId, verb), ticks);
      if stopped.None? { FirstServed(sent, Request(nextId, verb)); }
    }

    lemma FirstServed(sent: seq<Out>, request: Out)
      requires whole == sent + [request]
      ensures Served(sent, request, heard, failed)
    {
      assert whole[..|sent| + 1] == whole && whole[|sent| + 1..] == [] && heard[|heard|..] == [];
    }

    /** The server is told to stop working on request `id`, if it can still be told. */
    method GiveUp(id: nat, ticks: nat)
      requires Valid()
      modifies `inOpen, `interrupted, `given, `whole, `failed
      ensures Valid() && old(given) <= given && (!old(inOpen) ==> given == old(given))
      ensures whole == old(whole) + [Cancel(id)] || (whole == old(whole) && failed > old(failed))
      ensures old(interrupted) ==> interrupted
    {
      FreshWithout(whole, nextId, Cancel(id));
      hide FreshIds, Framed;
      var why := SendLine(Cancel(id), ticks);
    }
  }

  function Encoded(encode: Encoder, messages: seq<Out>): seq<seq<byte>> {
    seq(|messages|, i requires 0 <= i < |messages| => encode(messages[i]))
  }

  lemma OneLineIsOne(l: seq<byte>)
    requires NL !in l
    ensures Stream.LinesOf(l + [NL]) == [l] && Stream.RestOf(l + [NL]) == [] && Stream.LinesOf(l) == []
  {
    var s := l + [NL];
    assert s[0..|l|] == l && l[0..|l|] == l && s[|l| + 1..] == [];
    Stream.NewlineUnique(s, 0, |l|);
    Stream.NewlineUnique(l, 0, |l|);
    assert s[..|l|] == l && Stream.LinesOf([]) == [];
  }

  lemma {:induction false} WireLines(encode: Encoder, messages: seq<Out>)
    requires OneLine(encode)
    ensures Stream.LinesOf(Wire(encode, messages)) == Encoded(encode, messages)
    ensures Stream.RestOf(Wire(encode, messages)) == []
  {
    if messages != [] {
      var most, last := messages[..|messages| - 1], messages[|messages| - 1];
      WireLines(encode, most);
      OneLineIsOne(encode(last));
      Stream.LinesOfMore(Wire(encode, most), Line(encode, last));
      assert [] + Line(encode, last) == Line(encode, last);
      assert Encoded(encode, messages) == Encoded(encode, most) + [encode(last)];
    }
  }

  /** Whatever was written, whole or in part, before or after a failure: the complete lines that a
      server has been given are the messages sent, no more and no less. */
  lemma ServerReadsMessages(s: Server)
    requires s.Valid()
    ensures Stream.LinesOf(s.given) == Encoded(s.encode, s.whole)
  {
    var encode, whole := s.encode, s.whole;
    WireLines(encode, whole);
    if s.given != Wire(encode, whole) {
      var o, k :| 0 < k < |Line(encode, o)| && s.given == Wire(encode, whole) + Line(encode, o)[..k];
      var part := Line(encode, o)[..k];
      assert part == encode(o)[..k];
      Stream.LinesOfMore(Wire(encode, whole), part);
      assert [] + part == part;
      OneLineIsOne(part);
    }
  }

  lemma {:induction false} AnswersSkip(parse: seq<byte> -> Option<Msg>, a: seq<seq<byte>>, b: seq<seq<byte>>)
    requires a <= b && forall i :: |a| <= i < |b| ==> parse(b[i]) == None
    ensures Answers(parse, b) == Answers(parse, a)
    decreases |b|
  {
    if |a| == |b| {
      assert a == b;
    } else {
      AnswersSkip(parse, a, b[..|b| - 1]);
      assert Answers(parse, b) == Answers(parse, b[..|b| - 1]) + [];
    }
  }

  /** What a message adds to the answers wanted; lines before it that do not parse add nothing. */
  lemma AnswersNext(parse: seq<byte> -> Option<Msg>, lines: seq<seq<byte>>, heard: seq<seq<byte>>, from: nat)
    requires lines < heard && from <= |lines|
    requires forall i :: |lines| <= i < |heard| - 1 ==> parse(heard[i]) == None
    requires parse(heard[|heard| - 1]).Some?
    ensures
      var m := parse(heard[|heard| - 1]).value;
      Answers(parse, heard[from..]) == Answers(parse, lines[from..]) + if WantsAnswer(m) then [AnswerTo(m)] else []
  {
    var all := heard[from..];
    AnswersSkip(parse, lines[from..], all[..|all| - 1]);
  }

  predicate IsResponse(m: Option<Msg>, id: nat) { m.Some? && m.value.verb.None? && m.value.id == NumId(id) }

  lemma FreshWithout(messages: seq<Out>, last: nat, o: Out)
    requires FreshIds(messages, last)
    ensures !o.Request? ==> FreshIds(messages + [o], last)
    ensures o.Request? && o.id == last + 1 ==> FreshIds(messages + [o], last + 1)
    ensures FreshIds(messages, last + 1)
  {
  }
}
