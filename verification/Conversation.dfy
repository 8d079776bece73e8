/** The tool loop: one user turn over the conversation, against any server, tools and interrupts. */
module Conversation {
  import opened Wrappers
  import opened Bytes

  type Text = seq<byte>

  /** `Other` is any other role, or none: the role of a reply is the server's own. */
  datatype Role = System | User | Assistant | Tool | Other

  /** A tool call as the server sends it: every field may be missing. */
  datatype Call = Call(id: Option<Text>, name: Option<Text>, args: Option<Text>)

  /** `callId` names the call that a tool message answers; `details` is signed reasoning. */
  datatype Message = Message(role: Role, content: Option<Text>, calls: seq<Call>, callId: Text, details: Option<Text>)

  /** What a response carries: no message, or one, and why it ended. */
  datatype Reply = Reply(role: Role, content: Option<Text>, calls: seq<Call>, details: Option<Text>)
  datatype Response = Response(message: Option<Reply>, finish: Text)

  const MAX_TOOL_CALLS: nat := 100
  const RETRIES: nat := 4
  const AT_LIMIT: Text := Ascii("skipped: the turn reached its tool call limit")
  const INTERRUPTED: Text := Ascii("skipped: interrupted by user")
  const BAD_ARGUMENTS: Text := Ascii("invalid JSON arguments for ")
  const NO_NAME: Text := Ascii("?")
  const NO_ARGUMENTS: Text := Ascii("{}")
  const ERROR: Text := Ascii("error: ")
  const GENERATED: Text := Ascii("myra_call_")
  const LENGTH: Text := Ascii("length")
  const CONTENT_FILTER: Text := Ascii("content_filter")
  const DROPPED: Text := Ascii("[output dropped to fit the context]")

  // ---- pairing ----

  /** `results` answer `calls`, one by one and in order. */
  predicate Answers(calls: seq<Call>, results: seq<Message>) {
    && |results| == |calls|
    && forall j :: 0 <= j < |calls| ==> ResultOfCall(calls[j], results[j])
  }

  predicate ResultOfCall(call: Call, m: Message) {
    m.role == Tool && call.id == Some(m.callId) && m.callId != [] && m.calls == []
  }

  /** Every message with calls is followed by exactly their results, and there are no others. */
  predicate Paired(ms: seq<Message>) {
    ms == [] || (
      var k := |ms[0].calls|;
      ms[0].role != Tool && k < |ms| && Answers(ms[0].calls, ms[1..k + 1]) && Paired(ms[k + 1..]))
  }

  lemma {:induction false} PairedConcat(a: seq<Message>, b: seq<Message>)
    requires Paired(a)
    ensures Paired(a + b) <==> Paired(b)
  {
    if a == [] {
      assert a + b == b;
    } else {
      hide *;
      PairedFirst(a);
      PairedFirst(a + b);
      BatchOfConcat(a, b, |a[0].calls|);
      PairedConcat(a[|a[0].calls| + 1..], b);
    }
  }

  lemma PairedFirst(ms: seq<Message>)
    requires ms != []
    ensures
      var k := |ms[0].calls|;
      Paired(ms) <==> ms[0].role != Tool && k < |ms| && Answers(ms[0].calls, ms[1..k + 1]) && Paired(ms[k + 1..])
  {
  }

  lemma BatchOfConcat(a: seq<Message>, b: seq<Message>, k: nat)
    requires k < |a|
    ensures (a + b)[0] == a[0] && (a + b)[1..k + 1] == a[1..k + 1] && (a + b)[k + 1..] == a[k + 1..] + b
  {
  }

  /** What no continuation can make paired: a tool message stands where an answered call cannot be. */
  predicate Stuck(ms: seq<Message>) { exists p :: 0 <= p < |ms| && StuckAt(ms, p) }

  predicate StuckAt(ms: seq<Message>, p: nat)
    requires p < |ms|
  {
    Paired(ms[..p]) && ms[p].role == Tool
  }

  lemma StuckIsUnpaired(ms: seq<Message>)
    requires Stuck(ms)
    ensures !Paired(ms)
  {
    var p :| 0 <= p < |ms| && StuckAt(ms, p);
    PairedConcat(ms[..p], ms[p..]);
    assert ms[..p] + ms[p..] == ms;
  }

  lemma StuckMore(ms: seq<Message>, more: seq<Message>)
    requires Stuck(ms)
    ensures Stuck(ms + more)
  {
    var p :| 0 <= p < |ms| && StuckAt(ms, p);
    assert (ms + more)[..p] == ms[..p];
    assert StuckAt(ms + more, p);
  }

  predicate SameRole(a: Message, b: Message) { a.role == b.role && a.calls == b.calls && a.callId == b.callId }

  /** The two conversations differ in contents and details only. */
  predicate SameShape(a: seq<Message>, b: seq<Message>) {
    && |a| == |b|
    && forall i :: 0 <= i < |a| ==> SameRole(a[i], b[i])
  }

  lemma {:induction false} PairedByShape(a: seq<Message>, b: seq<Message>)
    requires Paired(a) && SameShape(a, b)
    ensures Paired(b)
  {
    if a != [] {
      var k := |a[0].calls|;
      PairedByShape(a[k + 1..], b[k + 1..]);
      AnswersByShape(a[0].calls, a[1..k + 1], b[1..k + 1]);
    }
  }

  lemma AnswersByShape(calls: seq<Call>, a: seq<Message>, b: seq<Message>)
    requires SameShape(a, b) && Answers(calls, a)
    ensures Answers(calls, b)
  {
    assert forall j :: 0 <= j < |a| ==> SameRole(a[j], b[j]);
  }

  lemma StuckByShape(a: seq<Message>, b: seq<Message>)
    requires Stuck(a) && SameShape(a, b)
    ensures Stuck(b)
  {
    var p :| 0 <= p < |a| && StuckAt(a, p);
    PairedByShape(a[..p], b[..p]);
    assert SameRole(a[p], b[p]) && StuckAt(b, p);
  }

  // ---- dropping old tool output ----

  /** Where the trailing batch of tool results starts. */
  function LastBatch(ms: seq<Message>): (n: nat)
    ensures n <= |ms|
  {
    if ms != [] && ms[|ms| - 1].role == Tool then LastBatch(ms[..|ms| - 1]) else |ms|
  }

  predicate Droppable(m: Message) { m.role == Tool && m.content.Some? && m.content != Some(DROPPED) }

  function Blanked(m: Message): Message { if Droppable(m) then m.(content := Some(DROPPED)) else m }

  /** How many of the messages can be blanked. */
  function Droppables(ms: seq<Message>): nat {
    if ms == [] then 0 else Droppables(ms[..|ms| - 1]) + if Droppable(ms[|ms| - 1]) then 1 else 0
  }

  /** The tool outputs that a full context may still cost. */
  function Undropped(ms: seq<Message>): nat { Droppables(ms[..LastBatch(ms)]) }

  /** `b` is `a`, perhaps without its tool output, perhaps without its details. */
  predicate FadedFrom(a: Message, b: Message) {
    && SameRole(a, b)
    && (b.content == a.content || (a.role == Tool && b.content == Some(DROPPED)))
    && (b.details == a.details || b.details == None)
  }

  /** `b` is `a` after context-full drops. */
  predicate Faded(a: seq<Message>, b: seq<Message>) {
    |a| == |b| && forall i :: 0 <= i < |a| ==> FadedFrom(a[i], b[i])
  }

  lemma FadedShape(a: seq<Message>, b: seq<Message>)
    requires Faded(a, b)
    ensures SameShape(a, b)
  {
  }

  lemma FadedTwice(a: seq<Message>, b: seq<Message>, c: seq<Message>)
    requires Faded(a, b) && Faded(b, c)
    ensures Faded(a, c)
  {
    forall i | 0 <= i < |a| ensures FadedFrom(a[i], c[i]) {
      assert FadedFrom(a[i], b[i]) && FadedFrom(b[i], c[i]);
    }
  }

  lemma {:induction false} SameBatch(a: seq<Message>, b: seq<Message>)
    requires |a| == |b| && forall i :: 0 <= i < |a| ==> a[i].role == b[i].role
    ensures LastBatch(a) == LastBatch(b)
  {
    if a != [] { SameBatch(a[..|a| - 1], b[..|b| - 1]); }
  }

  // ---- what is stored of a reply ----

  /** The call with its own id, or with one made up from its place. */
  function Named(c: Call, i: nat): Call {
    if c.id.Some? && c.id.value != [] then c else c.(id := Some(GENERATED + Decimal(i)))
  }

  function NamedAll(calls: seq<Call>, n: nat): (r: seq<Call>)
    requires n <= |calls|
    ensures |r| == |calls|
  {
    seq(|calls|, i requires 0 <= i < |calls| => if i < n then Named(calls[i], i) else calls[i])
  }

  /** The calls that count: a reply cut off by length has none, as they may be cut too. */
  function CallsOf(r: Response): seq<Call>
    requires r.message.Some?
  {
    if r.finish == LENGTH then [] else r.message.value.calls
  }

  function ContentOf(r: Response): Option<Text>
    requires r.message.Some?
  {
    if CallsOf(r) == [] && r.message.value.content.None? then Some([]) else r.message.value.content
  }

  /** The reply as it comes into the conversation, before its calls are named. */
  function Entry(r: Response): Message
    requires r.message.Some?
  {
    Message(r.message.value.role, ContentOf(r), CallsOf(r), [], r.message.value.details)
  }

  predicate Refused(r: Response) { r.message.None? || r.finish == CONTENT_FILTER }

  /** Arguments as they are parsed: some servers send none, or nothing, for a tool without any. */
  function ArgsText(c: Call): Text { if c.args.Some? && c.args.value != [] then c.args.value else NO_ARGUMENTS }

  /** What became of a call: its tool ran, and gave a text or failed with one; or it was not run. */
  datatype Fate = Ran(out: Text, err: bool) | Interrupted | AtLimit | BadArguments

  /** A tool that ran, and for which call. */
  datatype Run = Run(call: Call, out: Text, err: bool)

  /** What the model is told of a call. */
  function ResultText(c: Call, f: Fate): Text {
    match f
    case Ran(out, err) => if err then ERROR + out else out
    case Interrupted => ERROR + INTERRUPTED
    case AtLimit => ERROR + AT_LIMIT
    case BadArguments => ERROR + (BAD_ARGUMENTS + if c.name.Some? then c.name.value else NO_NAME)
  }

  function ResultMessage(c: Call, f: Fate): Message {
    Message(Tool, Some(ResultText(c, f)), [], if c.id.Some? then c.id.value else [], None)
  }

  /** A response that was taken, and what became of its calls. */
  datatype Taken = Taken(response: Response, fates: seq<Fate>)

  predicate Complete(t: Taken) { t.response.message.Some? && |t.fates| == |CallsOf(t.response)| }

  function NamedCalls(r: Response): seq<Call>
    requires r.message.Some?
  {
    NamedAll(CallsOf(r), |CallsOf(r)|)
  }

  /** The message with its calls all named, and a result for each. */
  function Batch(t: Taken): seq<Message>
    requires Complete(t)
  {
    var calls := NamedCalls(t.response);
    [Entry(t.response).(calls := calls)]
    + seq(|calls|, i requires 0 <= i < |calls| => ResultMessage(calls[i], t.fates[i]))
  }

  lemma BatchAnswers(t: Taken)
    requires Complete(t)
    ensures
      var b := Batch(t);
      b != [] && b[0].calls == NamedCalls(t.response) && b[0].role == t.response.message.value.role && Answers(b[0].calls, b[1..])
  {
  }

  /** `after` is `before` with the message and the results. */
  predicate Took(before: seq<Message>, t: Taken, after: seq<Message>) { Complete(t) && after == before + Batch(t) }

  /** What a taken response leaves, field by field: a reply cut off by length loses its calls, content is
      absent only beside calls, a call without an id gets one, and the k-th result tells what became of
      the k-th call. */
  lemma TookReads(before: seq<Message>, t: Taken, after: seq<Message>, k: nat)
    requires Took(before, t, after)
    ensures
      var e, given := after[|before|], t.response.message.value;
      && before <= after && |after| == |before| + 1 + |e.calls|
      && e.role == given.role && e.details == given.details
      && |e.calls| == (if t.response.finish == Ascii("length") then 0 else |given.calls|)
      && e.content == (if |e.calls| == 0 && given.content.None? then Some([]) else given.content)
    ensures
      var e, given := after[|before|], t.response.message.value;
      k < |e.calls| ==>
        var c, m := e.calls[k], after[|before| + 1 + k];
        && c.name == given.calls[k].name && c.args == given.calls[k].args && c.id == Some(m.callId)
        && (given.calls[k].id.Some? && given.calls[k].id.value != [] ==> c.id == given.calls[k].id)
        && (given.calls[k].id.None? || given.calls[k].id.value == [] ==> c.id == Some(Ascii("myra_call_") + Decimal(k)))
        && m.role == Tool && m.calls == [] && m.content.Some? && Tells(m.content.value, c, t.fates[k])
  {
    assert after[|before|] == Batch(t)[0];
    if k < |CallsOf(t.response)| { assert after[|before| + 1 + k] == Batch(t)[1 + k]; }
    hide Decimal;
  }

  /** The text of a result: what the tool gave, after "error: " if it failed; or why it was not run. */
  predicate Tells(text: Text, c: Call, f: Fate) {
    && (f.Ran? && !f.err ==> text == f.out)
    && (f.Ran? && f.err ==> text == ERROR + f.out)
    && (f == Interrupted ==> text == ERROR + INTERRUPTED)
    && (f == AtLimit ==> text == ERROR + AT_LIMIT)
    && (f == BadArguments ==> text == ERROR + (BAD_ARGUMENTS + if c.name.Some? then c.name.value else NO_NAME))
  }

  // ---- replies over a turn ----

  /** `ms` is `start` and then all the `replies` with their results, in order; drops may have faded
      them since. */
  predicate Stored(start: seq<Message>, replies: seq<Taken>, ms: seq<Message>)
    decreases |replies|
  {
    if replies == [] then Faded(start, ms)
    else
      var t := replies[|replies| - 1];
      t.response.message.Some? &&
      var n := |ms| - 1 - |CallsOf(t.response)|;
      n >= 0 && Stored(start, replies[..|replies| - 1], ms[..n]) && FadedBatch(t, ms[n..])
  }

  predicate FadedBatch(t: Taken, batch: seq<Message>) { Complete(t) && Faded(Batch(t), batch) }

  /** No reply has taken the role of a tool result: the condition of pairing. */
  predicate NoneIsTool(replies: seq<Taken>) {
    forall i :: 0 <= i < |replies| ==>
      replies[i].response.message.Some? && replies[i].response.message.value.role != Tool
  }

  lemma {:induction false} StoredFades(start: seq<Message>, replies: seq<Taken>, a: seq<Message>, b: seq<Message>)
    requires Stored(start, replies, a) && Faded(a, b)
    ensures Stored(start, replies, b)
    decreases |replies|
  {
    if replies == [] {
      FadedTwice(start, a, b);
    } else {
      var t := replies[|replies| - 1];
      var n := |a| - 1 - |CallsOf(t.response)|;
      StoredFades(start, replies[..|replies| - 1], a[..n], b[..n]);
      FadedTwice(Batch(t), a[n..], b[n..]);
    }
  }

  lemma StoredMore(start: seq<Message>, replies: seq<Taken>, ms: seq<Message>, t: Taken, after: seq<Message>)
    requires Stored(start, replies, ms) && Took(ms, t, after)
    ensures Stored(start, replies + [t], after)
  {
    assert (replies + [t])[..|replies|] == replies && after[..|ms|] == ms && after[|ms|..] == Batch(t);
    assert |Batch(t)| == 1 + |CallsOf(t.response)| && Faded(Batch(t), Batch(t));
    hide Batch, Faded;
  }

  lemma TookKeeps(start: seq<Message>, before: seq<Message>, t: Taken, after: seq<Message>)
    requires Took(before, t, after)
    ensures start <= before ==> start <= after
  {
    hide Batch;
  }

  /** The last reply of a turn, with its results, and what stood before. */
  lemma StoredLast(start: seq<Message>, replies: seq<Taken>, ms: seq<Message>) returns (n: nat)
    requires replies != [] && Stored(start, replies, ms)
    ensures n < |ms| && Stored(start, replies[..|replies| - 1], ms[..n]) && FadedBatch(replies[|replies| - 1], ms[n..])
    ensures ms[..n] + ms[n..] == ms && replies[..|replies| - 1] + [replies[|replies| - 1]] == replies
  {
    n := |ms| - 1 - |CallsOf(replies[|replies| - 1].response)|;
    hide Batch, Faded;
  }

  lemma {:induction false} StoredKeeps(start: seq<Message>, replies: seq<Taken>, ms: seq<Message>)
    requires Stored(start, replies, ms)
    ensures |start| <= |ms| && Faded(start, ms[..|start|])
    decreases |replies|
  {
    if replies == [] {
      assert ms[..|start|] == ms;
    } else {
      var n := StoredLast(start, replies, ms);
      StoredKeeps(start, replies[..|replies| - 1], ms[..n]);
      assert ms[..n][..|start|] == ms[..|start|];
    }
  }

  /** A reply with its results keeps a paired conversation paired exactly when its role is not that
      of a tool result; otherwise nothing that follows can mend it. */
  lemma BatchPairs(ms: seq<Message>, t: Taken, batch: seq<Message>)
    requires Paired(ms) && FadedBatch(t, batch)
    ensures Paired(ms + batch) <==> t.response.message.value.role != Tool
    ensures t.response.message.value.role == Tool ==> Stuck(ms + batch)
  {
    BatchAnswers(t);
    var b := Batch(t);
    assert FadedFrom(b[0], batch[0]);
    FadedShape(b[1..], batch[1..]);
    AnswersByShape(b[0].calls, b[1..], batch[1..]);
    hide Batch, Answers;
    PairedConcat(ms, batch);
    PairedFirst(batch);
    var k := |batch[0].calls|;
    assert batch[1..k + 1] == batch[1..] && batch[k + 1..] == [];
    if t.response.message.value.role == Tool {
      assert (ms + batch)[..|ms|] == ms && (ms + batch)[|ms|] == batch[0];
      assert StuckAt(ms + batch, |ms|);
    }
  }

  /** The pairing law over a turn, against any server: the conversation is paired if and only if no
      reply came with the role of a tool result. */
  lemma {:induction false} StoredPairs(start: seq<Message>, replies: seq<Taken>, ms: seq<Message>)
    requires Paired(start) && Stored(start, replies, ms)
    ensures Paired(ms) <==> NoneIsTool(replies)
    ensures Paired(ms) || Stuck(ms)
    decreases |replies|
  {
    if replies == [] {
      FadedShape(start, ms);
      PairedByShape(start, ms);
    } else {
      hide *;
      var n := StoredLast(start, replies, ms);
      var most, r := replies[..|replies| - 1], replies[|replies| - 1];
      StoredPairs(start, most, ms[..n]);
      NoneIsToolMore(most, r);
      if NoneIsTool(most) {
        BatchPairs(ms[..n], r, ms[n..]);
      } else {
        StuckMore(ms[..n], ms[n..]);
        StuckIsUnpaired(ms);
      }
    }
  }

  lemma NoneIsToolMore(replies: seq<Taken>, t: Taken)
    ensures NoneIsTool(replies + [t]) <==>
      NoneIsTool(replies) && t.response.message.Some? && t.response.message.value.role != Tool
  {
    var more := replies + [t];
    assert more[|replies|] == t && forall i :: 0 <= i < |replies| ==> more[i] == replies[i];
  }

  lemma {:induction false} StoredStuck(start: seq<Message>, replies: seq<Taken>, ms: seq<Message>)
    requires Stuck(start) && Stored(start, replies, ms)
    ensures Stuck(ms)
    decreases |replies|
  {
    if replies == [] {
      FadedShape(start, ms);
      StuckByShape(start, ms);
    } else {
      hide *;
      var n := StoredLast(start, replies, ms);
      StoredStuck(start, replies[..|replies| - 1], ms[..n]);
      StuckMore(ms[..n], ms[n..]);
    }
  }

  /** The same of one reply. */
  lemma TookPairs(before: seq<Message>, t: Taken, after: seq<Message>)
    requires Paired(before) && Took(before, t, after)
    ensures Paired(after) <==> t.response.message.value.role != Tool
  {
    assert Faded(Batch(t), Batch(t));
    BatchPairs(before, t, Batch(t));
  }

  /** A server can break pairing: its reply with the role of a tool result answers no call, and a
      drop would then spare it as part of the last batch. */
  lemma ReplyAsToolResult(system: Message, user: Message, t: Taken, after: seq<Message>)
    requires system.role == System && user.role == User && system.calls == [] && user.calls == []
    requires t == Taken(Response(Some(Reply(Tool, Some([]), [], None)), []), [])
    requires Took([system, user], t, after)
    ensures Paired([system, user]) && !Paired(after) && LastBatch(after) == 2
  {
    var before := [system, user];
    assert before[1..1] == [] && before[1..] == [user] && [user][1..1] == [] && [user][1..] == [];
    TookPairs(before, t, after);
    assert |LENGTH| == 6;
    assert |Batch(t)| == 1 && after[2] == Batch(t)[0] && after[2].role == Tool;
    assert after[..|after| - 1] == before;
  }

  // ---- one model request ----

  datatype Curl = Fine | Aborted | CannotConnect | Broken

  /** One HTTP attempt: how the transfer and the stream ended, and what they carried. */
  datatype Attempt = Attempt(rc: Curl, status: int, events: bool, finish: bool, done: bool, error: bool, printed: bool,
    oversize: bool, contextWords: bool, rebuilt: Response, parsed: Option<Response>)

  /** A streamed reply is always an assistant's: a role among its fields is passed over. */
  function Streamed(r: Response): Response {
    if r.message.Some? then r.(message := Some(r.message.value.(role := Assistant))) else r
  }

  /** Events came, but neither a reason to end nor the end mark. */
  predicate CutOff(t: Attempt) { t.events && !t.finish && !t.done }

  predicate Succeeded(t: Attempt) { t.rc == Fine && t.status == 200 && !t.error && !CutOff(t) }

  function ResultOf(t: Attempt): Option<Response> { if t.events then Some(Streamed(t.rebuilt)) else t.parsed }

  /** A retry would meet the same end. */
  predicate Final(t: Attempt) { t.oversize || t.rc == Aborted || t.rc == CannotConnect }

  predicate ContextError(t: Attempt) { !Succeeded(t) && !Final(t) && (t.status == 400 || t.error) && t.contextWords }

  predicate Retryable(t: Attempt) {
    && !Succeeded(t) && !Final(t) && !t.printed && !ContextError(t)
    && (t.rc != Fine || t.status == 429 || t.status >= 500 || t.error || CutOff(t))
  }

  /** A model request: the conversation that was sent, the replies its turn had taken by then, what it
      gave, and whether it failed because the context was full. */
  datatype Sent = Sent(messages: seq<Message>, after: seq<Taken>, gave: Option<Response>, full: bool)

  /** Which failures are tried again: an overloaded or failing server, a broken or cut off transfer and an
      error among the events; but not with text on screen, not a full context, and nothing that a retry
      would meet again. */
  lemma WhatIsRetried(t: Attempt)
    ensures
      var full := t.contextWords && (t.status == 400 || t.error);
      var lasting := t.oversize || t.rc == Aborted || t.rc == CannotConnect;
      var passing := t.rc == Broken || t.status == 429 || t.status >= 500 || t.error || (t.events && !t.finish && !t.done);
      && (ContextError(t) <==> full && !lasting)
      && (Retryable(t) <==> passing && !t.printed && !lasting && !full)
  {
  }

  class Agent {
    const parses: Text -> bool            // whether arguments are a JSON object
    var messages: seq<Message>
    var turnCalls: nat
    var truncated: bool
    var interrupted: bool
    var contextFull: bool
    var streamed: bool
    ghost var tries: seq<Attempt>         // the attempts of the last model request
    ghost var last: Option<Response>      // what it gave
    ghost var sent: seq<Sent>             // all model requests
    ghost var replies: seq<Taken>         // those this turn has taken
    ghost var runs: seq<Run>              // tools run in this turn

    ghost predicate Valid()
      reads `messages
    {
      Sane(messages)
    }

    /** A signal, or the client's cancel, may come whenever the agent looks. */
    method Poll()
      modifies `interrupted
      ensures old(interrupted) ==> interrupted
    {
      if * { interrupted := true; }
    }

    /** Ask the server, and again if that can help. */
    method Request() returns (resp: Option<Response>)
      modifies `interrupted, `contextFull, `streamed, `tries
      ensures old(interrupted) ==> interrupted
      ensures |tries| <= 5
      ensures forall i :: 0 <= i < |tries| - 1 ==> Retryable(tries[i])
      ensures |tries| == 5 || interrupted || (tries != [] && !Retryable(tries[|tries| - 1]))
      ensures resp == if tries != [] && Succeeded(tries[|tries| - 1]) then ResultOf(tries[|tries| - 1]) else None
      ensures resp.Some? && tries[|tries| - 1].events && resp.value.message.Some? ==> resp.value.message.value.role == Assistant
      ensures contextFull == (tries != [] && ContextError(tries[|tries| - 1]))
      ensures streamed == (tries != [] && tries[|tries| - 1].printed)
    {
      resp := None;
      streamed, contextFull := false, false;
      tries := [];
      for attempt := 0 to RETRIES + 1
        invariant |tries| == attempt && resp == None && !contextFull && !streamed
        invariant old(interrupted) ==> interrupted
        invariant forall i :: 0 <= i < |tries| ==> Retryable(tries[i])
      {
        Poll();
        if interrupted { break; }
        var t: Attempt := *;
        Poll();
        tries := tries + [t];
        streamed := t.printed;
        if t.rc == Fine && t.status == 200 && !t.error && !CutOff(t) {
          resp := ResultOf(t);
          break;
        }
        if t.oversize || t.rc == Aborted || t.rc == CannotConnect { break; }
        contextFull := (t.status == 400 || t.error) && t.contextWords;
        var retryable := (t.rc != Fine || t.status == 429 || t.status >= 500 || t.error || CutOff(t))
          && !t.printed && !contextFull;
        if !retryable { break; }
      }
    }

    /** Run the tool that a call names: any result, and an interrupt may come meanwhile. */
    method RunTool(call: Call) returns (out: Text, err: bool)
      modifies `interrupted, `runs
      ensures (old(interrupted) ==> interrupted) && runs == old(runs) + [Run(call, out, err)]
    {
      Poll();
      out, err := *, *;
      runs := runs + [Run(call, out, err)];
    }

    /** One call gets one result that names it. Its tool runs, unless the turn is interrupted or at its
        limit or the arguments do not parse, and the result is what the tool gave; else it says why the
        tool did not run. */
    method Answer(call: Call, i: int, budget: int) returns (m: Message, skip: bool, ghost fate: Fate)
      requires call.id.Some? && call.id.value != []
      modifies `interrupted, `runs
      ensures old(interrupted) ==> interrupted
      ensures m == ResultMessage(call, fate) && ResultOfCall(call, m)
      ensures runs == old(runs) + if fate.Ran? then [Run(call, fate.out, fate.err)] else []
      ensures fate.Ran? ==> m.content == Some(if fate.err then ERROR + fate.out else fate.out)
      ensures fate.Ran? ==> !old(interrupted) && i < budget && parses(ArgsText(call))
      ensures ArgsText(call) == if call.args.None? || call.args.value == [] then Ascii("{}") else call.args.value
      ensures fate == Interrupted ==> interrupted
      ensures (fate == AtLimit <==> skip) && (skip ==> i >= budget)
      ensures fate == BadArguments ==> i < budget && !parses(ArgsText(call))
    {
      Poll();
      var out, err := [], true;
      skip := false;
      if interrupted {
        out := INTERRUPTED;
        fate := Interrupted;
      } else if i >= budget {
        skip := true;
        out := AT_LIMIT;
        fate := AtLimit;
      } else if parses(ArgsText(call)) {
        out, err := RunTool(call);
        fate := Ran(out, err);
      } else {
        out := BAD_ARGUMENTS + if call.name.Some? then call.name.value else NO_NAME;
        fate := BadArguments;
      }
      m := Message(Tool, Some(if err then ERROR + out else out), [], call.id.value, None);
    }

    /** Call `i` of the message at `at` is named, and its result follows. */
    method TakeCall(at: nat, i: nat, budget: int, ghost was: seq<Message>, ghost reply: Message, ghost fates: seq<Fate>)
      returns (skip: bool, ghost fate: Fate)
      requires i < |reply.calls| && at == |was| && Answered(messages, was, reply, i, fates)
      modifies `messages, `interrupted, `runs
      ensures Answered(messages, was, reply, i + 1, fates + [fate])
      ensures old(interrupted) ==> interrupted
      ensures runs == old(runs) + if fate.Ran? then [Run(Named(reply.calls[i], i), fate.out, fate.err)] else []
      ensures Fits(fate, reply.calls[i], i, budget, old(interrupted), interrupted) && (fate == AtLimit <==> skip)
    {
      StillToName(messages, was, reply, i, fates);
      hide Answered;
      var call := messages[at].calls[i];
      if call.id.None? || call.id.value == [] { call := call.(id := Some(GENERATED + Decimal(i))); }
      assert call == Named(reply.calls[i], i);
      ghost var before := messages;
      messages := messages[at := messages[at].(calls := messages[at].calls[i := call])];
      var m;
      m, skip, fate := Answer(call, i, budget);
      AnsweredMore(before, was, reply, i, fates, fate);
      hide Answered, Named, ResultMessage;
      messages := messages + [m];
    }

    /** What becomes of call `i` when there is room for `budget` of them: it runs unless the turn is
        interrupted, the room is used up, or its arguments do not parse. */
    predicate Fits(f: Fate, c: Call, i: nat, budget: int, before: bool, after: bool) {
      && (f.Ran? ==> !before && i < budget && parses(ArgsText(c)))
      && (f == Interrupted ==> after)
      && (f == AtLimit ==> i >= budget)
      && (f == BadArguments ==> i < budget && !parses(ArgsText(c)))
    }

    /** Take a response: -1 refused, 0 done, 1 tools ran. Whatever its role, its message is stored with
        its calls named, and after it a result for each; of a turn's calls the first 100 run. */
    method Step(resp: Response) returns (rc: int)
      modifies `messages, `interrupted, `runs, `turnCalls, `truncated, `replies
      ensures old(interrupted) ==> interrupted
      ensures rc == -1 <==> resp.message.None? || resp.finish == Ascii("content_filter")
      ensures rc == -1 <==> Refused(resp)
      ensures rc == -1 ==> messages == old(messages) && turnCalls == old(turnCalls) && runs == old(runs) && replies == old(replies)
      ensures rc == -1 ==> truncated == old(truncated)
      ensures rc != -1 && old(turnCalls) <= MAX_TOOL_CALLS ==>
        (truncated <==> old(truncated) || resp.finish == Ascii("length") || (!interrupted && turnCalls > 100))
      ensures rc != -1 ==> (rc == 0 || rc == 1) && turnCalls == old(turnCalls) + |CallsOf(resp)|
      ensures rc != -1 ==> |replies| == |old(replies)| + 1 && old(replies) <= replies && replies[|replies| - 1].response == resp
      ensures rc != -1 ==>
        var t := replies[|replies| - 1];
        && Took(old(messages), t, messages) && runs == old(runs) + RunsOf(NamedCalls(resp), t.fates)
        && AllFit(t.fates, CallsOf(resp), 100 - old(turnCalls), old(interrupted), interrupted)
      ensures rc == 1 ==> CallsOf(resp) != [] && !interrupted && (old(turnCalls) <= MAX_TOOL_CALLS ==> turnCalls <= MAX_TOOL_CALLS)
      ensures rc == 0 ==> CallsOf(resp) == [] || interrupted || turnCalls > MAX_TOOL_CALLS
      ensures |old(runs)| <= |runs| <= |old(runs)| + (turnCalls - old(turnCalls))
      ensures old(turnCalls) <= MAX_TOOL_CALLS ==> |runs| <= |old(runs)| + MAX_TOOL_CALLS - old(turnCalls)
    {
      hide Took, NamedAll, RunsOf, AllFit, Batch;
      if resp.message.None? || resp.finish == CONTENT_FILTER { return -1; }
      if resp.finish == LENGTH { truncated := true; }
      var n, skipped := Store(resp);
      if interrupted { return 0; }
      if skipped > 0 {
        truncated := true;
        return 0;
      }
      return if n > 0 then 1 else 0;
    }

    /** The message and the results of its `n` calls are stored; `skipped` of them are beyond the limit. */
    method Store(resp: Response) returns (n: nat, skipped: nat)
      requires resp.message.Some?
      modifies `messages, `interrupted, `runs, `turnCalls, `replies
      ensures (old(interrupted) ==> interrupted) && n == |CallsOf(resp)| && turnCalls == old(turnCalls) + n
      ensures |replies| == |old(replies)| + 1 && old(replies) <= replies && replies[|replies| - 1].response == resp
      ensures
        var t := replies[|replies| - 1];
        && Took(old(messages), t, messages) && runs == old(runs) + RunsOf(NamedCalls(resp), t.fates)
        && AllFit(t.fates, CallsOf(resp), 100 - old(turnCalls), old(interrupted), interrupted)
      ensures |old(runs)| <= |runs| <= |old(runs)| + n
      ensures old(turnCalls) <= MAX_TOOL_CALLS ==> |runs| <= |old(runs)| + MAX_TOOL_CALLS - old(turnCalls)
      ensures skipped == 0 && !interrupted && old(turnCalls) <= MAX_TOOL_CALLS ==> turnCalls <= MAX_TOOL_CALLS
      ensures skipped > 0 ==> turnCalls > MAX_TOOL_CALLS
    {
      hide Answered, Took, NamedAll, RunsOf, AllFit, Batch;
      var r := resp.message.value;
      var calls := if resp.finish == LENGTH then [] else r.calls;
      n := |calls|;
      var content := if n == 0 && r.content.None? then Some([]) else r.content;
      ghost var was := messages;
      var at := |messages|;
      var reply := Message(r.role, content, calls, [], r.details);
      messages := messages + [reply];
      var budget := MAX_TOOL_CALLS - turnCalls;
      turnCalls := turnCalls + n;
      NoneAnswered(was, reply);
      ghost var fates;
      skipped, fates := AnswerAll(at, n, budget, was, reply);
      AnsweredIsTook(messages, was, Taken(resp, fates));
      RunsFit(fates, calls, NamedCalls(resp), budget, old(interrupted), interrupted);
      replies := replies + [Taken(resp, fates)];
    }

    method AnswerAll(at: nat, n: nat, budget: int, ghost was: seq<Message>, ghost reply: Message)
      returns (skipped: nat, ghost fates: seq<Fate>)
      requires n == |reply.calls| && at == |was| && Answered(messages, was, reply, 0, [])
      modifies `messages, `interrupted, `runs
      ensures Answered(messages, was, reply, n, fates) && (old(interrupted) ==> interrupted)
      ensures |fates| == n && runs == old(runs) + RunsOf(NamedAll(reply.calls, n), fates)
      ensures AllFit(fates, reply.calls, budget, old(interrupted), interrupted)
      ensures skipped == 0 && !interrupted && budget >= 0 ==> n <= budget
      ensures skipped > 0 ==> n > budget
    {
      ghost var named := NamedAll(reply.calls, n);
      assert |named| == n;
      NoRuns(reply.calls);
      hide Answered, NamedAll, RunsOf, AllFit;
      skipped, fates := 0, [];
      NoneFit(reply.calls, budget, old(interrupted), interrupted);
      for i := 0 to n
        invariant Answered(messages, was, reply, i, fates) && |fates| == i
        invariant (old(interrupted) ==> interrupted) && runs == old(runs) + RunsOf(named[..i], fates)
        invariant AllFit(fates, reply.calls, budget, old(interrupted), interrupted)
        invariant skipped == 0 && !interrupted && budget >= 0 ==> i <= budget
        invariant skipped > 0 ==> n > budget
      {
        var skip;
        ghost var fate, before := Interrupted, interrupted;
        skip, fate := TakeCall(at, i, budget, was, reply, fates);
        RunsMore(named, i, fates, fate, old(runs));
        NamedAt(reply.calls, i);
        AllFitMore(fates, reply.calls, budget, old(interrupted), before, interrupted, fate);
        fates := fates + [fate];
        if skip { skipped := skipped + 1; }
      }
      assert named[..n] == named;
    }

    /** Each fate is what the rules say. */
    predicate AllFit(fates: seq<Fate>, calls: seq<Call>, budget: int, before: bool, after: bool) {
      |fates| <= |calls| && forall j :: 0 <= j < |fates| ==> Fits(fates[j], calls[j], j, budget, before, after)
    }

    lemma NoneFit(calls: seq<Call>, budget: int, before: bool, after: bool)
      ensures AllFit([], calls, budget, before, after)
    {
    }

    lemma AllFitMore(fates: seq<Fate>, calls: seq<Call>, budget: int, start: bool, before: bool, after: bool, f: Fate)
      requires AllFit(fates, calls, budget, start, before) && |fates| < |calls| && (start ==> before) && (before ==> after)
      requires Fits(f, calls[|fates|], |fates|, budget, before, after)
      ensures AllFit(fates + [f], calls, budget, start, after)
    {
    }

    /** No more tools run than calls have room. */
    lemma {:induction false} RunsFit(fates: seq<Fate>, calls: seq<Call>, named: seq<Call>, budget: int, before: bool, after: bool)
      requires AllFit(fates, calls, budget, before, after) && |named| == |fates|
      ensures |RunsOf(named, fates)| <= |fates| && (budget >= 0 ==> |RunsOf(named, fates)| <= budget)
      decreases |fates|
    {
      if fates != [] {
        var n := |fates| - 1;
        RunsFit(fates[..n], calls, named[..n], budget, before, after);
        if fates[n].Ran? { RunsFew(fates[..n], named[..n]); }
      }
    }

    /** Exactly the tool outputs before the last batch go, and signed reasoning with them; `count`
        is how many went. */
    method DropOldToolOutput() returns (count: nat)
      modifies `messages
      ensures count == Undropped(old(messages)) && messages == Dropped(old(messages))
    {
      var n := FindBatch();
      count := BlankUpTo(n);
      hide BlankedTo, Droppables, LastBatch;
      if count > 0 { ClearDetails(); }
    }

    method FindBatch() returns (n: nat)
      ensures n == LastBatch(messages)
    {
      n := |messages|;
      assert messages[..n] == messages;
      while n > 0 && messages[n - 1].role == Tool
        invariant n <= |messages| && LastBatch(messages[..n]) == LastBatch(messages)
      {
        assert messages[..n][..n - 1] == messages[..n - 1];
        n := n - 1;
      }
    }

    method BlankUpTo(n: nat) returns (count: nat)
      requires n <= |messages|
      modifies `messages
      ensures messages == BlankedTo(old(messages), n) && count == Droppables(old(messages)[..n])
    {
      ghost var was := messages;
      count := 0;
      for i := 0 to n
        invariant messages == BlankedTo(was, i) && count == Droppables(was[..i])
      {
        assert was[..i + 1][..i] == was[..i];
        var m := messages[i];
        if m.role != Tool || m.content.None? || m.content == Some(DROPPED) { continue; }
        messages := messages[i := m.(content := Some(DROPPED))];
        count := count + 1;
      }
    }

    method ClearDetails()
      modifies `messages
      ensures messages == seq(|old(messages)|, i requires 0 <= i < |old(messages)| => old(messages)[i].(details := None))
    {
      var n := |messages|;
      for i := 0 to n
        invariant |messages| == n
        invariant forall j :: 0 <= j < n ==>
          messages[j] == if j < i then old(messages)[j].(details := None) else old(messages)[j]
      {
        messages := messages[i := messages[i].(details := None)];
      }
    }

    constructor (parses: Text -> bool, prompt: Text)
      ensures Valid() && Paired(messages) && messages == [Message(System, Some(prompt), [], [], None)]
    {
      this.parses := parses;
      messages := [Message(System, Some(prompt), [], [], None)];
      turnCalls, truncated, interrupted, contextFull, streamed := 0, false, false, false, false;
      tries, last, sent, replies, runs := [], None, [], [], [];
    }

    /** Only the text of the system prompt changes. */
    method SetCwd(prompt: Text)
      requires Valid()
      modifies `messages
      ensures Valid() && (Paired(messages) <==> Paired(old(messages)))
      ensures messages == old(messages)[0 := old(messages)[0].(content := Some(prompt))]
    {
      messages := messages[0 := messages[0].(content := Some(prompt))];
      SameShapePairs(old(messages), messages);
    }

    /** Only the system prompt is left, and pairing is restored whatever was there. */
    method Clear()
      requires Valid()
      modifies `messages
      ensures Valid() && Paired(messages) && messages == [old(messages)[0]]
    {
      while |messages| > 1
        invariant messages != [] && messages[0] == old(messages)[0]
      {
        messages := messages[..|messages| - 1];
      }
      assert messages[1..] == [];
    }

    /** One model request with the conversation as it stands. */
    method CallApi() returns (resp: Option<Response>)
      modifies `interrupted, `contextFull, `streamed, `tries, `last, `sent
      ensures sent == old(sent) + [Sent(messages, replies, resp, contextFull)] && last == resp
      ensures old(interrupted) ==> interrupted
      ensures resp.Some? ==> !contextFull
    {
      resp := Request();
      last := resp;
      sent := sent + [Sent(messages, replies, resp, contextFull)];
    }

    /** What request `s` gave has been taken: its message and its results are stored, and each of its calls
        ran or not as the rules say. */
    predicate LedTo(s: Sent, ms: seq<Message>, taken: seq<Taken>, stopped: bool) {
      && s.gave.Some? && !Refused(s.gave.value) && |taken| == |s.after| + 1 && s.after <= taken
      && var t := taken[|s.after|];
      && t.response == s.gave.value && Took(s.messages, t, ms)
      && AllFit(t.fates, CallsOf(t.response), 100 - CallCount(s.after), false, stopped)
    }

    /** After request `s` the turn goes on with `ms`: without older tool output if the context was full and
        there was any; or with a reply that called tools, and their results, while there is room for more. */
    predicate GoesOn(s: Sent, ms: seq<Message>, taken: seq<Taken>) {
      if s.gave.None? then s.full && Undropped(s.messages) > 0 && taken == s.after && ms == Dropped(s.messages)
      else LedTo(s, ms, taken, false) && CallsOf(s.gave.value) != [] && CallCount(taken) < 100
    }

    /** Request `s` ends the turn: it failed, with nothing left to drop if the context was full; or it was
        refused; or it gave a reply that called no tools, or the user stopped it, or 100 calls were made. */
    predicate Ends(s: Sent, rc: int, ms: seq<Message>, taken: seq<Taken>, stopped: bool) {
      if rc == -1 then taken == s.after && (if s.gave.None? then s.full ==> Undropped(s.messages) == 0 else Refused(s.gave.value))
      else LedTo(s, ms, taken, stopped) && (CallsOf(s.gave.value) == [] || stopped || CallCount(taken) >= 100)
    }

    /** The requests of a turn that began with `start`, each sent as the one before it left things. */
    predicate Course(start: seq<Message>, requests: seq<Sent>) {
      && (requests != [] ==> requests[0].messages == start && requests[0].after == [])
      && forall k :: 0 <= k < |requests| - 1 ==> GoesOn(requests[k], requests[k + 1].messages, requests[k + 1].after)
    }

    /** Where the turn stands after them. */
    predicate Stands(start: seq<Message>, requests: seq<Sent>, ms: seq<Message>, taken: seq<Taken>) {
      && Course(start, requests)
      && if requests == [] then ms == start && taken == [] else GoesOn(requests[|requests| - 1], ms, taken)
    }

    lemma NothingSent(start: seq<Message>)
      ensures Course(start, [])
    {
    }

    lemma CourseMore(start: seq<Message>, requests: seq<Sent>, s: Sent)
      requires Stands(start, requests, s.messages, s.after)
      ensures Course(start, requests + [s])
    {
      hide GoesOn;
      forall k | 0 <= k < |requests|
        ensures GoesOn((requests + [s])[k], (requests + [s])[k + 1].messages, (requests + [s])[k + 1].after)
      {
      }
    }

    /** Where a turn that began with `start` stands between two requests: `undropped` is the
        conversation before the first drop. */
    ghost predicate Turn(start: seq<Message>, undropped: Option<seq<Message>>, requests: nat)
      reads `messages, `turnCalls, `runs, `replies, `truncated
    {
      && (truncated <==> LengthHit(replies)) && Stored(start, replies, messages) && turnCalls == CallCount(replies) && runs == RunsIn(replies)
      && (if undropped.Some? then start <= undropped.value else start <= messages)
      && turnCalls < MAX_TOOL_CALLS && |runs| <= turnCalls && |replies| <= turnCalls
      && requests <= 2 * |replies| + (if Undropped(messages) == 0 then 1 else 0)
    }

    /** A drop keeps the turn going, unless nothing was left to drop. */
    method Recover(ghost start: seq<Message>, undropped: Option<seq<Message>>, ghost requests: nat)
      returns (saved: Option<seq<Message>>, count: nat)
      requires Turn(start, undropped, requests)
      modifies `messages
      ensures saved.Some? && start <= saved.value && count == Undropped(old(messages))
      ensures messages == Dropped(old(messages)) && (count == 0 ==> messages == old(messages))
      ensures count > 0 ==> Turn(start, saved, requests + 1) && Undropped(messages) < Undropped(old(messages))
    {
      saved := if undropped.None? then Some(messages) else undropped;
      DropLaw(messages);
      ghost var was := messages;
      hide Dropped, Undropped, LastBatch, Stored, Faded;
      count := DropOldToolOutput();
      StoredFades(start, replies, was, messages);
    }

    /** A reply that is not refused is stored. The turn goes on if tools ran and the call limit is
        not reached. */
    method Advance(resp: Response, ghost start: seq<Message>, undropped: Option<seq<Message>>, ghost requests: nat, ghost s: Sent)
      returns (rc: int)
      requires Turn(start, undropped, requests) && s == Sent(messages, replies, Some(resp), false)
      modifies `messages, `interrupted, `runs, `turnCalls, `truncated, `replies
      ensures -1 <= rc <= 1 && (rc == -1 <==> Refused(resp)) && Stored(start, replies, messages)
      ensures old(replies) <= replies && |replies| == |old(replies)| + (if rc == -1 then 0 else 1)
      ensures rc != -1 ==> replies[|replies| - 1].response == resp
      ensures |runs| <= MAX_TOOL_CALLS && |replies| <= MAX_TOOL_CALLS && requests <= 2 * |old(replies)| + 1
      ensures undropped.None? ==> start <= messages
      ensures rc == 1 && turnCalls < MAX_TOOL_CALLS ==>
        Turn(start, undropped, requests + 1) && turnCalls > old(turnCalls) && GoesOn(s, messages, replies)
      ensures turnCalls == CallCount(replies) && runs == RunsIn(replies)
      ensures truncated <==> LengthHit(replies) || (!interrupted && turnCalls > 100)
      ensures rc == 1 ==> !interrupted
      ensures rc != 1 && !interrupted ==> turnCalls == old(turnCalls) || turnCalls > 100
      ensures rc == -1 ==> turnCalls == old(turnCalls)
      ensures rc != 1 || turnCalls >= MAX_TOOL_CALLS ==> Ends(s, rc, messages, replies, interrupted)
      ensures old(interrupted) ==> interrupted
    {
      hide Stored, CallsOf, Undropped, Took, Refused, RunsOf, AllFit, CallCount, RunsIn, Complete, NamedCalls, LengthHit;
      ghost var was, before, already := messages, replies, interrupted;
      rc := Step(resp);
      if rc != -1 {
        ghost var t := replies[|replies| - 1];
        assert replies == before + [t];
        StoredMore(start, before, was, t, messages);
        TookKeeps(start, was, t, messages);
        CountMore(before, was, t, messages);
        LengthMore(before, t);
        FitAnyway(t.fates, CallsOf(resp), 100 - CallCount(before), already, interrupted);
      }
    }

    lemma FitAnyway(fates: seq<Fate>, calls: seq<Call>, budget: int, before: bool, after: bool)
      requires AllFit(fates, calls, budget, before, after)
      ensures AllFit(fates, calls, budget, false, after)
    {
      forall j | 0 <= j < |fates| ensures Fits(fates[j], calls[j], j, budget, false, after) {
        assert Fits(fates[j], calls[j], j, budget, before, after);
      }
    }

    /** Run one user turn. It fails exactly when its last request gave no response or a refused one,
        and then the conversation is as it was; else all replies follow the user's message, with
        their results. At every request and at the end the conversation is paired exactly when it
        was before and no reply came with the role of a tool result. */
    method Ask(text: Text) returns (rc: int)
      requires Valid()
      modifies this
      ensures Valid() && (rc == -1 || rc == 0) && (rc == -1 <==> last.None? || Refused(last.value))
      ensures rc == -1 ==> messages == old(messages)
      ensures rc == 0 ==> Stored(old(messages) + [UserMessage(text)], replies, messages)
      ensures rc == 0 ==> replies != [] && last == Some(replies[|replies| - 1].response)
      ensures Paired(messages) <==> Paired(old(messages)) && (rc == -1 || NoneIsTool(replies))
      ensures |runs| <= 100 && |replies| <= 100 && runs == RunsIn(replies)
      ensures truncated <==> LengthHit(replies) || (!interrupted && CallCount(replies) >= 100)
      ensures |old(sent)| < |sent| <= |old(sent)| + 200 && old(sent) <= sent
      ensures Course(old(messages) + [UserMessage(text)], sent[|old(sent)|..]) && Ends(sent[|sent| - 1], rc, messages, replies, interrupted)
      ensures forall k :: |old(sent)| <= k < |sent| ==> WellSent(old(messages), UserMessage(text), replies, sent[k])
    {
      hide Sane, Stored, Paired, NoneIsTool, Undropped, WellSent, Stuck, Refused, Course, LedTo, RunsIn, CallCount, CallsOf, LengthHit;
      var before := |messages|;
      ghost var was, user := messages, UserMessage(text);
      Start(text);
      var undropped: Option<seq<Message>>;
      undropped, rc := Converse(was + [user]);
      EachWellSent(was, user, replies, sent, |old(sent)|);
      EndOfTurn(was, user, replies, messages);
      if rc < 0 { Undo(before, undropped, was, user); }
    }

    method Start(text: Text)
      modifies `messages, `interrupted, `turnCalls, `truncated, `runs, `replies
      ensures messages == old(messages) + [UserMessage(text)] && Turn(messages, None, 0) && replies == []
    {
      interrupted := false;
      turnCalls, truncated, runs, replies := 0, false, [], [];
      messages := messages + [UserMessage(text)];
    }

    /** Back to the conversation that the turn began with. */
    method Undo(before: nat, undropped: Option<seq<Message>>, ghost was: seq<Message>, ghost user: Message)
      requires before == |was|
      requires if undropped.Some? then was + [user] <= undropped.value else was + [user] <= messages
      modifies `messages
      ensures messages == was
    {
      if undropped.Some? { messages := undropped.value; }
      assert (was + [user])[..before] == was;
      RollBack(before);
    }

    /** The turn itself: requests, replies and tools until the model stops asking for tools, the
        limit is reached, the user interrupts, or a request fails. */
    method Converse(ghost start: seq<Message>) returns (undropped: Option<seq<Message>>, rc: int)
      requires Turn(start, None, 0) && replies == [] && messages == start
      modifies `messages, `turnCalls, `truncated, `interrupted, `contextFull, `streamed, `tries, `last, `sent, `runs, `replies
      ensures (rc == -1 || rc == 0) && (rc == -1 <==> last.None? || Refused(last.value))
      ensures Stored(start, replies, messages)
      ensures rc == 0 ==> replies != [] && last == Some(replies[|replies| - 1].response)
      ensures if undropped.Some? then start <= undropped.value else start <= messages
      ensures |runs| <= MAX_TOOL_CALLS && |replies| <= MAX_TOOL_CALLS && runs == RunsIn(replies)
      ensures truncated <==> LengthHit(replies) || (!interrupted && CallCount(replies) >= 100)
      ensures |old(sent)| < |sent| <= |old(sent)| + 2 * MAX_TOOL_CALLS && old(sent) <= sent
      ensures Course(start, sent[|old(sent)|..]) && Ends(sent[|sent| - 1], rc, messages, replies, interrupted)
      ensures forall k :: |old(sent)| <= k < |sent| ==> Stored(start, sent[k].after, sent[k].messages) && sent[k].after <= replies
    {
      hide Stored, Undropped, Dropped, CallCount, RunsIn, LedTo, Refused, CallsOf, Course, LengthHit;
      undropped := None;
      assert sent[|old(sent)|..] == [];
      assert Course(start, []) by { NothingSent(start); }
      while true
        invariant old(sent) <= sent && Turn(start, undropped, |sent| - |old(sent)|)
        invariant Stands(start, sent[|old(sent)|..], messages, replies)
        invariant forall k :: |old(sent)| <= k < |sent| ==> Stored(start, sent[k].after, sent[k].messages) && sent[k].after <= replies
        decreases MAX_TOOL_CALLS - turnCalls, Undropped(messages)
      {
        ghost var requests := sent[|old(sent)|..];
        var resp := CallApi();
        ghost var s := sent[|sent| - 1];
        CourseMore(start, requests, s);
        assert sent[|old(sent)|..] == requests + [s];
        if resp.None? && contextFull {
          var n;
          undropped, n := Recover(start, undropped, |sent| - |old(sent)| - 1);
          if n > 0 { continue; }
        }
        if resp.None? { return undropped, -1; }
        rc := Advance(resp.value, start, undropped, |sent| - |old(sent)| - 1, s);
        if rc != 1 { return; }
        if turnCalls >= MAX_TOOL_CALLS {
          truncated := true;
          return undropped, 0;
        }
      }
    }

    /** Only the first `before` messages are left. */
    method RollBack(before: nat)
      requires before <= |messages|
      modifies `messages
      ensures messages == old(messages)[..before]
    {
      while |messages| > before
        invariant before <= |messages| <= |old(messages)| && messages == old(messages)[..|messages|]
      {
        messages := messages[..|messages| - 1];
      }
    }
  }

  /** The conversation starts with the system prompt; unless a reply has spoilt it for good, it is
      paired. */
  predicate Sane(ms: seq<Message>) {
    ms != [] && ms[0].role == System && ms[0].calls == [] && (Paired(ms) || Stuck(ms))
  }

  /** In `ms`, `reply` stands after `was` with its first `i` calls named, and their results follow, as
      the `fates` say. */
  predicate Answered(ms: seq<Message>, was: seq<Message>, reply: Message, i: nat, fates: seq<Fate>)
    requires i <= |reply.calls|
  {
    && |ms| == |was| + 1 + i && was <= ms && |fates| == i
    && ms[|was|] == reply.(calls := NamedAll(reply.calls, i))
    && forall j :: 0 <= j < i ==> ms[|was| + 1 + j] == ResultMessage(Named(reply.calls[j], j), fates[j])
  }

  lemma NoneAnswered(was: seq<Message>, reply: Message)
    ensures Answered(was + [reply], was, reply, 0, [])
  {
    assert NamedAll(reply.calls, 0) == reply.calls;
  }

  lemma StillToName(ms: seq<Message>, was: seq<Message>, reply: Message, i: nat, fates: seq<Fate>)
    requires i < |reply.calls| && Answered(ms, was, reply, i, fates)
    ensures |was| < |ms| && |ms[|was|].calls| == |reply.calls| && ms[|was|].calls[i] == reply.calls[i]
  {
  }

  /** The next call is named, and its result appended. */
  lemma AnsweredMore(ms: seq<Message>, was: seq<Message>, reply: Message, i: nat, fates: seq<Fate>, f: Fate)
    requires i < |reply.calls| && Answered(ms, was, reply, i, fates)
    ensures
      var at, c := |was|, Named(reply.calls[i], i);
      && at < |ms| && i < |ms[at].calls|
      && Answered(ms[at := ms[at].(calls := ms[at].calls[i := c])] + [ResultMessage(c, f)], was, reply, i + 1, fates + [f])
  {
    var at, c := |was|, Named(reply.calls[i], i);
    assert ms[at].calls[i := c] == NamedAll(reply.calls, i + 1);
    hide NamedAll, Named, ResultMessage;
  }

  lemma AnsweredIsTook(ms: seq<Message>, was: seq<Message>, t: Taken)
    requires t.response.message.Some? && Answered(ms, was, Entry(t.response), |CallsOf(t.response)|, t.fates)
    ensures Took(was, t, ms)
  {
    var batch := ms[|was|..];
    assert ms == was + batch;
    assert batch == Batch(t);
  }

  /** The tools that ran, in the order of their calls. */
  function RunsOf(calls: seq<Call>, fates: seq<Fate>): seq<Run>
    requires |calls| == |fates|
  {
    if calls == [] then []
    else
      var n := |calls| - 1;
      RunsOf(calls[..n], fates[..n]) + if fates[n].Ran? then [Run(calls[n], fates[n].out, fates[n].err)] else []
  }

  lemma RunsMore(calls: seq<Call>, i: nat, fates: seq<Fate>, f: Fate, before: seq<Run>)
    requires i < |calls| && |fates| == i
    ensures
      before + RunsOf(calls[..i + 1], fates + [f]) ==
      (before + RunsOf(calls[..i], fates)) + if f.Ran? then [Run(calls[i], f.out, f.err)] else []
  {
    assert calls[..i + 1][..i] == calls[..i] && (fates + [f])[..i] == fates;
    var run := if f.Ran? then [Run(calls[i], f.out, f.err)] else [];
    assert RunsOf(calls[..i + 1], fates + [f]) == RunsOf(calls[..i], fates) + run;
    hide RunsOf;
    Associate(before, RunsOf(calls[..i], fates), run);
  }

  lemma {:induction false} RunsFew(fates: seq<Fate>, calls: seq<Call>)
    requires |calls| == |fates|
    ensures |RunsOf(calls, fates)| <= |fates|
    decreases |fates|
  {
    if fates != [] { RunsFew(fates[..|fates| - 1], calls[..|fates| - 1]); }
  }

  lemma NamedAt(calls: seq<Call>, i: nat)
    requires i < |calls|
    ensures NamedAll(calls, |calls|)[i] == Named(calls[i], i)
  {
  }

  lemma NoRuns(calls: seq<Call>)
    ensures RunsOf(NamedAll(calls, |calls|)[..0], []) == []
  {
  }

  /** Every run is that of a call whose fate is its result, and there are as many as such calls. */
  lemma {:induction false} RunsRead(calls: seq<Call>, fates: seq<Fate>, k: nat)
    requires |calls| == |fates| && k < |calls| && fates[k].Ran?
    ensures
      var at := |RunsOf(calls[..k], fates[..k])|;
      at < |RunsOf(calls, fates)| && RunsOf(calls, fates)[at] == Run(calls[k], fates[k].out, fates[k].err)
    decreases |calls|
  {
    var n := |calls| - 1;
    if k < n {
      RunsRead(calls[..n], fates[..n], k);
      assert calls[..n][..k] == calls[..k] && fates[..n][..k] == fates[..k];
    }
  }

  /** How many calls the replies of a turn made. */
  function CallCount(replies: seq<Taken>): nat {
    if replies == [] then 0 else CallCount(replies[..|replies| - 1]) + |replies[|replies| - 1].fates|
  }

  /** The tools that ran in a turn: those of its calls whose fate it was, in order. */
  function RunsIn(replies: seq<Taken>): seq<Run> {
    if replies == [] then [] else
    var t := replies[|replies| - 1];
    RunsIn(replies[..|replies| - 1]) + if Complete(t) then RunsOf(NamedCalls(t.response), t.fates) else []
  }

  /** Whether some reply was cut off by length. */
  predicate LengthHit(replies: seq<Taken>) {
    exists i :: 0 <= i < |replies| && replies[i].response.finish == LENGTH
  }

  lemma LengthMore(before: seq<Taken>, t: Taken)
    ensures LengthHit(before + [t]) <==> LengthHit(before) || t.response.finish == Ascii("length")
  {
    assert (before + [t])[|before|] == t;
    assert forall i :: 0 <= i < |before| ==> (before + [t])[i] == before[i];
  }

  lemma CountMore(before: seq<Taken>, was: seq<Message>, t: Taken, ms: seq<Message>)
    requires Took(was, t, ms)
    ensures CallCount(before + [t]) == CallCount(before) + |CallsOf(t.response)|
    ensures RunsIn(before + [t]) == RunsIn(before) + RunsOf(NamedCalls(t.response), t.fates)
  {
    assert (before + [t])[..|before|] == before;
    hide RunsOf, Batch;
  }

  function UserMessage(text: Text): Message { Message(User, Some(text), [], [], None) }

  /** A request of a turn that `user` began after `was` and that has taken `replies` by now. */
  predicate WellSent(was: seq<Message>, user: Message, replies: seq<Taken>, s: Sent) {
    && s.after <= replies && Stored(was + [user], s.after, s.messages)
    && (Paired(s.messages) <==> Paired(was) && NoneIsTool(s.after))
  }

  lemma SameShapePairs(a: seq<Message>, b: seq<Message>)
    requires SameShape(a, b) && (Paired(a) || Stuck(a))
    ensures Paired(a) <==> Paired(b)
    ensures Paired(b) || Stuck(b)
  {
    if Paired(a) {
      PairedByShape(a, b);
    } else {
      StuckByShape(a, b);
      StuckIsUnpaired(b);
    }
  }

  lemma StartOfTurn(was: seq<Message>, user: Message)
    requires user.role == User && user.calls == []
    ensures Paired(was) ==> Paired(was + [user])
    ensures Stuck(was) ==> Stuck(was + [user])
  {
    if Paired(was) {
      PairedConcat(was, [user]);
      assert [user][1..1] == [] && [user][1..] == [];
    }
    if Stuck(was) { StuckMore(was, [user]); }
  }

  lemma EndOfTurn(was: seq<Message>, user: Message, replies: seq<Taken>, ms: seq<Message>)
    requires Sane(was) && user.role == User && user.calls == [] && Stored(was + [user], replies, ms)
    ensures Sane(ms) && (Paired(ms) <==> Paired(was) && NoneIsTool(replies))
  {
    StartOfTurn(was, user);
    StoredKeeps(was + [user], replies, ms);
    assert FadedFrom((was + [user])[0], ms[..|was| + 1][0]);
    hide Paired, Stuck, Stored, NoneIsTool;
    if Paired(was) {
      StoredPairs(was + [user], replies, ms);
    } else {
      StoredStuck(was + [user], replies, ms);
      StuckIsUnpaired(ms);
    }
  }

  lemma EachWellSent(was: seq<Message>, user: Message, replies: seq<Taken>, sent: seq<Sent>, from: nat)
    requires Sane(was) && user.role == User && user.calls == []
    requires forall k :: from <= k < |sent| ==> Stored(was + [user], sent[k].after, sent[k].messages) && sent[k].after <= replies
    ensures forall k :: from <= k < |sent| ==> WellSent(was, user, replies, sent[k])
  {
    hide Sane, Stored;
    forall k | from <= k < |sent| ensures WellSent(was, user, replies, sent[k]) {
      EndOfTurn(was, user, sent[k].after, sent[k].messages);
    }
  }

  /** The messages with the first `n` blanked as far as they can be. */
  function BlankedTo(ms: seq<Message>, n: nat): seq<Message> {
    seq(|ms|, i requires 0 <= i < |ms| => if i < n then Blanked(ms[i]) else ms[i])
  }

  /** The conversation after a context-full drop. */
  function Dropped(ms: seq<Message>): seq<Message> {
    var blank := BlankedTo(ms, LastBatch(ms));
    if Undropped(ms) == 0 then blank
    else seq(|ms|, i requires 0 <= i < |ms| => blank[i].(details := None))
  }

  lemma {:induction false} DroppablesNone(ms: seq<Message>)
    ensures Droppables(ms) == 0 <==> forall i :: 0 <= i < |ms| ==> !Droppable(ms[i])
  {
    if ms != [] {
      var most := ms[..|ms| - 1];
      DroppablesNone(most);
      assert forall i :: 0 <= i < |most| ==> most[i] == ms[i];
      assert Droppable(ms[|ms| - 1]) ==> !(forall i :: 0 <= i < |ms| ==> !Droppable(ms[i]));
    }
  }

  lemma {:induction false} BatchIsTools(ms: seq<Message>)
    ensures forall i :: LastBatch(ms) <= i < |ms| ==> ms[i].role == Tool
    ensures LastBatch(ms) > 0 ==> ms[LastBatch(ms) - 1].role != Tool
  {
    if ms != [] && ms[|ms| - 1].role == Tool { BatchIsTools(ms[..|ms| - 1]); }
  }

  lemma DropAt(ms: seq<Message>, i: nat)
    requires i < |ms|
    ensures |Dropped(ms)| == |ms| && FadedFrom(ms[i], Dropped(ms)[i])
    ensures if i < LastBatch(ms) then !Droppable(Dropped(ms)[i]) else Dropped(ms)[i].content == ms[i].content
  {
    hide LastBatch, Undropped;
  }

  lemma DropFades(ms: seq<Message>)
    ensures Faded(ms, Dropped(ms)) && SameShape(ms, Dropped(ms))
    ensures forall i :: LastBatch(ms) <= i < |ms| ==> Dropped(ms)[i].content == ms[i].content
    ensures forall i :: 0 <= i < LastBatch(ms) ==> !Droppable(Dropped(ms)[i])
  {
    assert |Dropped(ms)| == |ms|;
    forall i | 0 <= i < |ms| { DropAt(ms, i); }
    hide LastBatch, Dropped, Droppable;
  }

  lemma DropLeavesNone(ms: seq<Message>)
    ensures Undropped(Dropped(ms)) == 0
  {
    var last, d := LastBatch(ms), Dropped(ms);
    DropFades(ms);
    hide Dropped, LastBatch, Droppables;
    SameBatch(ms, d);
    assert forall i :: 0 <= i < last ==> d[..last][i] == d[i];
    DroppablesNone(d[..last]);
  }

  lemma NothingToDrop(ms: seq<Message>)
    requires Undropped(ms) == 0
    ensures Dropped(ms) == ms
  {
    var last := LastBatch(ms);
    var older := ms[..last];
    hide LastBatch, Droppables;
    DroppablesNone(older);
    assert forall i :: 0 <= i < last ==> older[i] == ms[i];
  }

  /** An output of a tool that some other message follows. */
  predicate OldOutput(ms: seq<Message>, i: nat) {
    i < |ms| && ms[i].role == Tool && ms[i].content.Some? && exists j :: i < j < |ms| && ms[j].role != Tool
  }

  lemma OldIsBefore(ms: seq<Message>, i: nat)
    requires i < |ms| && ms[i].role == Tool
    ensures i < LastBatch(ms) <==> exists j :: i < j < |ms| && ms[j].role != Tool
  {
    BatchIsTools(ms);
    hide LastBatch;
    if i < LastBatch(ms) { assert LastBatch(ms) - 1 > i; }
  }

  /** Every older output that there is gives way to the mark, and only that; and if one does that was not
      the mark already, all details go. */
  lemma DropReads(ms: seq<Message>, i: nat)
    requires i < |ms|
    ensures |Dropped(ms)| == |ms|
    ensures Dropped(ms)[i].content ==
      if OldOutput(ms, i) then Some(Ascii("[output dropped to fit the context]")) else ms[i].content
    ensures Dropped(ms)[i].details ==
      if exists k: nat :: OldOutput(ms, k) && ms[k].content != Some(DROPPED) then None else ms[i].details
  {
    var last := LastBatch(ms);
    var older := ms[..last];
    forall k: nat | k < |ms| && ms[k].role == Tool ensures k < last <==> exists j :: k < j < |ms| && ms[j].role != Tool {
      OldIsBefore(ms, k);
    }
    DroppablesNone(older);
    hide LastBatch, Droppables, Ascii;
    assert forall k :: 0 <= k < last ==> older[k] == ms[k];
    if k: nat :| OldOutput(ms, k) && ms[k].content != Some(DROPPED) { assert Droppable(older[k]); }
  }

  /** A drop blanks older tool outputs only, keeps the conversation's shape and the results the
      next reply needs, leaves nothing more to drop, and does nothing when there is nothing. */
  lemma DropLaw(ms: seq<Message>)
    ensures Faded(ms, Dropped(ms)) && Undropped(Dropped(ms)) == 0
    ensures forall i :: LastBatch(ms) <= i < |ms| ==> ms[i].role == Tool && Dropped(ms)[i].content == ms[i].content
    ensures Undropped(ms) == 0 ==> Dropped(ms) == ms
  {
    DropFades(ms);
    DropLeavesNone(ms);
    BatchIsTools(ms);
    hide Dropped, LastBatch, Faded, Undropped;
    if Undropped(ms) == 0 { NothingToDrop(ms); }
  }

  /** What a user sees of one request is printed by one attempt only, and no retry follows it. */
  lemma PrintedOnce(tries: seq<Attempt>, i: nat, j: nat)
    requires forall i :: 0 <= i < |tries| - 1 ==> Retryable(tries[i])
    requires i < |tries| && j < |tries| && tries[i].printed && tries[j].printed
    ensures i == j == |tries| - 1
  {
  }
}
