/** The ACP server: one thread that answers the client's requests while it may call the client. */
module Acp {
  import opened Wrappers
  import opened Bytes
  import opened JsonRpc
  import Stream

  type Text = seq<byte>

  /** What a message from the client has of what the server looks at: its id; its method (`Odd`
      if that is no string); the session it names; and, for a response, whether it carries an
      error, a content and the option chosen. */
  datatype Verb = NoVerb | Odd | Verb(name: Text)
  datatype Msg = Msg(id: Id, verb: Verb, session: Option<nat>, error: bool, content: Option<Text>, chosen: Option<Text>)

  datatype Status = Pending | InProgress | Completed | Failed

  datatype Outcome = Result | Cancelled | Error

  /** What the server sends: replies, replies to what it could not parse, calls to the client,
      reply text, and tool call updates. */
  datatype Out =
    | Reply(id: Id, outcome: Outcome)
    | ParseError
    | Call(call: nat)
    | Chunk
    | Update(session: nat, tool: nat, status: Status)

  const CANCEL: Text := Ascii("session/cancel")
  const NEW: Text := Ascii("session/new")
  const PROMPT: Text := Ascii("session/prompt")
  const ALLOW: Text := Ascii("allow")

  type Parser = Text -> Option<Msg>

  // ---- who is owed an answer ----

  /** What a message is owed: requests with an id an answer, all others nothing. */
  function OwedTo(m: Msg): seq<Id> {
    if m.verb != NoVerb && m.id != NoId && m.id != NullId then [m.id] else []
  }

  predicate IsCancel(m: Msg) { m.verb == Verb(CANCEL) }

  /** The ids that the lines of the client are owed answers to, in order of arrival. */
  function OwedFor(parse: Parser, lines: seq<Text>): seq<Id> {
    if lines == [] then [] else
    OwedFor(parse, lines[..|lines| - 1]) + Owes(parse(lines[|lines| - 1]))
  }

  /** What a line that reads as `m` adds: nothing for session/cancel, which is never answered. */
  function Owes(m: Option<Msg>): seq<Id> {
    if m.Some? && !IsCancel(m.value) then OwedTo(m.value) else []
  }

  /** The ids that messages still queued are owed. */
  function OwedIn(queue: seq<Msg>): seq<Id> {
    if queue == [] then [] else OwedIn(queue[..|queue| - 1]) + OwedTo(queue[|queue| - 1])
  }

  /** The ids of the answers sent, in order. */
  function Answered(sent: seq<Out>): seq<Id> {
    if sent == [] then [] else Answered(sent[..|sent| - 1]) + if sent[|sent| - 1].Reply? then [sent[|sent| - 1].id] else []
  }

  lemma OwedForMore(parse: Parser, lines: seq<Text>, l: Text)
    ensures OwedFor(parse, lines + [l]) == OwedFor(parse, lines) + Owes(parse(l))
  {
    assert (lines + [l])[..|lines|] == lines;
  }

  /** Line by line: a message with a method that is not session/cancel, and an id that is neither absent
      nor null, is owed an answer with that id; nothing else is owed any. */
  lemma OwedForLine(parse: Parser, l: Text)
    ensures
      var m := parse(l);
      OwedFor(parse, [l]) ==
        if m.Some? && m.value.verb != NoVerb && m.value.verb != Verb(Ascii("session/cancel")) && m.value.id != NoId && m.value.id != NullId
        then [m.value.id] else []
  {
    assert [l][..0] == [] && OwedFor(parse, []) == [];
  }

  lemma {:induction false} OwedForConcat(parse: Parser, a: seq<Text>, b: seq<Text>)
    ensures OwedFor(parse, a + b) == OwedFor(parse, a) + OwedFor(parse, b)
    decreases |b|
  {
    if b == [] {
      assert a + b == a;
    } else {
      assert (a + b)[..|a + b| - 1] == a + b[..|b| - 1];
      OwedForConcat(parse, a, b[..|b| - 1]);
    }
  }

  lemma {:induction false} OwedInConcat(a: seq<Msg>, b: seq<Msg>)
    ensures OwedIn(a + b) == OwedIn(a) + OwedIn(b)
    decreases |b|
  {
    if b == [] {
      assert a + b == a;
    } else {
      assert (a + b)[..|a + b| - 1] == a + b[..|b| - 1];
      OwedInConcat(a, b[..|b| - 1]);
    }
  }

  lemma OwedInRemove(queue: seq<Msg>, i: nat)
    requires i < |queue|
    ensures OwedIn(queue) == OwedIn(queue[..i]) + OwedTo(queue[i]) + OwedIn(queue[i + 1..])
    ensures OwedIn(queue[..i] + queue[i + 1..]) == OwedIn(queue[..i]) + OwedIn(queue[i + 1..])
  {
    hide *;
    Around(queue, i);
    OwedAround(queue[..i], queue[i], queue[i + 1..]);
  }

  lemma OwedAround(a: seq<Msg>, m: Msg, b: seq<Msg>)
    ensures OwedIn(a + [m] + b) == OwedIn(a) + OwedTo(m) + OwedIn(b) && OwedIn(a + b) == OwedIn(a) + OwedIn(b)
  {
    hide *;
    OwedInMore(a, m);
    OwedInConcat(a + [m], b);
    OwedInConcat(a, b);
  }

  lemma OwedInMore(queue: seq<Msg>, m: Msg)
    ensures OwedIn(queue + [m]) == OwedIn(queue) + OwedTo(m)
  {
    assert (queue + [m])[..|queue|] == queue;
  }

  lemma AnsweredMore(sent: seq<Out>, o: Out)
    ensures Answered(sent + [o]) == Answered(sent) + if o.Reply? then [o.id] else []
  {
    assert (sent + [o])[..|sent|] == sent;
  }

  // ---- what is to be handled ----

  /** All but responses is to be handled. */
  function Due(m: Msg): seq<Msg> { if IsResponse(m) then [] else [m] }

  /** The messages among the lines that are to be handled, in order of arrival; session/cancel has been
      by the time its line has been looked at. */
  function DueFor(parse: Parser, lines: seq<Text>): seq<Msg> {
    if lines == [] then [] else
    DueFor(parse, lines[..|lines| - 1]) + DueOf(parse(lines[|lines| - 1]))
  }

  function DueOf(m: Option<Msg>): seq<Msg> { if m.Some? && !IsCancel(m.value) then Due(m.value) else [] }

  function DueIn(queue: seq<Msg>): seq<Msg> {
    if queue == [] then [] else DueIn(queue[..|queue| - 1]) + Due(queue[|queue| - 1])
  }

  lemma {:induction false} DueInConcat(a: seq<Msg>, b: seq<Msg>)
    ensures DueIn(a + b) == DueIn(a) + DueIn(b)
    decreases |b|
  {
    if b == [] {
      assert a + b == a;
    } else {
      assert (a + b)[..|a + b| - 1] == a + b[..|b| - 1];
      DueInConcat(a, b[..|b| - 1]);
    }
  }

  lemma DueOfOne(m: Msg)
    ensures DueIn([m]) == Due(m)
  {
    assert [m][..0] == [] && [] + Due(m) == Due(m);
  }

  /** Line by line: a message with a method that is not session/cancel is to be handled. */
  lemma DueForLine(parse: Parser, l: Text)
    ensures
      var m := parse(l);
      DueFor(parse, [l]) == if m.Some? && m.value.verb != NoVerb && m.value.verb != Verb(Ascii("session/cancel")) then [m.value] else []
  {
    assert [l][..0] == [] && DueFor(parse, []) == [];
  }

  lemma {:induction false} DueForConcat(parse: Parser, a: seq<Text>, b: seq<Text>)
    ensures DueFor(parse, a + b) == DueFor(parse, a) + DueFor(parse, b)
    decreases |b|
  {
    if b == [] {
      assert a + b == a;
    } else {
      assert (a + b)[..|a + b| - 1] == a + b[..|b| - 1];
      DueForConcat(parse, a, b[..|b| - 1]);
    }
  }

  /** What is to be handled has been taken, or is in the queue. */
  ghost predicate Kept(parse: Parser, heard: seq<Text>, taken: seq<Msg>, queue: seq<Msg>) {
    DueFor(parse, heard) == taken + DueIn(queue)
  }

  lemma KeptMore(parse: Parser, heard: seq<Text>, l: Text, taken: seq<Msg>, queue: seq<Msg>, waiting: nat)
    requires Kept(parse, heard, taken, queue)
    ensures Kept(parse, heard + [l], taken, queue + TakenAs(parse(l), waiting))
  {
    var q := TakenAs(parse(l), waiting);
    assert DueFor(parse, heard + [l]) == DueFor(parse, heard) + DueOf(parse(l)) by { assert (heard + [l])[..|heard|] == heard; }
    assert DueIn(q) == DueOf(parse(l)) by {
      if |q| == 1 { DueOfOne(q[0]); }
    }
    hide DueFor, DueIn, TakenAs, DueOf;
    DueInConcat(queue, q);
    Associate(taken, DueIn(queue), DueIn(q));
  }

  /** The first message of the queue is taken; a response anywhere in it leaves it. */
  lemma KeptRemove(parse: Parser, heard: seq<Text>, taken: seq<Msg>, queue: seq<Msg>, i: nat)
    requires Kept(parse, heard, taken, queue) && i < |queue|
    ensures i == 0 ==> Kept(parse, heard, taken + Due(queue[i]), queue[..i] + queue[i + 1..])
    ensures Due(queue[i]) == [] ==> Kept(parse, heard, taken, queue[..i] + queue[i + 1..])
  {
    var a, m, b := queue[..i], queue[i], queue[i + 1..];
    Around(queue, i);
    DueAround(a, m, b);
    if i == 0 { assert DueIn(a) == []; }
    hide DueFor, DueIn, Due;
    Regrouped(taken, DueIn(a), Due(m), DueIn(b));
  }

  lemma DueAround(a: seq<Msg>, m: Msg, b: seq<Msg>)
    ensures DueIn(a + [m] + b) == DueIn(a) + Due(m) + DueIn(b) && DueIn(a + b) == DueIn(a) + DueIn(b)
  {
    hide *;
    DueInConcat(a + [m], b);
    DueInConcat(a, [m]);
    DueInConcat(a, b);
    DueOfOne(m);
  }

  lemma Regrouped(t: seq<Msg>, x: seq<Msg>, m: seq<Msg>, y: seq<Msg>)
    ensures x == [] ==> t + (x + m + y) == t + m + (x + y)
    ensures m == [] ==> x + m + y == x + y
  {
  }

  // ---- tool calls ----

  /** The statuses sent for a tool call of a session, in order. */
  function History(sent: seq<Out>, session: nat, tool: nat): seq<Status> {
    if sent == [] then [] else
    var o := sent[|sent| - 1];
    History(sent[..|sent| - 1], session, tool)
    + if o.Update? && o.session == session && o.tool == tool then [o.status] else []
  }

  predicate Reports(o: Out, session: nat, tool: nat) { o.Update? && o.session == session && o.tool == tool }

  lemma HistoryMore(sent: seq<Out>, o: Out)
    ensures forall s, t {:trigger History(sent + [o], s, t)} ::
      History(sent + [o], s, t) == (if Reports(o, s, t) then History(sent, s, t) + [o.status] else History(sent, s, t))
  {
    assert (sent + [o])[..|sent|] == sent;
  }

  predicate IsTerminal(s: Status) { s == Completed || s == Failed }

  /** A call that is over: it ran and then ended, or it was refused. */
  predicate IsOver(h: seq<Status>) {
    || (|h| == 2 && h[0] == InProgress && IsTerminal(h[1]))
    || (|h| == 3 && h[0] == Pending && h[1] == InProgress && IsTerminal(h[2]))
    || h == [Pending, Failed]
  }

  predicate IsRunning(h: seq<Status>) { h == [InProgress] || h == [Pending, InProgress] }

  predicate IsOpen(h: seq<Status>) { IsRunning(h) || h == [Pending] }

  /** What the client has been told of tool calls: the open one, if any, is not over; every other
      one announced is; none was announced twice. */
  ghost predicate Lives(sent: seq<Out>, session: nat, calls: nat, open: nat) {
    && open <= calls
    && forall s: nat, t: nat {:trigger History(sent, s, t)} ::
      if s == session && t == open && open > 0 then IsOpen(History(sent, s, t))
      else History(sent, s, t) == [] || (IsOver(History(sent, s, t)) && (s < session || (s == session && t <= calls)))
  }

  lemma LivesOther(sent: seq<Out>, session: nat, calls: nat, open: nat, o: Out)
    requires Lives(sent, session, calls, open) && !o.Update?
    ensures Lives(sent + [o], session, calls, open)
  {
    HistoryMore(sent, o);
    hide History;
  }

  lemma LivesAnnounce(sent: seq<Out>, session: nat, calls: nat, status: Status)
    requires Lives(sent, session, calls, 0) && (status == Pending || status == InProgress)
    ensures Lives(sent + [Update(session, calls + 1, status)], session, calls + 1, calls + 1)
    ensures History(sent + [Update(session, calls + 1, status)], session, calls + 1) == [status]
  {
    var o := Update(session, calls + 1, status);
    HistoryMore(sent, o);
    hide History;
    assert History(sent, session, calls + 1) == [];
    assert History(sent + [o], session, calls + 1) == [status];
  }

  lemma LivesUpdate(sent: seq<Out>, session: nat, calls: nat, open: nat, status: Status)
    requires Lives(sent, session, calls, open) && open > 0
    ensures
      var h := History(sent, session, open);
      History(sent + [Update(session, open, status)], session, open) == h + [status]
    ensures
      var h := History(sent, session, open);
      h == [Pending] && status == InProgress ==> Lives(sent + [Update(session, open, status)], session, calls, open)
    ensures
      var h := History(sent, session, open);
      (IsRunning(h) && IsTerminal(status)) || (h == [Pending] && status == Failed) ==>
        Lives(sent + [Update(session, open, status)], session, calls, 0)
  {
    HistoryMore(sent, Update(session, open, status));
    HistorySteps(History(sent, session, open), status);
    hide History, IsOver, IsOpen, IsRunning, IsTerminal;
  }

  lemma HistorySteps(h: seq<Status>, status: Status)
    ensures h == [Pending] && status == InProgress ==> IsOpen(h + [status])
    ensures (IsRunning(h) && IsTerminal(status)) || (h == [Pending] && status == Failed) ==> IsOver(h + [status])
  {
  }

  lemma LivesNewSession(sent: seq<Out>, session: nat, calls: nat)
    requires Lives(sent, session, calls, 0)
    ensures Lives(sent, session + 1, 0, 0)
  {
  }

  /** Ids of calls to the client only grow, up to `last`. */
  predicate FreshCalls(sent: seq<Out>, last: nat) {
    if sent == [] then true
    else
      var most, o := sent[..|sent| - 1], sent[|sent| - 1];
      if o.Call? then 0 < o.call <= last && FreshCalls(most, o.call - 1) else FreshCalls(most, last)
  }

  /** No id is used twice. */
  lemma {:induction false} CallsDiffer(sent: seq<Out>, last: nat, i: nat, j: nat)
    requires FreshCalls(sent, last) && i < j < |sent| && sent[i].Call? && sent[j].Call?
    ensures sent[i].call < sent[j].call <= last
  {
    var most, o := sent[..|sent| - 1], sent[|sent| - 1];
    var bound: nat := if o.Call? then o.call - 1 else last;
    if j < |sent| - 1 { CallsDiffer(most, bound, i, j); } else { CallBelow(most, bound, i); }
  }

  lemma {:induction false} CallBelow(sent: seq<Out>, last: nat, i: nat)
    requires FreshCalls(sent, last) && i < |sent| && sent[i].Call?
    ensures sent[i].call <= last
  {
    var most, o := sent[..|sent| - 1], sent[|sent| - 1];
    if i < |sent| - 1 { CallBelow(most, if o.Call? then o.call - 1 else last, i); }
  }

  lemma FreshMore(sent: seq<Out>, last: nat, o: Out)
    requires FreshCalls(sent, last)
    ensures !o.Call? ==> FreshCalls(sent + [o], last)
    ensures o == Call(last + 1) ==> FreshCalls(sent + [o], last + 1)
  {
    assert (sent + [o])[..|sent|] == sent;
  }

  predicate IsResponse(m: Msg) { m.verb == NoVerb }

  predicate Responds(m: Msg, id: nat) { IsResponse(m) && m.id == NumId(id) }

  /** Every request heard of has been answered, in order of arrival, or is owed an answer: first
      those in `serving`, then those in the queue. */
  ghost predicate Balanced(parse: Parser, heard: seq<Text>, sent: seq<Out>, serving: seq<Id>, queue: seq<Msg>) {
    OwedFor(parse, heard) == Answered(sent) + serving + OwedIn(queue)
  }

  /** Ids of calls are fresh, and the client's picture of tool calls is right: of the open one it
      has been told `live`. */
  ghost predicate Honest(sent: seq<Out>, last: nat, session: nat, calls: nat, open: nat, live: seq<Status>) {
    && FreshCalls(sent, last) && Lives(sent, session, calls, open)
    && (open > 0 ==> live == History(sent, session, open))
  }

  /** While a prompt runs, it is interrupted exactly when session/cancel has been heard since, or a
      signal has come. */
  predicate Heeded(parse: Parser, heard: seq<Text>, from: nat, prompting: bool, interrupted: bool, signalled: bool) {
    prompting ==> (interrupted <==> CancelIn(parse, heard, from) || signalled)
  }

  predicate CancelIn(parse: Parser, heard: seq<Text>, from: nat) {
    if |heard| <= from then false
    else
      var m := parse(heard[|heard| - 1]);
      (m.Some? && IsCancel(m.value)) || CancelIn(parse, heard[..|heard| - 1], from)
  }

  /** That is: some line since is session/cancel. */
  lemma {:induction false} CancelIsHeard(parse: Parser, heard: seq<Text>, from: nat)
    ensures CancelIn(parse, heard, from) <==>
      exists i :: from <= i < |heard| && parse(heard[i]).Some? && parse(heard[i]).value.verb == Verb(Ascii("session/cancel"))
    decreases |heard|
  {
    if |heard| > from {
      var most, n := heard[..|heard| - 1], |heard| - 1;
      CancelIsHeard(parse, most, from);
      assert forall i :: 0 <= i < n ==> most[i] == heard[i];
      if CancelIn(parse, most, from) {
        var i :| from <= i < |most| && parse(most[i]).Some? && parse(most[i]).value.verb == Verb(CANCEL);
        assert parse(heard[i]) == parse(most[i]);
      }
    }
  }

  lemma HeededMore(
    parse: Parser, heard: seq<Text>, l: Text, from: nat, prompting: bool, interrupted: bool, signalled: bool)
    requires Heeded(parse, heard, from, prompting, interrupted, signalled) && from <= |heard|
    ensures
      var m := parse(l);
      Heeded(parse, heard + [l], from, prompting, interrupted || (m.Some? && IsCancel(m.value) && prompting), signalled)
  {
    assert (heard + [l])[..|heard|] == heard;
  }

  lemma BalancedReply(parse: Parser, heard: seq<Text>, sent: seq<Out>, id: Id, o: Outcome, more: seq<Id>, queue: seq<Msg>)
    requires Balanced(parse, heard, sent, [id] + more, queue)
    ensures Balanced(parse, heard, sent + [Reply(id, o)], more, queue)
  {
    AnsweredMore(sent, Reply(id, o));
    hide Answered, OwedFor, OwedIn;
    Associate(Answered(sent), [id], more);
  }

  lemma BalancedOther(parse: Parser, heard: seq<Text>, sent: seq<Out>, o: Out, serving: seq<Id>, queue: seq<Msg>)
    requires Balanced(parse, heard, sent, serving, queue) && !o.Reply?
    ensures Balanced(parse, heard, sent + [o], serving, queue)
  {
    AnsweredMore(sent, o);
    hide Answered, OwedFor, OwedIn;
    assert Answered(sent) + [] == Answered(sent);
  }

  lemma HonestOther(sent: seq<Out>, last: nat, session: nat, calls: nat, open: nat, live: seq<Status>, o: Out)
    requires Honest(sent, last, session, calls, open, live) && !o.Update? && (o.Call? ==> o.call == last + 1)
    ensures Honest(sent + [o], if o.Call? then last + 1 else last, session, calls, open, live)
  {
    FreshMore(sent, last, o);
    LivesOther(sent, session, calls, open, o);
    HistoryMore(sent, o);
    hide FreshCalls, Lives, History;
  }

  lemma HonestAnnounce(sent: seq<Out>, last: nat, session: nat, calls: nat, live: seq<Status>, status: Status)
    requires Honest(sent, last, session, calls, 0, live) && (status == Pending || status == InProgress)
    ensures Honest(sent + [Update(session, calls + 1, status)], last, session, calls + 1, calls + 1, [status])
  {
    FreshMore(sent, last, Update(session, calls + 1, status));
    LivesAnnounce(sent, session, calls, status);
    hide FreshCalls, Lives, History;
  }

  lemma HonestUpdate(
    sent: seq<Out>, last: nat, session: nat, calls: nat, open: nat, live: seq<Status>, status: Status)
    requires Honest(sent, last, session, calls, open, live) && open > 0
    ensures
      live == [Pending] && status == InProgress ==>
        Honest(sent + [Update(session, open, status)], last, session, calls, open, live + [status])
    ensures
      (IsRunning(live) && IsTerminal(status)) || (live == [Pending] && status == Failed) ==>
        Honest(sent + [Update(session, open, status)], last, session, calls, 0, [])
  {
    FreshMore(sent, last, Update(session, open, status));
    LivesUpdate(sent, session, calls, open, status);
    hide FreshCalls, Lives, History;
  }

  lemma BalancedRemove(parse: Parser, heard: seq<Text>, sent: seq<Out>, serving: seq<Id>, queue: seq<Msg>, i: nat)
    requires Balanced(parse, heard, sent, serving, queue) && i < |queue| && (i == 0 || OwedTo(queue[i]) == [])
    ensures Balanced(parse, heard, sent, serving + OwedTo(queue[i]), queue[..i] + queue[i + 1..])
  {
    OwedInRemove(queue, i);
    if i == 0 { assert OwedIn(queue[..0]) == []; }
    hide OwedFor, Answered, OwedIn, OwedTo;
    Regroup(Answered(sent), serving, OwedTo(queue[i]), OwedIn(queue[..i]), OwedIn(queue[i + 1..]));
  }

  lemma Regroup(a: seq<Id>, b: seq<Id>, m: seq<Id>, x: seq<Id>, y: seq<Id>)
    requires x == [] || m == []
    ensures a + b + (x + m + y) == a + (b + m) + (x + y)
  {
  }

  /** What `next` looks for: with an id, the response to it; else anything but a response. */
  predicate Wanted(m: Msg, id: int) {
    if id < 0 then !IsResponse(m) else Responds(m, id)
  }

  predicate Unwanted(ms: seq<Msg>, id: int) { forall i :: 0 <= i < |ms| ==> !Wanted(ms[i], id) }

  // ---- what was sent ----

  /** The answers, each with what it says. */
  function Replied(sent: seq<Out>): seq<(Id, Outcome)> {
    if sent == [] then [] else
    var o := sent[|sent| - 1];
    Replied(sent[..|sent| - 1]) + if o.Reply? then [(o.id, o.outcome)] else []
  }

  /** What the user is shown: reply text and tool calls. */
  function Shown(sent: seq<Out>): seq<Out> {
    if sent == [] then [] else
    var o := sent[|sent| - 1];
    Shown(sent[..|sent| - 1]) + if o.Chunk? || o.Update? then [o] else []
  }

  predicate Traced(sent: seq<Out>, replied: seq<(Id, Outcome)>, shown: seq<Out>) {
    Replied(sent) == replied && Shown(sent) == shown
  }

  lemma TracedMore(sent: seq<Out>, replied: seq<(Id, Outcome)>, shown: seq<Out>, o: Out)
    requires Traced(sent, replied, shown)
    ensures o.Reply? ==> Traced(sent + [o], replied + [(o.id, o.outcome)], shown)
    ensures o.Chunk? || o.Update? ==> Traced(sent + [o], replied, shown + [o])
    ensures o.Call? || o == ParseError ==> Traced(sent + [o], replied, shown)
  {
    assert (sent + [o])[..|sent|] == sent;
    assert replied + [] == replied && shown + [] == shown;
  }

  // ---- tools ----

  datatype Tool = Read | Write | Edit | Shell | Remote | Unknown

  datatype Mode = ReadOnly | Ask | Auto | All

  predicate Asks(mode: Mode, outside: bool) { mode == Ask || (mode == Auto && outside) }

  /** A tool call: whether its path is outside the working directory, and how work that does not
      go through the client ends. */
  datatype Use = Use(tool: Tool, outside: bool, works: bool)

  /** What the model and the world do while a prompt runs: let time pass, send reply text, or have
      a tool used. */
  datatype Action = Wait | Show | Run(use: Use)

  /** What an action led to: nothing to see, reply text, or a tool call of this number with these
      statuses, one after the other. */
  datatype Done = Nothing | Said | Used(number: nat, history: seq<Status>)

  function Updates(session: nat, tool: nat, h: seq<Status>): seq<Out> {
    seq(|h|, i requires 0 <= i < |h| => Update(session, tool, h[i]))
  }

  function Shows(session: nat, d: Done): seq<Out> {
    match d
    case Nothing => []
    case Said => [Chunk]
    case Used(number, history) => Updates(session, number, history)
  }

  function ShownBy(session: nat, done: seq<Done>): seq<Out> {
    if done == [] then [] else ShownBy(session, done[..|done| - 1]) + Shows(session, done[|done| - 1])
  }

  /** The statuses of a call. It starts as pending exactly when the user is asked; it fails when it is
      refused or the agent may only read, and else ends as its work does, where that is not the
      client's. */
  predicate UsedAs(use: Use, mode: Mode, served: bool, h: seq<Status>) {
    && IsOver(h)
    && (h[0] == Pending <==> use.tool != Read && (mode == Ask || (mode == Auto && use.outside && (use.tool == Write || use.tool == Edit))))
    && (use.tool != Read && mode == ReadOnly ==> h == [InProgress, Failed])
    && ((!served || use.tool == Shell || use.tool == Remote) && (use.tool == Read || mode != ReadOnly) && h != [Pending, Failed] ==>
      h[|h| - 1] == if use.works then Completed else Failed)
  }

  /** A known tool is used unless the turn was interrupted before. */
  predicate Matches(a: Action, d: Done, interrupted: bool, mode: Mode, served: bool) {
    match a
    case Wait => d == Nothing
    case Show => d == Said
    case Run(use) =>
      if interrupted || use.tool == Unknown then d == Nothing else d.Used? && UsedAs(use, mode, served, d.history)
  }

  /** Each action led to what it calls for; only an interrupt keeps tools from being used. */
  predicate CarriedOut(actions: seq<Action>, done: seq<Done>, interrupted: bool, mode: Mode, served: bool) {
    |done| == |actions| && forall i :: 0 <= i < |done| ==>
      Matches(actions[i], done[i], false, mode, served) || (interrupted && Matches(actions[i], done[i], true, mode, served))
  }

  lemma NothingCarried(actions: seq<Action>, interrupted: bool, mode: Mode, served: bool, session: nat)
    ensures CarriedOut(actions[..0], [], interrupted, mode, served) && ShownBy(session, []) == []
  {
  }

  lemma CarriedMore(
    actions: seq<Action>, i: nat, done: seq<Done>, before: bool, after: bool, mode: Mode, served: bool, d: Done)
    requires i < |actions| && CarriedOut(actions[..i], done, before, mode, served) && (before ==> after)
    requires Matches(actions[i], d, before, mode, served)
    ensures CarriedOut(actions[..i + 1], done + [d], after, mode, served)
  {
    hide Matches;
    var more := actions[..i + 1];
    assert forall j :: 0 <= j < i ==> more[j] == actions[..i][j];
  }

  lemma ShownMore(before: seq<Out>, session: nat, done: seq<Done>, d: Done)
    ensures before + ShownBy(session, done + [d]) == (before + ShownBy(session, done)) + Shows(session, d)
  {
    assert (done + [d])[..|done|] == done;
    assert ShownBy(session, done + [d]) == ShownBy(session, done) + Shows(session, d);
    hide ShownBy, Shows;
    Associate(before, ShownBy(session, done), Shows(session, d));
  }

  lemma NoUpdates(shown: seq<Out>, session: nat, tool: nat)
    ensures shown + Updates(session, tool, []) == shown
  {
  }

  lemma FewUpdates(shown: seq<Out>, session: nat, tool: nat)
    ensures shown + Updates(session, tool, [InProgress]) == shown + [Update(session, tool, InProgress)]
    ensures shown + Updates(session, tool, [Pending]) == shown + [Update(session, tool, Pending)]
    ensures shown + Updates(session, tool, [Pending, InProgress]) ==
      shown + [Update(session, tool, Pending)] + [Update(session, tool, InProgress)]
    ensures shown + [Update(session, tool, Pending)] + [] == shown + [Update(session, tool, Pending)]
    ensures shown + [Update(session, tool, InProgress)] + [] == shown + [Update(session, tool, InProgress)]
  {
  }

  lemma MoreUpdates(shown: seq<Out>, session: nat, tool: nat, h: seq<Status>, s: Status)
    ensures shown + Updates(session, tool, h + [s]) == shown + Updates(session, tool, h) + [Update(session, tool, s)]
  {
    assert Updates(session, tool, h + [s]) == Updates(session, tool, h) + [Update(session, tool, s)];
  }

  lemma Ended(use: Use, mode: Mode, served: bool, live: seq<Status>, err: bool)
    requires |live| > 0 && (IsRunning(live) || (err && live == [Pending]))
    requires live[0] == Pending <==> use.tool != Read && (mode == Ask || (mode == Auto && use.outside && (use.tool == Write || use.tool == Edit)))
    requires use.tool != Read && mode == ReadOnly ==> err
    requires IsRunning(live) && (!served || use.tool == Shell || use.tool == Remote) && (use.tool == Read || mode != ReadOnly) ==>
      err == !use.works
    ensures UsedAs(use, mode, served, live + [if err then Failed else Completed])
  {
  }

  // ---- the server ----

  class Server {
    const parse: Parser
    var stdin: seq<byte>          // what the client has yet to be read
    var line: seq<byte>           // what `got` has after its last line end
    var queue: seq<Msg>           // messages that wait
    var eof: bool
    var nextId: nat
    var calls: nat                // how many the session has announced
    var open: nat                 // the call that is announced and not over, or 0
    var waiting: nat              // the call to the client that is not answered, or 0
    var prompting: bool
    var initialized: bool
    var session: nat              // 0 until session/new
    var interrupted: bool
    var sent: seq<Out>            // what has been written to stdout
    const input: seq<byte>        // all that the client sends
    ghost var got: seq<byte>      // what has been read
    ghost var broken: bool        // reading failed
    ghost var heard: seq<Text>    // the complete lines of it that have been looked at
    ghost var from: nat           // how many had been when the last prompt started
    ghost var signalled: bool     // whether SIGINT has come since
    ghost var taken: seq<Msg>     // the messages that have been taken to be handled
    ghost var replied: seq<(Id, Outcome)>  // the answers in `sent`
    ghost var shown: seq<Out>     // the reply text and tool calls in it
    ghost var live: seq<Status>   // what the client has been told of the open call
    ghost var acts: nat           // how often a tool has done something
    ghost var disk: nat           // how often of these without the client
    ghost var early: bool         // whether one has before its call was reported to run

    ghost predicate Books(serving: seq<Id>)
      reads `heard, `sent, `queue, `taken, `from, `prompting, `interrupted, `signalled
    {
      && Balanced(parse, heard, sent, serving, queue) && Kept(parse, heard, taken, queue)
      && from <= |heard| && Heeded(parse, heard, from, prompting, interrupted, signalled)
    }

    ghost predicate Sound()
      reads `sent, `nextId, `session, `calls, `open, `live, `replied, `shown
    {
      Honest(sent, nextId, session, calls, open, live) && Traced(sent, replied, shown)
    }

    /** Input ends when all of it has been read, or when reading fails. */
    ghost predicate Input()
      reads `eof, `stdin, `broken, `got, `line, `heard
    {
      && got + stdin == input && (eof ==> stdin == [] || broken)
      && heard == Stream.LinesOf(got) && line == Stream.RestOf(got)
    }

    ghost predicate Valid(serving: seq<Id>)
      reads `heard, `sent, `queue, `taken, `from, `prompting, `interrupted, `signalled
      reads `nextId, `session, `calls, `open, `live, `replied, `shown
      reads `eof, `stdin, `broken, `got, `line
    {
      Books(serving) && Sound() && Input()
    }

    /** What is still to be handled; nothing makes it grow. */
    ghost function Left(): nat
      reads `stdin, `line, `queue
    {
      |stdin| + |line| + |queue|
    }

    constructor (parse: Parser, input: seq<byte>)
      ensures Valid([]) && this.parse == parse && this.input == input
      ensures sent == [] && replied == [] && taken == [] && open == 0 && !broken && !early && !prompting && !initialized && session == 0
    {
      this.parse, this.input, stdin := parse, input, input;
      line, queue, eof, nextId, calls, open, waiting := [], [], false, 0, 0, 0, 0;
      prompting, initialized, session, interrupted := false, false, 0, false;
      got, heard, from, sent, live, broken, signalled := [], [], 0, [], [], false, false;
      acts, disk, early, replied, shown, taken := 0, 0, false, [], [], [];
    }

    method SendReply(id: Id, outcome: Outcome, ghost more: seq<Id>)
      requires Valid([id] + more)
      modifies `sent, `replied
      ensures Valid(more) && sent == old(sent) + [Reply(id, outcome)] && replied == old(replied) + [(id, outcome)]
    {
      hide Balanced, Kept, Honest, Heeded, Traced, Input;
      BalancedReply(parse, heard, sent, id, outcome, more, queue);
      HonestOther(sent, nextId, session, calls, open, live, Reply(id, outcome));
      TracedMore(sent, replied, shown, Reply(id, outcome));
      sent := sent + [Reply(id, outcome)];
      replied := replied + [(id, outcome)];
    }

    method SendCall(ghost serving: seq<Id>)
      requires Valid(serving)
      modifies `sent, `nextId
      ensures Valid(serving) && sent == old(sent) + [Call(nextId)] && nextId == old(nextId) + 1
    {
      hide Balanced, Kept, Honest, Heeded, Traced, Input;
      BalancedOther(parse, heard, sent, Call(nextId + 1), serving, queue);
      HonestOther(sent, nextId, session, calls, open, live, Call(nextId + 1));
      TracedMore(sent, replied, shown, Call(nextId + 1));
      nextId := nextId + 1;
      sent := sent + [Call(nextId)];
    }

    /** Reply text for the user. */
    method SendChunk(ghost serving: seq<Id>)
      requires Valid(serving)
      modifies `sent, `shown
      ensures Valid(serving) && sent == old(sent) + [Chunk] && shown == old(shown) + [Chunk]
    {
      hide Balanced, Kept, Honest, Heeded, Traced, Input;
      BalancedOther(parse, heard, sent, Chunk, serving, queue);
      HonestOther(sent, nextId, session, calls, open, live, Chunk);
      TracedMore(sent, replied, shown, Chunk);
      sent := sent + [Chunk];
      shown := shown + [Chunk];
    }

    /** A message but session/cancel is queued; that one interrupts the prompt that runs, if any. What
        does not parse fails the outstanding call, or without one is answered as a parse error. */
    method LookAt(m: Option<Msg>)
      modifies `queue, `interrupted, `sent
      ensures queue == old(queue) + TakenAs(m, waiting)
      ensures sent == old(sent) + SentAs(m, waiting)
      ensures m.None? && waiting > 0 ==>
        queue == old(queue) + [Msg(NumId(waiting), NoVerb, None, true, None, None)] && sent == old(sent)
      ensures m.None? && waiting == 0 ==> queue == old(queue) && sent == old(sent) + [ParseError]
      ensures m.Some? && m.value.verb != Verb(CANCEL) ==> queue == old(queue) + [m.value] && sent == old(sent)
      ensures m.Some? && m.value.verb == Verb(CANCEL) ==> queue == old(queue) && sent == old(sent)
      ensures interrupted == (old(interrupted) || (m.Some? && IsCancel(m.value) && prompting))
    {
      if m.None? {
        if waiting > 0 { queue := queue + [Broken(waiting)]; } else { sent := sent + [ParseError]; }
      } else if m.value.verb == Verb(CANCEL) {
        if prompting { interrupted := true; }
      } else {
        queue := queue + [m.value];
      }
    }

    method TakeLine(l: Text, ghost serving: seq<Id>)
      requires Books(serving) && Sound()
      modifies `queue, `interrupted, `sent, `heard
      ensures Books(serving) && Sound() && heard == old(heard) + [l]
      ensures queue == old(queue) + TakenAs(parse(l), waiting) && (old(interrupted) ==> interrupted)
    {
      hide Balanced, Kept, Honest, Traced, Heeded, TakenAs, SentAs, IsCancel;
      TracedQuiet(sent, replied, shown, parse(l), waiting);
      BooksMore(parse, heard, l, sent, queue, waiting, serving);
      KeptMore(parse, heard, l, taken, queue, waiting);
      SoundMore(sent, nextId, session, calls, open, live, parse(l), waiting);
      HeededMore(parse, heard, l, from, prompting, interrupted, signalled);
      heard := heard + [l];
      LookAt(parse(l));
    }

    /** The complete lines of what has been read: those looked at, and those from `start` on. */
    ghost predicate Ahead(start: nat)
      requires start <= |line|
      reads `got, `heard, `line
    {
      && Stream.LinesOf(got) == heard + Stream.LinesOf(line[start..])
      && Stream.RestOf(got) == Stream.RestOf(line[start..])
    }

    /** Look at the complete lines of what has been read. */
    method TakeLines(ghost serving: seq<Id>)
      requires Books(serving) && Sound() && Ahead(0)
      modifies `queue, `interrupted, `sent, `heard, `line
      ensures Books(serving) && Sound() && heard == Stream.LinesOf(got) && line == Stream.RestOf(got)
      ensures old(queue) <= queue && |line| + |queue| <= old(|line| + |queue|) && (old(interrupted) ==> interrupted)
    {
      hide Books, Sound, Ahead;
      var start: nat := 0;
      var nl := Stream.Receiver.FindNewline(line, start);
      while nl < |line|
        modifies `queue, `interrupted, `sent, `heard
        invariant start <= nl <= |line| && NL !in line[start..nl] && (nl < |line| ==> line[nl] == NL)
        invariant Books(serving) && Sound() && Ahead(start) && (old(interrupted) ==> interrupted)
        invariant old(queue) <= queue && |queue| <= |old(queue)| + start
        decreases |line| - start
      {
        TakeOne(start, nl, serving);
        start := nl + 1;
        nl := Stream.Receiver.FindNewline(line, start);
      }
      EndLines(start);
      line := line[start..];
    }

    method TakeOne(start: nat, nl: nat, ghost serving: seq<Id>)
      requires start <= nl < |line| && NL !in line[start..nl] && line[nl] == NL
      requires Books(serving) && Sound() && Ahead(start)
      modifies `queue, `interrupted, `sent, `heard
      ensures Books(serving) && Sound() && Ahead(nl + 1)
      ensures old(queue) <= queue && |queue| <= |old(queue)| + 1 && (old(interrupted) ==> interrupted)
    {
      hide Books, Sound, Stream.LinesOf, Stream.RestOf;
      Stream.FirstLine(line, start, nl);
      TakeLine(line[start..nl], serving);
      Associate(old(heard), [line[start..nl]], Stream.LinesOf(line[nl + 1..]));
    }

    lemma EndLines(start: nat)
      requires start <= |line| && NL !in line[start..] && Ahead(start)
      ensures heard == Stream.LinesOf(got) && line[start..] == Stream.RestOf(got)
    {
      Stream.NoLineLeft(line, start);
      assert heard + [] == heard;
    }

    /** Read some of what the client has sent. */
    method ReadSome(ghost serving: seq<Id>)
      requires Valid(serving) && stdin != [] && !eof
      modifies `stdin, `line, `queue, `interrupted, `sent, `heard, `got
      ensures Valid(serving) && old(queue) <= queue && Left() <= old(Left()) && |stdin| < old(|stdin|)
      ensures old(interrupted) ==> interrupted
    {
      var k: nat :| 1 <= k <= |stdin|;
      assert stdin == stdin[..k] + stdin[k..];
      hide Valid;
      Receive(stdin[..k], stdin[k..], serving);
    }

    method Receive(p: seq<byte>, rest: seq<byte>, ghost serving: seq<Id>)
      requires Valid(serving) && stdin == p + rest && !eof
      modifies `stdin, `line, `queue, `interrupted, `sent, `heard, `got
      ensures Valid(serving) && old(queue) <= queue && Left() <= old(Left()) && stdin == rest
      ensures old(interrupted) ==> interrupted
    {
      Stream.LinesOfMore(got, p);
      Associate(got, p, rest);
      hide Books, Sound, Stream.LinesOf, Stream.RestOf;
      line := line + p;
      got := got + p;
      stdin := rest;
      assert line[0..] == line;
      TakeLines(serving);
    }

    /** SIGINT may come. */
    method Signals(ghost serving: seq<Id>)
      requires Books(serving)
      modifies `interrupted, `signalled
      ensures Books(serving) && (old(interrupted) ==> interrupted)
    {
      hide Balanced, Kept, CancelIn;
      if * { interrupted, signalled := true, true; }
    }

    /** Whatever arrives, the books balance and no message is lost; with `block`, something does or input
        has ended. */
    method Fill(block: bool, ghost serving: seq<Id>)
      requires Valid(serving)
      modifies `stdin, `line, `queue, `eof, `interrupted, `signalled, `sent, `heard, `got, `broken
      ensures Valid(serving) && old(queue) <= queue && Left() <= old(Left()) && (old(interrupted) ==> interrupted)
      ensures |stdin| <= old(|stdin|) && (block ==> eof || |stdin| < old(|stdin|))
    {
      hide Balanced, Kept, CancelIn, Sound, Stream.LinesOf, Stream.RestOf;
      Signals(serving);
      hide Books;
      if eof { return; }
      if !block {
        if * { return; }  // nothing to read now
      }
      if stdin == [] {
        eof := true;
      } else if * {
        eof, broken := true, true;
      } else {
        ReadSome(serving);
      }
    }

    // ---- taking messages from the queue ----

    /** The first message is taken to be handled. */
    method TakeFirst(ghost serving: seq<Id>)
      requires Valid(serving) && queue != []
      modifies `queue, `taken
      ensures queue == old(queue[1..]) && Valid(serving + OwedTo(old(queue[0]))) && taken == old(taken) + Due(old(queue[0]))
    {
      hide Balanced, Kept, Heeded, Sound, Input, OwedTo, Due;
      BalancedRemove(parse, heard, sent, serving, queue, 0);
      KeptRemove(parse, heard, taken, queue, 0);
      assert queue[..0] + queue[1..] == queue[1..];
      taken := taken + Due(queue[0]);
      queue := queue[1..];
    }

    /** A response is taken or dropped. */
    method Remove(i: nat, ghost serving: seq<Id>)
      requires Valid(serving) && i < |queue| && IsResponse(queue[i])
      modifies `queue
      ensures queue == old(queue[..i] + queue[i + 1..]) && Valid(serving)
    {
      assert OwedTo(queue[i]) == [] && Due(queue[i]) == [] && serving + [] == serving;
      hide Balanced, Kept, Heeded, Sound, Input, OwedTo, Due, IsResponse;
      BalancedRemove(parse, heard, sent, serving, queue, i);
      KeptRemove(parse, heard, taken, queue, i);
      queue := queue[..i] + queue[i + 1..];
    }

    /** Handle the queue's message at `i`: take it, drop it or keep it and go on. */
    method LookAtQueue(i: nat, id: int, ghost serving: seq<Id>, ghost kept: seq<Msg>, ghost after: seq<Msg>)
      returns (m: Option<Msg>, next: nat)
      requires Valid(serving) && queue == kept + after && i == |kept| && after != [] && (id < 0 ==> i == 0)
      modifies `queue, (if id < 0 then {this} else {})`taken
      ensures m == if Wanted(after[0], id) then Some(after[0]) else None
      ensures queue == (if m.Some? || id < 0 then kept else kept + [after[0]]) + after[1..]
      ensures m.None? ==> next == if id < 0 then 0 else i + 1
      ensures Valid(serving + if m.Some? && id < 0 then OwedTo(m.value) else [])
      ensures taken == old(taken) + if id < 0 then Listed(m) else []
    {
      Passed(kept, after);
      ResponseOwedNothing(after[0], id);
      hide Valid, OwedTo, Due, IsResponse, Wanted;
      assert taken + [] == taken && (i == 0 ==> kept == []) && [] + after[1..] == after[1..];
      var c := queue[i];
      assert serving + [] == serving;
      m, next := None, i + 1;
      if Wanted(c, id) {
        m := Some(c);
        if id < 0 { TakeFirst(serving); } else { Remove(i, serving); }
      } else if id < 0 {
        next := 0;
        Remove(i, serving);
      }
    }

    /** Look for what is wanted in the queue as it stands. Without an id, a response is stale (no
        call is outstanding then) and is dropped. */
    method Search(id: int, ghost serving: seq<Id>)
      returns (m: Option<Msg>, ghost before: seq<Msg>, ghost after: seq<Msg>)
      requires Valid(serving)
      modifies `queue, (if id < 0 then {this} else {})`taken
      ensures taken == old(taken) + if id < 0 then Listed(m) else []
      ensures Unwanted(before, id) && (m.Some? ==> Wanted(m.value, id)) && (m.None? ==> after == [])
      ensures old(queue) == before + Listed(m) + after && queue == (if id < 0 then [] else before) + after
      ensures Valid(serving + if m.Some? && id < 0 then OwedTo(m.value) else [])
    {
      hide Valid, OwedTo, Wanted, Unwanted;
      var i: nat := 0;
      NoneUnwanted(id);
      before, after, m := [], queue, None;
      assert serving + [] == serving && taken + [] == taken;
      while i < |queue|
        modifies `queue, (if id < 0 then {this} else {})`taken
        invariant taken == old(taken)
        invariant m.None? && Valid(serving) && Unwanted(before, id)
        invariant old(queue) == before + after && queue == (if id < 0 then [] else before) + after
        invariant i == if id < 0 then 0 else |before|
        decreases |after|
      {
        Passed(before, after);
        UnwantedMore(before, after[0], id);
        m, i := LookAtQueue(i, id, serving, if id < 0 then [] else before, after);
        ghost var c := after[0];
        after := after[1..];
        if m.Some? { return; }
        before := before + [c];
      }
      assert before + [] + [] == before;
    }

    /** The next message that is wanted: with an id, the response to it, and nothing else is taken;
        else a request or a notification, and the responses before it are dropped. */
    method Next(id: int, ghost serving: seq<Id>)
      returns (m: Option<Msg>, ghost before: seq<Msg>, ghost after: seq<Msg>)
      requires Valid(serving)
      modifies `stdin, `line, `queue, `eof, `interrupted, `signalled, `sent, `heard, `got, `broken
      modifies (if id < 0 then {this} else {})`taken
      ensures if id < 0 && m.Some? then taken == old(taken) + [m.value] else taken == old(taken)
      ensures Unwanted(before, id) && old(queue) <= before + Listed(m) + after && (old(interrupted) ==> interrupted)
      ensures queue == (if id < 0 then [] else before) + after
      ensures m.Some? ==> Wanted(m.value, id) && Left() < old(Left())
      ensures m.None? ==> eof && after == [] && Left() <= old(Left())
      ensures Valid(serving + if m.Some? && id < 0 then OwedTo(m.value) else [])
    {
      hide Valid, OwedTo, Wanted;
      ghost var dropped := [];
      assert serving + [] == serving && taken + [] == taken;
      while true
        invariant Valid(serving) && Left() <= old(Left()) && (old(interrupted) ==> interrupted) && taken == old(taken)
        invariant Unwanted(dropped, id) && (id >= 0 ==> dropped == []) && old(queue) <= dropped + queue
        decreases |stdin|, if eof then 0 else 1
      {
        ghost var all := dropped + queue;
        m, before, after := Search(id, serving);
        Joined(dropped, before, Listed(m), after, id);
        before := dropped + before;
        assert all == before + Listed(m) + after;
        if m.Some? || eof { return; }
        if id < 0 { dropped := before; }
        Fill(true, serving);
      }
    }

    // ---- calls to the client, and what it is told ----

    /** Only a response to this call's own id, which is fresh, leaves the queue; none comes only at the
        end of input. */
    method CallClient(ghost serving: seq<Id>) returns (r: Option<Msg>, ghost before: seq<Msg>, ghost after: seq<Msg>)
      requires Valid(serving)
      modifies `stdin, `line, `queue, `eof, `interrupted, `signalled, `sent, `heard, `got, `broken, `nextId, `waiting
      ensures Valid(serving) && Left() <= old(Left()) && nextId == old(nextId) + 1 && (old(interrupted) ==> interrupted)
      ensures old(queue) <= before + Listed(r) + after && queue == before + after
      ensures if r.Some? then Responds(r.value, nextId) && Unwanted(before, nextId) else eof
    {
      hide Valid, Responds, Unwanted;
      SendCall(serving);
      waiting := nextId;
      r, before, after := Next(nextId, serving);
      waiting := 0;
      assert serving + [] == serving;
    }

    /** Announce a tool call. */
    method OnTool(pending: bool, ghost serving: seq<Id>)
      requires Valid(serving) && open == 0
      modifies `calls, `open, `sent, `live, `shown
      ensures Valid(serving) && open == calls == old(calls) + 1 && live == [if pending then Pending else InProgress]
      ensures shown == old(shown) + [Update(session, open, if pending then Pending else InProgress)]
    {
      hide Balanced, Kept, Honest, Heeded, Traced, Input;
      var status := if pending then Pending else InProgress;
      BalancedOther(parse, heard, sent, Update(session, calls + 1, status), serving, queue);
      HonestAnnounce(sent, nextId, session, calls, live, status);
      TracedMore(sent, replied, shown, Update(session, calls + 1, status));
      calls := calls + 1;
      open := calls;
      SendUpdate(status);
      live := [status];
    }

    method SendUpdate(status: Status)
      modifies `sent, `shown
      ensures sent == old(sent) + [Update(session, open, status)] && shown == old(shown) + [Update(session, open, status)]
    {
      sent := sent + [Update(session, open, status)];
      shown := shown + [Update(session, open, status)];
    }

    /** Report the open call done. */
    method OnDone(err: bool, ghost serving: seq<Id>)
      requires Valid(serving) && open > 0 && (IsRunning(live) || (err && live == [Pending]))
      modifies `open, `sent, `live, `shown
      ensures Valid(serving) && open == 0
      ensures shown == old(shown) + [Update(session, old(open), if err then Failed else Completed)]
    {
      hide Balanced, Kept, Honest, Heeded, Traced, Input, IsRunning;
      var status := if err then Failed else Completed;
      BalancedOther(parse, heard, sent, Update(session, open, status), serving, queue);
      HonestUpdate(sent, nextId, session, calls, open, live, status);
      TracedMore(sent, replied, shown, Update(session, open, status));
      SendUpdate(status);
      open := 0;
      live := [];
    }

    /** Ask the client whether the open call may run: only its own answer to this question counts. */
    method OnAllow(ghost serving: seq<Id>) returns (ok: bool, ghost r: Option<Msg>)
      requires Valid(serving) && open > 0 && live == [Pending]
      modifies `stdin, `line, `queue, `eof, `interrupted, `signalled, `sent, `heard, `got, `broken, `nextId, `waiting
      modifies `live, `shown
      ensures Valid(serving) && Left() <= old(Left()) && (old(interrupted) ==> interrupted)
      ensures shown == old(shown) + if ok then [Update(session, open, InProgress)] else []
      ensures ok <==> r.Some? && r.value.chosen == Some(ALLOW)
      ensures r.Some? ==> Responds(r.value, nextId) && nextId > old(nextId)
      ensures live == if ok then [Pending, InProgress] else [Pending]
    {
      hide Valid, Responds;
      var answer, before, after := CallClient(serving);
      r := answer;
      ok := answer.Some? && answer.value.chosen == Some(ALLOW);
      assert shown + [] == shown;
      if ok { Allowed(serving); }
    }

    method Allowed(ghost serving: seq<Id>)
      requires Valid(serving) && open > 0 && live == [Pending]
      modifies `sent, `live, `shown
      ensures Valid(serving) && live == [Pending, InProgress] && shown == old(shown) + [Update(session, open, InProgress)]
    {
      hide Balanced, Kept, Honest, Heeded, Traced, Input;
      BalancedOther(parse, heard, sent, Update(session, open, InProgress), serving, queue);
      HonestUpdate(sent, nextId, session, calls, open, live, InProgress);
      TracedMore(sent, replied, shown, Update(session, open, InProgress));
      SendUpdate(InProgress);
      live := live + [InProgress];
    }

    // ---- tools ----

    /** A tool does something to the world, or to the client's files. */
    ghost method Act()
      modifies `acts, `early
      ensures acts == old(acts) + 1 && early == (old(early) || !IsRunning(live))
    {
      acts := acts + 1;
      early := early || !IsRunning(live);
    }

    method OnRead(ghost serving: seq<Id>)
      returns (ok: bool, ghost r: Option<Msg>, ghost before: seq<Msg>, ghost after: seq<Msg>)
      requires Valid(serving)
      modifies `stdin, `line, `queue, `eof, `interrupted, `signalled, `sent, `heard, `got, `broken, `nextId, `waiting
      modifies `acts, `early
      ensures Valid(serving) && Left() <= old(Left()) && (old(interrupted) ==> interrupted)
      ensures acts == old(acts) + 1 && early == (old(early) || !IsRunning(live))
      ensures ok <==> GaveText(r)
      ensures old(queue) <= before + Listed(r) + after && queue == before + after
      ensures nextId == old(nextId) + 1 && (r.Some? ==> Responds(r.value, nextId))
    {
      hide Valid, IsRunning, Responds;
      Act();
      var answer;
      answer, before, after := CallClient(serving);
      r := answer;
      ok := answer.Some? && !answer.value.error && answer.value.content.Some?;
    }

    method OnWrite(ghost serving: seq<Id>)
      returns (ok: bool, ghost r: Option<Msg>, ghost before: seq<Msg>, ghost after: seq<Msg>)
      requires Valid(serving)
      modifies `stdin, `line, `queue, `eof, `interrupted, `signalled, `sent, `heard, `got, `broken, `nextId, `waiting
      modifies `acts, `early
      ensures Valid(serving) && Left() <= old(Left()) && (old(interrupted) ==> interrupted)
      ensures acts == old(acts) + 1 && early == (old(early) || !IsRunning(live))
      ensures ok <==> r.Some? && !r.value.error
      ensures old(queue) <= before + Listed(r) + after && queue == before + after
      ensures nextId == old(nextId) + 1 && (r.Some? ==> Responds(r.value, nextId))
    {
      hide Valid, IsRunning, Responds;
      Act();
      var answer;
      answer, before, after := CallClient(serving);
      r := answer;
      ok := answer.Some? && !answer.value.error;
    }

    /** Work outside the client; the client is listened to meanwhile. */
    method Work(ticks: nat, ghost serving: seq<Id>)
      requires Valid(serving)
      modifies `stdin, `line, `queue, `eof, `interrupted, `signalled, `sent, `heard, `got, `broken, `acts, `disk, `early
      ensures Valid(serving) && Left() <= old(Left()) && (old(interrupted) ==> interrupted)
      ensures acts == old(acts) + 1 && disk == old(disk) + 1 && early == (old(early) || !IsRunning(live))
    {
      hide Valid, IsRunning;
      Act();
      disk := disk + 1;
      for i := 0 to ticks
        modifies `stdin, `line, `queue, `eof, `interrupted, `signalled, `sent, `heard, `got, `broken
        invariant Valid(serving) && Left() <= old(Left()) && (old(interrupted) ==> interrupted)
      {
        Fill(false, serving);
      }
    }

    /** Whether a call is refused: by the mode; or, where the user is asked, unless the client's
        response to this very question allows it. */
    method Denied(mode: Mode, outside: bool, ghost serving: seq<Id>) returns (denied: bool, ghost r: Option<Msg>)
      requires Valid(serving) && open > 0 && live == [if Asks(mode, outside) then Pending else InProgress]
      modifies `stdin, `line, `queue, `eof, `interrupted, `signalled, `sent, `heard, `got, `broken, `nextId, `waiting
      modifies `live, `shown
      ensures Valid(serving) && Left() <= old(Left()) && (old(interrupted) ==> interrupted)
      ensures shown == old(shown) + if Asks(mode, outside) && !denied then [Update(session, open, InProgress)] else []
      ensures denied <==> mode == ReadOnly || (Asks(mode, outside) && !(r.Some? && r.value.chosen == Some(ALLOW)))
      ensures r.Some? ==> Responds(r.value, nextId) && nextId > old(nextId)
      ensures live == if !Asks(mode, outside) then [InProgress] else if denied then [Pending] else [Pending, InProgress]
    {
      hide Valid, Responds;
      r := None;
      assert shown + [] == shown;
      if mode == ReadOnly { return true, None; }
      if !Asks(mode, outside) { return false, None; }
      var ok;
      ok, r := OnAllow(serving);
      denied := !ok;
    }

    /** Run a tool; a call with arguments missing is not announced. `works` is how the work outside
        the client ends. Returns whether the call failed. */
    method RunTool(use: Use, mode: Mode, served: bool, ticks: nat, ghost serving: seq<Id>) returns (err: bool)
      requires Valid(serving) && open == 0
      modifies `stdin, `line, `queue, `eof, `interrupted, `signalled, `sent, `heard, `got, `broken, `nextId, `waiting
      modifies `calls, `open, `live, `shown, `acts, `disk, `early
      ensures Valid(serving) && Left() <= old(Left()) && (old(interrupted) ==> interrupted) && early == old(early)
      ensures if use.tool == Unknown then err && open == 0 && calls == old(calls) else open == calls == old(calls) + 1
      ensures shown == old(shown) + Updates(session, calls, if open > 0 then live else [])
      ensures open > 0 ==> |live| > 0
      ensures open > 0 ==>
        (live[0] == Pending <==> use.tool != Read && (mode == Ask || (mode == Auto && use.outside && (use.tool == Write || use.tool == Edit))))
      ensures open == 0 ==> acts == old(acts)
      ensures open > 0 && (use.tool == Shell || use.tool == Remote) && IsRunning(live) && mode != ReadOnly ==> err == !use.works
      ensures open > 0 ==> IsRunning(live) || (err && live == [Pending])
      ensures use.tool != Read && mode == ReadOnly ==> acts == old(acts) && err
      ensures open > 0 && live == [Pending] ==> acts == old(acts)
      ensures open > 0 && IsRunning(live) && (use.tool == Read || mode != ReadOnly) ==> acts > old(acts) || (served && err)
      ensures open > 0 && IsRunning(live) && !served && (use.tool == Read || mode != ReadOnly) ==> err == !use.works
      ensures served && (use.tool == Write || use.tool == Edit) ==> disk == old(disk)
      ensures served && use.tool == Read && use.outside && mode != All ==> disk == old(disk)
      ensures acts == old(acts) ==> disk == old(disk)
    {
      hide Valid, Updates;
      NoUpdates(shown, session, calls);
      if use.tool == Unknown { return true; }
      var asked := use.tool != Read && Asks(mode, Away(use));
      OnTool(asked, serving);
      FewUpdates(old(shown), session, calls);
      if use.tool == Read {
        ghost var r;
        err, r := RunRead(use, mode, served, serving);
      } else {
        err := RunMutating(use, mode, served, ticks, serving);
      }
    }

    /** An announced call of a tool that can change things: it is run if it may. */
    method RunMutating(use: Use, mode: Mode, served: bool, ticks: nat, ghost serving: seq<Id>) returns (err: bool)
      requires Valid(serving) && open > 0 && use.tool != Read && live == [if Asks(mode, Away(use)) then Pending else InProgress]
      modifies `stdin, `line, `queue, `eof, `interrupted, `signalled, `sent, `heard, `got, `broken, `nextId, `waiting
      modifies `live, `shown, `acts, `disk, `early
      ensures Valid(serving) && Left() <= old(Left()) && (old(interrupted) ==> interrupted) && early == old(early)
      ensures if old(live) == [Pending] then live == [Pending] || live == [Pending, InProgress] else live == [InProgress]
      ensures shown == old(shown) + if live == [Pending, InProgress] then [Update(session, open, InProgress)] else []
      ensures mode == ReadOnly || live == [Pending] ==> err && acts == old(acts) && disk == old(disk)
      ensures mode != ReadOnly && live != [Pending] ==>
        acts > old(acts) || (served && err && disk == old(disk))
      ensures mode != ReadOnly && live != [Pending] && (!served || use.tool == Shell || use.tool == Remote) ==> err == !use.works
      ensures served && (use.tool == Write || use.tool == Edit) ==> disk == old(disk)
    {
      hide Valid;
      assert shown + [] == shown;
      var denied;
      ghost var r;
      denied, r := Denied(mode, Away(use), serving);
      if denied { return true; }
      err, r := RunAllowed(use, served, ticks, serving);
    }

    /** Read through the client if it serves files. What it refuses is read from disk, but outside the
        working directory only with all permissions. */
    method RunRead(use: Use, mode: Mode, served: bool, ghost serving: seq<Id>) returns (err: bool, ghost r: Option<Msg>)
      requires Valid(serving) && IsRunning(live)
      modifies `stdin, `line, `queue, `eof, `interrupted, `signalled, `sent, `heard, `got, `broken, `nextId, `waiting
      modifies `acts, `disk, `early
      ensures Valid(serving) && Left() <= old(Left()) && (old(interrupted) ==> interrupted) && early == old(early) && acts > old(acts)
      ensures if served then nextId == old(nextId) + 1 && (r.Some? ==> Responds(r.value, nextId)) else r == None
      ensures GaveText(r) ==> !err && disk == old(disk)
      ensures !GaveText(r) && served && use.outside && mode != All ==> err && disk == old(disk)
      ensures !GaveText(r) && !(served && use.outside && mode != All) ==> err == !use.works && disk == old(disk) + 1
    {
      hide Valid, IsRunning, Responds;
      r := None;
      if served {
        var ok, answer, before, after := OnRead(serving);
        r := answer;
        if ok { return false, r; }
        if use.outside && mode != All { return true, r; }
      }
      Work(0, serving);
      err := !use.works;
    }

    /** What a mutating tool does once it may: files that the client serves are left to it. A write
        succeeds as the client says; an edit only if the client gave the text and took the new one. */
    method RunAllowed(use: Use, served: bool, ticks: nat, ghost serving: seq<Id>) returns (err: bool, ghost r: Option<Msg>)
      requires Valid(serving) && IsRunning(live)
      modifies `stdin, `line, `queue, `eof, `interrupted, `signalled, `sent, `heard, `got, `broken, `nextId, `waiting
      modifies `acts, `disk, `early
      ensures Valid(serving) && Left() <= old(Left()) && (old(interrupted) ==> interrupted) && early == old(early)
      ensures acts > old(acts) || (served && use.tool == Edit && err)
      ensures if served && (use.tool == Write || use.tool == Edit) then disk == old(disk)
        else disk == old(disk) + 1 && err == !use.works
      ensures served && use.tool == Write ==> nextId == old(nextId) + 1 && (err <==> !(r.Some? && !r.value.error))
      ensures served && use.tool == Edit && !err ==> nextId == old(nextId) + 2 && r.Some? && !r.value.error
      ensures r.Some? ==> Responds(r.value, nextId)
    {
      hide Valid, IsRunning, Responds;
      r := None;
      if served && use.tool == Write {
        err, r := WriteThrough(serving);
      } else if served && use.tool == Edit {
        var empty, found := *, *;  // whether there is no text to replace, and whether it occurs just once
        if empty { return true, None; }
        var ok, answer, before, after := OnRead(serving);
        if !ok || !found { return true, None; }
        err, r := WriteThrough(serving);
      } else {
        Work(ticks, serving);
        err := !use.works;
      }
    }

    method WriteThrough(ghost serving: seq<Id>) returns (err: bool, ghost r: Option<Msg>)
      requires Valid(serving)
      modifies `stdin, `line, `queue, `eof, `interrupted, `signalled, `sent, `heard, `got, `broken, `nextId, `waiting
      modifies `acts, `early
      ensures Valid(serving) && Left() <= old(Left()) && (old(interrupted) ==> interrupted) && nextId == old(nextId) + 1
      ensures acts == old(acts) + 1 && early == (old(early) || !IsRunning(live))
      ensures (err <==> !(r.Some? && !r.value.error)) && (r.Some? ==> Responds(r.value, nextId))
    {
      hide Valid, IsRunning, Responds;
      var ok, answer, before, after := OnWrite(serving);
      r := answer;
      err := !ok;
    }

    /** One call of a turn: unless the turn is interrupted or the tool unknown, it is announced, and in the
        end reported as failed or completed, as it was. */
    method UseTool(use: Use, mode: Mode, served: bool, ticks: nat, ghost serving: seq<Id>) returns (ghost d: Done)
      requires Valid(serving) && open == 0
      modifies `stdin, `line, `queue, `eof, `interrupted, `signalled, `sent, `heard, `got, `broken, `nextId, `waiting
      modifies `calls, `open, `live, `shown, `acts, `disk, `early
      ensures Valid(serving) && open == 0 && Left() <= old(Left()) && early == old(early) && (old(interrupted) ==> interrupted)
      ensures d == Nothing <==> old(interrupted) || use.tool == Unknown
      ensures d.Nothing? ==> acts == old(acts) && calls == old(calls) && shown == old(shown)
      ensures !d.Nothing? ==> d.Used? && d.number == calls == old(calls) + 1 && UsedAs(use, mode, served, d.history)
      ensures d.Used? ==> shown == old(shown) + Updates(session, d.number, d.history)
      ensures use.tool != Read && mode == ReadOnly ==> acts == old(acts)
    {
      hide Valid;
      d := Nothing;
      NoUpdates(shown, session, calls);
      if interrupted { return; }
      var err := RunTool(use, mode, served, ticks, serving);
      if open > 0 {
        ghost var status := if err then Failed else Completed;
        d := Used(calls, live + [status]);
        MoreUpdates(old(shown), session, calls, live, status);
        Ended(use, mode, served, live, err);
        OnDone(err, serving);
      }
    }

    // ---- requests ----

    method Answer(id: Id, outcome: Outcome)
      requires Valid([id])
      modifies `sent, `replied
      ensures Valid([]) && replied == old(replied) + [(id, outcome)]
    {
      hide Valid;
      assert [id] + [] == [id];
      SendReply(id, outcome, []);
    }

    /** One turn. It is answered as cancelled exactly when session/cancel or a signal came while it ran,
        else as failed or ended; and its actions were carried out. */
    method Prompt(id: Id, actions: seq<Action>, failed: bool, mode: Mode, served: bool) returns (ghost o: Outcome, ghost done: seq<Done>)
      requires Valid([id]) && open == 0
      modifies `stdin, `line, `queue, `eof, `interrupted, `signalled, `sent, `heard, `got, `broken, `nextId, `waiting
      modifies `calls, `open, `live, `shown, `acts, `disk, `early, `prompting, `from, `replied
      ensures Valid([]) && open == 0 && Left() <= old(Left()) && early == old(early) && !prompting && !interrupted
      ensures replied == old(replied) + [(id, o)]
      ensures
        var cancelled := CancelIn(parse, heard, |old(heard)|) || signalled;
        && (o == Cancelled <==> cancelled) && (!cancelled ==> (o == Error <==> failed))
        && CarriedOut(actions, done, cancelled, mode, served)
      ensures shown == old(shown) + ShownBy(session, done)
    {
      hide Valid, Books, CancelIn, CarriedOut, ShownBy;
      Starts([id]);
      done := Turn([id], actions, mode, served);
      Ends([id]);
      o := if interrupted then Cancelled else if failed then Error else Result;
      Answer(id, if interrupted then Cancelled else if failed then Error else Result);
      Forget();
    }

    /** The actions of a turn, one after the other. */
    method Turn(ghost serving: seq<Id>, actions: seq<Action>, mode: Mode, served: bool) returns (ghost done: seq<Done>)
      requires Valid(serving) && open == 0
      modifies `stdin, `line, `queue, `eof, `interrupted, `signalled, `sent, `heard, `got, `broken, `nextId, `waiting
      modifies `calls, `open, `live, `shown, `acts, `disk, `early
      ensures Valid(serving) && open == 0 && Left() <= old(Left()) && early == old(early)
      ensures CarriedOut(actions, done, interrupted, mode, served) && shown == old(shown) + ShownBy(session, done)
    {
      done := [];
      NothingCarried(actions, interrupted, mode, served, session);
      assert shown + [] == shown;
      hide *;
      for i := 0 to |actions|
        invariant Valid(serving) && open == 0 && Left() <= old(Left()) && early == old(early)
        invariant |done| == i && CarriedOut(actions[..i], done, interrupted, mode, served)
        invariant shown == old(shown) + ShownBy(session, done)
      {
        ghost var before := interrupted;
        ghost var d;
        d := Carry(actions[i], |actions|, mode, served, serving);
        CarriedMore(actions, i, done, before, interrupted, mode, served, d);
        ShownMore(old(shown), session, done, d);
        done := done + [d];
      }
      assert actions[..|actions|] == actions;
    }

    method Carry(a: Action, ticks: nat, mode: Mode, served: bool, ghost serving: seq<Id>) returns (ghost d: Done)
      requires Valid(serving) && open == 0
      modifies `stdin, `line, `queue, `eof, `interrupted, `signalled, `sent, `heard, `got, `broken, `nextId, `waiting
      modifies `calls, `open, `live, `shown, `acts, `disk, `early
      ensures Valid(serving) && open == 0 && Left() <= old(Left()) && early == old(early) && (old(interrupted) ==> interrupted)
      ensures Matches(a, d, old(interrupted), mode, served) && shown == old(shown) + Shows(session, d)
    {
      hide Valid, UsedAs, Updates;
      assert shown + [] == shown;
      match a
      case Wait =>
        Fill(false, serving);
        d := Nothing;
      case Show =>
        SendChunk(serving);
        d := Said;
      case Run(use) =>
        d := UseTool(use, mode, served, ticks, serving);
    }

    method Starts(ghost serving: seq<Id>)
      requires Valid(serving)
      modifies `prompting, `interrupted, `signalled, `from
      ensures Valid(serving) && prompting && from == |heard|
    {
      hide Balanced, Kept, Sound, Input;
      prompting, interrupted, signalled, from := true, false, false, |heard|;
    }

    /** The turn is over. */
    method Ends(ghost serving: seq<Id>)
      requires Valid(serving) && prompting
      modifies `prompting
      ensures Valid(serving) && !prompting && (interrupted <==> CancelIn(parse, heard, from) || signalled)
    {
      hide Balanced, Kept, Sound, Input, CancelIn;
      prompting := false;
    }

    method Forget()
      requires Valid([]) && !prompting
      modifies `interrupted
      ensures Valid([]) && !interrupted
    {
      hide Balanced, Kept, Sound, Input, CancelIn;
      interrupted := false;
    }

    /** A new session numbers its tool calls afresh. */
    method NewSession(id: Id, entered: bool, ticks: nat)
      requires Valid([id]) && open == 0
      modifies `stdin, `line, `queue, `eof, `interrupted, `signalled, `sent, `heard, `got, `broken, `calls, `open, `session, `replied
      ensures Valid([]) && open == 0 && Left() <= old(Left())
      ensures replied == old(replied) + [(id, if entered then Result else Error)]
      ensures if entered then session == old(session) + 1 && calls == 0 else session == old(session) && calls == old(calls)
    {
      hide Valid;
      if !entered {
        Answer(id, Error);
        return;
      }
      for i := 0 to ticks  // while the MCP servers start
        modifies `stdin, `line, `queue, `eof, `interrupted, `signalled, `sent, `heard, `got, `broken
        invariant Valid([id]) && Left() <= old(Left())
      {
        Fill(false, [id]);
      }
      Renumber([id]);
      Answer(id, Result);
    }

    method Renumber(ghost serving: seq<Id>)
      requires Valid(serving) && open == 0
      modifies `calls, `open, `session
      ensures Valid(serving) && open == calls == 0 && session == old(session) + 1
    {
      hide Books, Input, History, FreshCalls, Traced;
      LivesNewSession(sent, session, calls);
      calls, open := 0, 0;
      session := session + 1;
    }

    /** A request gets one answer, and a notification none. initialize succeeds, and before it nothing
        does; session/new succeeds exactly when the directory can be entered; session/prompt for this
        session runs the turn; all else fails. */
    method Dispatch(m: Msg, entered: bool, actions: seq<Action>, failed: bool, mode: Mode, served: bool)
      returns (ghost o: Outcome, ghost done: seq<Done>)
      requires Valid(OwedTo(m)) && !IsResponse(m) && open == 0 && !prompting
      modifies this
      ensures Valid([]) && open == 0 && Left() <= old(Left()) && early == old(early) && !prompting && taken == old(taken)
      ensures replied == old(replied) + if IsRequest(m) then [(m.id, o)] else []
      ensures initialized == (old(initialized) || (IsRequest(m) && m.verb == Verb(INITIALIZE)))
      ensures session == old(session) + if IsRequest(m) && Opens(m, old(initialized), entered) then 1 else 0
      ensures !IsRequest(m) ==> shown == old(shown)
      ensures IsRequest(m) && m.verb == Verb(INITIALIZE) ==> o == Result && shown == old(shown)
      ensures IsRequest(m) && m.verb != Verb(INITIALIZE) && !old(initialized) ==> o == Error && shown == old(shown)
      ensures IsRequest(m) && m.verb == Verb(NEW) && m.verb != Verb(INITIALIZE) && old(initialized) ==>
        o == (if entered then Result else Error) && shown == old(shown)
      ensures IsRequest(m) && IsPrompt(m, old(initialized), old(session)) ==>
        var cancelled := CancelIn(parse, heard, |old(heard)|) || signalled;
        && (o == Cancelled <==> cancelled) && (!cancelled ==> (o == Error <==> failed))
        && CarriedOut(actions, done, cancelled, mode, served) && shown == old(shown) + ShownBy(session, done)
      ensures IsRequest(m) && m.verb != Verb(INITIALIZE) && m.verb != Verb(NEW) && !IsPrompt(m, old(initialized), old(session)) ==>
        o == Error && shown == old(shown)
    {
      hide Valid, CancelIn, CarriedOut, ShownBy;
      o, done := Error, [];
      assert replied + [] == replied;
      if m.id == NoId || m.id == NullId { return; }
      if m.verb == Verb(INITIALIZE) {
        o := Result;
        Answer(m.id, Result);
        initialized := true;
      } else if !initialized {
        Answer(m.id, Error);
      } else if m.verb == Verb(NEW) {
        o := if entered then Result else Error;
        NewSession(m.id, entered, |actions|);
      } else if m.verb == Verb(PROMPT) {
        if session == 0 || m.session != Some(session) {
          Answer(m.id, Error);
        } else {
          o, done := Prompt(m.id, actions, failed, mode, served);
        }
      } else {
        Answer(m.id, Error);
      }
    }

    lemma AllDone()
      requires Valid([]) && open == 0 && eof && queue == []
      ensures got <= input && (!broken ==> got == input)
      ensures Answered(sent) == OwedFor(parse, Stream.LinesOf(got))
      ensures forall s: nat, t: nat {:trigger History(sent, s, t)} :: History(sent, s, t) == [] || IsOver(History(sent, s, t))
      ensures FreshCalls(sent, nextId) && Replied(sent) == replied && taken == DueFor(parse, Stream.LinesOf(got))
    {
      hide Answered, OwedFor, History, FreshCalls, IsOver, Stream.LinesOf, Stream.RestOf, Heeded, Replied, Shown;
      assert OwedIn([]) == [] && Answered(sent) + [] + [] == Answered(sent);
      assert got + [] == got && DueIn([]) == [] && taken + [] == taken;
    }
  }

  predicate IsRequest(m: Msg) { m.id != NoId && m.id != NullId }

  predicate Opens(m: Msg, initialized: bool, entered: bool) {
    m.verb == Verb(NEW) && m.verb != Verb(INITIALIZE) && initialized && entered
  }

  /** A prompt that is run: it names the session there is. */
  predicate IsPrompt(m: Msg, initialized: bool, session: nat) {
    && m.verb == Verb(PROMPT) && m.verb != Verb(INITIALIZE) && m.verb != Verb(NEW)
    && initialized && session > 0 && m.session == Some(session)
  }

  /** A message that was handled: whether a session's directory could be entered, and for a prompt that
      was run, whether it failed and whether it was cancelled. */
  datatype Handled = Handled(m: Msg, entered: bool, failed: bool, cancelled: bool)

  function Messages(hs: seq<Handled>): seq<Msg> { seq(|hs|, i requires 0 <= i < |hs| => hs[i].m) }

  lemma MessagesMore(hs: seq<Handled>, h: Handled)
    ensures Messages(hs + [h]) == Messages(hs) + [h.m]
  {
  }

  /** Whether initialize is among them. */
  function Started(hs: seq<Handled>): bool {
    if hs == [] then false
    else Started(hs[..|hs| - 1]) || (IsRequest(hs[|hs| - 1].m) && hs[|hs| - 1].m.verb == Verb(INITIALIZE))
  }

  /** How many sessions they have opened. */
  function Sessions(hs: seq<Handled>): nat {
    if hs == [] then 0 else
    var most, h := hs[..|hs| - 1], hs[|hs| - 1];
    Sessions(most) + if IsRequest(h.m) && Opens(h.m, Started(most), h.entered) then 1 else 0
  }

  /** `o` is the answer that `m` calls for. */
  predicate CallsFor(h: Handled, started: bool, session: nat, o: Outcome) {
    && (h.m.verb == Verb(INITIALIZE) ==> o == Result)
    && (h.m.verb != Verb(INITIALIZE) && !started ==> o == Error)
    && (h.m.verb == Verb(NEW) && h.m.verb != Verb(INITIALIZE) && started ==> o == if h.entered then Result else Error)
    && (IsPrompt(h.m, started, session) ==> o == if h.cancelled then Cancelled else if h.failed then Error else Result)
    && (h.m.verb != Verb(INITIALIZE) && h.m.verb != Verb(NEW) && !IsPrompt(h.m, started, session) ==> o == Error)
  }

  /** The answers are those that the requests among `hs` call for, in order. */
  predicate Conducted(hs: seq<Handled>, replied: seq<(Id, Outcome)>)
    decreases |hs|
  {
    if hs == [] then replied == [] else
    var most, h := hs[..|hs| - 1], hs[|hs| - 1];
    if !IsRequest(h.m) then Conducted(most, replied)
    else
      replied != [] &&
      var r := replied[|replied| - 1];
      r.0 == h.m.id && CallsFor(h, Started(most), Sessions(most), r.1) && Conducted(most, replied[..|replied| - 1])
  }

  lemma ConductedMore(hs: seq<Handled>, replied: seq<(Id, Outcome)>, h: Handled, o: Outcome)
    requires Conducted(hs, replied) && (IsRequest(h.m) ==> CallsFor(h, Started(hs), Sessions(hs), o))
    ensures Conducted(hs + [h], replied + if IsRequest(h.m) then [(h.m.id, o)] else [])
    ensures Started(hs + [h]) == (Started(hs) || (IsRequest(h.m) && h.m.verb == Verb(INITIALIZE)))
    ensures Sessions(hs + [h]) == Sessions(hs) + if IsRequest(h.m) && Opens(h.m, Started(hs), h.entered) then 1 else 0
  {
    var r := [(h.m.id, o)];
    assert (hs + [h])[..|hs|] == hs && (replied + r)[..|replied|] == replied && replied + [] == replied;
    hide CallsFor, IsRequest, Opens;
  }

  /** The server's run. Whatever the client sends, however it arrives, and whatever the model, the
      tools and the user do: every request in what was read is answered, once and in order, as it calls
      for, and no other id is; all input is read unless reading fails; every announced tool call is
      over; and no tool acted before its call was reported to run. */
  method Run(parse: Parser, input: seq<byte>, mode: Mode)
    returns (sent: seq<Out>, ghost got: seq<byte>, ghost broken: bool, ghost early: bool, ghost handled: seq<Handled>)
    ensures got <= input && (!broken ==> got == input)
    ensures Answered(sent) == OwedFor(parse, Stream.LinesOf(got))
    ensures Messages(handled) == DueFor(parse, Stream.LinesOf(got)) && Conducted(handled, Replied(sent))
    ensures forall s: nat, t: nat {:trigger History(sent, s, t)} :: History(sent, s, t) == [] || IsOver(History(sent, s, t))
    ensures exists last: nat :: FreshCalls(sent, last)
    ensures !early
  {
    var st := new Server(parse, input);
    handled := [];
    NothingHandled();
    hide *;
    while true
      invariant fresh(st) && st.Valid([]) && st.open == 0 && !st.early && !st.prompting
      invariant st.parse == parse && st.input == input
      invariant Messages(handled) == st.taken
      invariant Conducted(handled, st.replied) && Started(handled) == st.initialized && Sessions(handled) == st.session
      decreases st.Left()
    {
      var m, before, after := st.Next(-1, []);
      if m.None? { break; }
      ARequest(m.value);
      handled := HandleOne(st, m.value, mode, handled);
    }
    st.AllDone();
    sent, got, broken, early := st.sent, st.got, st.broken, st.early;
  }

  method HandleOne(st: Server, m: Msg, mode: Mode, ghost was: seq<Handled>) returns (ghost handled: seq<Handled>)
    requires st.Valid(OwedTo(m)) && !IsResponse(m) && st.open == 0 && !st.prompting
    requires Conducted(was, st.replied) && Started(was) == st.initialized && Sessions(was) == st.session
    modifies st
    ensures st.Valid([]) && st.open == 0 && !st.prompting && st.Left() <= old(st.Left()) && st.early == old(st.early)
    ensures st.taken == old(st.taken) && Messages(handled) == Messages(was) + [m]
    ensures Conducted(handled, st.replied) && Started(handled) == st.initialized && Sessions(handled) == st.session
  {
    hide Conducted, Started, Sessions, Messages, CarriedOut, ShownBy, CancelIn, OwedTo, Server.Valid;
    var entered, actions, failed, served := NextTurn();
    ghost var replied, lines := st.replied, |st.heard|;
    ghost var o, done;
    o, done := st.Dispatch(m, entered, actions, failed, mode, served);
    ghost var h := Handled(m, entered, failed, CancelIn(st.parse, st.heard, lines) || st.signalled);
    ConductedMore(was, replied, h, o);
    MessagesMore(was, h);
    handled := was + [h];
  }

  lemma NothingHandled()
    ensures Messages([]) == [] && Conducted([], []) && !Started([]) && Sessions([]) == 0
  {
  }

  lemma ARequest(m: Msg)
    requires Wanted(m, -1)
    ensures !IsResponse(m) && [] + OwedTo(m) == OwedTo(m)
  {
  }

  /** What the world does next. */
  method NextTurn() returns (entered: bool, actions: seq<Action>, failed: bool, served: bool) {
    entered, actions, failed, served := *, *, *, *;
  }

  /** The client gave a file's text. */
  predicate GaveText(r: Option<Msg>) { r.Some? && !r.value.error && r.value.content.Some? }

  /** Only the file tools know whether they leave the working directory. */
  predicate Away(use: Use) { (use.tool == Write || use.tool == Edit) && use.outside }

  function Listed(m: Option<Msg>): seq<Msg> { if m.Some? then [m.value] else [] }

  lemma Passed(before: seq<Msg>, after: seq<Msg>)
    requires after != []
    ensures (before + after)[|before|] == after[0]
    ensures (before + after)[..|before|] + (before + after)[|before| + 1..] == before + after[1..]
    ensures before + after == before + [after[0]] + after[1..]
  {
  }

  lemma UnwantedMore(ms: seq<Msg>, m: Msg, id: int)
    requires Unwanted(ms, id)
    ensures !Wanted(m, id) ==> Unwanted(ms + [m], id)
  {
  }

  lemma NoneUnwanted(id: int)
    ensures Unwanted([], id)
  {
  }

  lemma ResponseOwedNothing(m: Msg, id: int)
    ensures id < 0 && !Wanted(m, id) ==> OwedTo(m) == [] && IsResponse(m)
    ensures id >= 0 && Wanted(m, id) ==> OwedTo(m) == [] && IsResponse(m)
    ensures id < 0 ==> Due(m) == if Wanted(m, id) then [m] else []
  {
  }

  lemma Joined(dropped: seq<Msg>, before: seq<Msg>, m: seq<Msg>, after: seq<Msg>, id: int)
    requires Unwanted(dropped, id) && Unwanted(before, id)
    ensures Unwanted(dropped + before, id) && dropped + (before + m + after) == dropped + before + m + after
    ensures [] + before == before && dropped + before + [] + [] == dropped + before
  {
  }

  /** What a complete line adds to the queue. */
  function TakenAs(m: Option<Msg>, waiting: nat): (r: seq<Msg>) {
    if m.None? then (if waiting > 0 then [Broken(waiting)] else [])
    else if IsCancel(m.value) then []
    else [m.value]
  }

  function SentAs(m: Option<Msg>, waiting: nat): seq<Out> {
    if m.None? && waiting == 0 then [ParseError] else []
  }

  /** The failure made up for call `id` when the client sends what cannot be parsed. */
  function Broken(id: nat): Msg { Msg(NumId(id), NoVerb, None, true, None, None) }

  lemma TakenOwed(m: Option<Msg>, waiting: nat)
    ensures OwedIn(TakenAs(m, waiting)) == Owes(m)
  {
    var q := TakenAs(m, waiting);
    if |q| == 1 { assert q[..0] == [] && OwedIn([]) + OwedTo(q[0]) == OwedTo(q[0]); }
  }

  /** A line that has been looked at leaves the books balanced. */
  lemma BooksMore(
    parse: Parser, heard: seq<Text>, l: Text, sent: seq<Out>, queue: seq<Msg>, waiting: nat, serving: seq<Id>)
    requires Balanced(parse, heard, sent, serving, queue)
    ensures
      var m := parse(l);
      Balanced(parse, heard + [l], sent + SentAs(m, waiting), serving, queue + TakenAs(m, waiting))
  {
    var m := parse(l);
    hide OwedFor, Answered, OwedIn, SentAs, TakenAs, Owes;
    OwedForMore(parse, heard, l);
    OwedInConcat(queue, TakenAs(m, waiting));
    TakenOwed(m, waiting);
    NothingAnswered(sent, m, waiting);
    Associate(Answered(sent) + serving, OwedIn(queue), Owes(m));
  }

  lemma NothingAnswered(sent: seq<Out>, m: Option<Msg>, waiting: nat)
    ensures Answered(sent + SentAs(m, waiting)) == Answered(sent)
  {
    AnsweredMore(sent, ParseError);
    assert sent + [] == sent;
  }

  lemma TracedQuiet(sent: seq<Out>, replied: seq<(Id, Outcome)>, shown: seq<Out>, m: Option<Msg>, waiting: nat)
    requires Traced(sent, replied, shown)
    ensures Traced(sent + SentAs(m, waiting), replied, shown)
  {
    TracedMore(sent, replied, shown, ParseError);
    assert sent + [] == sent;
  }

  lemma SoundMore(
    sent: seq<Out>, last: nat, session: nat, calls: nat, open: nat, live: seq<Status>, m: Option<Msg>, waiting: nat)
    requires Honest(sent, last, session, calls, open, live)
    ensures Honest(sent + SentAs(m, waiting), last, session, calls, open, live)
  {
    HonestOther(sent, last, session, calls, open, live, ParseError);
    hide Honest;
    assert sent + [] == sent;
  }
}
