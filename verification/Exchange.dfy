/** One HTTP attempt: what the request loop sees of a transfer that arrives in arbitrary pieces. */
module Exchange {
  import opened Wrappers
  import opened Bytes
  import S = Stream
  import C = Conversation

  /** How a body that is no event stream reads. */
  type Reader = seq<byte> -> Option<C.Response>

  function CallsIn(calls: seq<S.Call>): seq<C.Call> {
    seq(|calls|, i requires 0 <= i < |calls| => C.Call(Some(calls[i].id), Some(calls[i].name), Some(calls[i].args)))
  }

  /** A rebuilt reply in the shape of a response. */
  function Rebuilt(r: S.Reply): C.Response {
    C.Response(Some(C.Reply(C.Assistant, r.content, CallsIn(r.calls), None)), r.finish)
  }

  /** The response carries the content, the calls, each with its id, its name and its arguments, and the
      reason to end that the events gave, as an assistant's. */
  predicate Carries(chunks: seq<S.Chunk>, r: C.Response) {
    var reply := S.ReplyOf(chunks);
    && S.Says(chunks, reply) && r.finish == reply.finish
    && r.message.Some? && r.message.value.role == C.Assistant && r.message.value.content == reply.content
    && |r.message.value.calls| == |reply.calls|
    && forall i :: 0 <= i < |reply.calls| ==>
      var c, d := r.message.value.calls[i], reply.calls[i];
      c.id == Some(d.id) && c.name == Some(d.name) && c.args == Some(d.args)
  }

  lemma RebuiltCarries(chunks: seq<S.Chunk>)
    ensures Carries(chunks, C.Streamed(Rebuilt(S.ReplyOf(chunks)))) && C.Streamed(Rebuilt(S.ReplyOf(chunks))) == Rebuilt(S.ReplyOf(chunks))
  {
    S.ReplySays(chunks);
    hide S.Says, S.ReplyOf;
  }

  /** The attempt that a transfer makes. One that is cut off for its size fails. */
  function AttemptOf(e: S.Ending, rc: C.Curl, status: int, words: bool, read: Reader): C.Attempt {
    match e
    case TooLarge(text) =>
      C.Attempt(C.Broken, status, false, false, false, false, text, true, words, Rebuilt(S.ReplyOf([])), None)
    case Ended(events, finish, done, error, text, raw, reply) =>
      C.Attempt(rc, status, events > 0, finish != [], done, error, text, false, words, Rebuilt(reply),
        if events > 0 then None else read(raw))
  }

  /** Whether a body that has arrived in full is a reply: no error among its events, and if there
      are events, a reason to end or the end mark. */
  predicate Complete(parse: S.Parser, body: seq<byte>) {
    var lines := S.AllLines(body);
    var chunks := S.ChunksOf(parse, lines);
    S.ErrorOf(chunks).None? && (chunks == [] || S.FinishOf(chunks) != [] || S.DoneIn(lines))
  }

  /** A reply is taken exactly when the transfer succeeded within the size limit and its body, in
      whatever pieces it came, is complete: then it is the reply that the events of the whole body
      rebuild, an assistant's, or without events the body as it reads. */
  method Perform(parse: S.Parser, read: Reader, pieces: seq<seq<byte>>, rc: C.Curl, status: int, words: bool)
    returns (t: C.Attempt)
    ensures t.oversize <==> |Concat(pieces)| > S.MAX_RESPONSE
    ensures C.Succeeded(t) <==> !t.oversize && rc == C.Fine && status == 200 && Complete(parse, Concat(pieces))
    ensures C.Succeeded(t) ==>
      var chunks := S.ChunksOf(parse, S.AllLines(Concat(pieces)));
      C.ResultOf(t) == if chunks != [] then Some(Rebuilt(S.ReplyOf(chunks))) else read(Concat(pieces))
    ensures
      var chunks := S.ChunksOf(parse, S.AllLines(Concat(pieces)));
      chunks != [] && C.Succeeded(t) ==> C.ResultOf(t).Some? && Carries(chunks, C.ResultOf(t).value)
  {
    RebuiltCarries(S.ChunksOf(parse, S.AllLines(Concat(pieces))));
    var e := S.Transfer(parse, pieces, status);
    hide S.AllLines, S.ChunksOf, S.DoneIn, S.FinishOf, S.ErrorOf, S.ReplyOf, Carries, Rebuilt, Concat;
    t := AttemptOf(e, rc, status, words, read);
  }
}
