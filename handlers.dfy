/** What a request handler does, as a trace of events: the model calls it
    makes, then exactly one of a response (`res.status(s).send(b)` or
    `res.sendStatus(s)`) or a hand-over to the error middleware (`next(err)`).
    The model functions are uninterpreted: a `Backend` says how each call
    settles. A promise chain `m1().then(() => m2()).then(respond).catch(next)`
    becomes the sequence of those settled outcomes. */
module Handlers {
  import opened Js

  /** The Express request, reduced to what the handlers read. */
  datatype Request = Request(params: Props, query: Props, body: Props)

  /** A call into a model function, with its arguments. */
  datatype Call =
    | FetchArticleById(articleId: JsValue)
    | FetchAllArticles(topic: JsValue, order: JsValue, sortBy: JsValue)
    | EditArticleById(articleId: JsValue, incVotes: JsValue)
    | FetchCommentsOnArticle(articleId: JsValue)
    | CreateCommentOnArticle(articleId: JsValue, username: JsValue, body: JsValue)
    | CheckCommentExists(commentId: JsValue)
    | RemoveCommentById(commentId: JsValue)

  /** How each model call settles. */
  type Backend = Call -> Outcome

  /** One observable step of a handler. */
  datatype Event =
    | Invoke(call: Call)                     // a model function is called
    | Send(status: JsValue, body: JsValue)   // the call res.status(status).send(body)
    | SendStatus(status: JsValue)            // res.sendStatus(status)
    | Next(err: Props)                       // next(err)

  type Trace = seq<Event>

  /** An event that ends the handler's part in the request. */
  predicate IsTerminal(e: Event)
  {
    !e.Invoke?
  }

  function Terminals(t: Trace): nat
  {
    if t == [] then 0 else (if IsTerminal(t[0]) then 1 else 0) + Terminals(t[1..])
  }

  /** The handler ended the request exactly once, with its last event. */
  predicate Settled(t: Trace)
  {
    |t| > 0 && IsTerminal(t[|t| - 1]) && Terminals(t) == 1
  }

  predicate Invoked(t: Trace, c: Call)
  {
    Invoke(c) in t
  }

  /** The handler answered the client itself. */
  predicate Responded(t: Trace)
  {
    |t| > 0 && (t[|t| - 1].Send? || t[|t| - 1].SendStatus?)
  }

  /** The handler handed an error to `next`. */
  predicate Forwarded(t: Trace)
  {
    |t| > 0 && t[|t| - 1].Next?
  }

  /** How a handler answers a resolved chain. */
  datatype Reply =
    | Envelope(status: real, key: string)    // res.status(status).send({ [key]: value })
    | NoContent(status: real)                // res.sendStatus(status)

  function Respond(reply: Reply, v: JsValue): (e: Event)
    ensures IsTerminal(e) && !e.Next?
    ensures reply.Envelope? ==> e == Send(Num(reply.status), Obj(map[reply.key := v]))
    ensures reply.NoContent? ==> e == SendStatus(Num(reply.status))
  {
    match reply
    case Envelope(s, k) => Send(Num(s), Obj(map[k := v]))
    case NoContent(s) => SendStatus(Num(s))
  }

  /** Model calls followed by one terminal event make a settled trace. */
  lemma {:induction false} CallsThenEnd(calls: Trace, end: Event)
    requires forall i :: 0 <= i < |calls| ==> calls[i].Invoke?
    requires IsTerminal(end)
    ensures Settled(calls + [end])
    ensures Terminals(calls + [end]) == 1
  {
    if calls == [] {
      assert calls + [end] == [end];
    } else {
      assert (calls + [end])[1..] == calls[1..] + [end];
      CallsThenEnd(calls[1..], end);
    }
  }

  /** In a settled trace every event before the last is a model call, and the
      trace ends in exactly one of a response or `next`. */
  lemma SettledShape(t: Trace)
    requires Settled(t)
    ensures forall i :: 0 <= i < |t| - 1 ==> t[i].Invoke?
    ensures Responded(t) != Forwarded(t)
  {
    NoTerminalBefore(t);
  }

  lemma {:induction false} NoTerminalBefore(t: Trace)
    requires |t| > 0 && IsTerminal(t[|t| - 1]) && Terminals(t) == 1
    ensures forall i :: 0 <= i < |t| - 1 ==> t[i].Invoke?
  {
    if |t| > 1 {
      if IsTerminal(t[0]) {
        TerminalsCountsLast(t[1..]);
        assert false;
      }
      NoTerminalBefore(t[1..]);
      assert forall i :: 1 <= i < |t| - 1 ==> t[i] == t[1..][i - 1];
    }
  }

  lemma {:induction false} TerminalsCountsLast(t: Trace)
    requires |t| > 0 && IsTerminal(t[|t| - 1])
    ensures Terminals(t) >= 1
  {
    if !IsTerminal(t[0]) {
      TerminalsCountsLast(t[1..]);
    }
  }

  /** `action.then((v) => respond(v)).catch(next)`. */
  function Single(b: Backend, action: Call, reply: Reply): (t: Trace)
    ensures |t| == 2 && t[0] == Invoke(action) && Settled(t)
    ensures Responded(t) <==> b(action).Resolved?
    ensures b(action).Resolved? ==> t[1] == Respond(reply, b(action).value)
    ensures b(action).Rejected? ==> t[1] == Next(b(action).reason)
  {
    var end := match b(action)
      case Resolved(v) => Respond(reply, v)
      case Rejected(e) => Next(e);
    CallsThenEnd([Invoke(action)], end);
    [Invoke(action)] + [end]
  }

  /** `guard.then(() => action).then((v) => respond(v)).catch(next)`: the
      action runs only once the guard has resolved, and what is sent is the
      action's value; the guard's value is dropped. */
  function Guarded(b: Backend, guard: Call, action: Call, reply: Reply): (t: Trace)
    requires guard != action
    ensures |t| > 1 && t[0] == Invoke(guard) && Settled(t)
    ensures Invoked(t, action) <==> b(guard).Resolved?
    ensures Invoked(t, action) ==> t[1] == Invoke(action)
    ensures b(guard).Resolved? ==> |t| == 3
    ensures b(guard).Rejected? ==> t == [Invoke(guard), Next(b(guard).reason)]
    ensures Responded(t) <==> b(guard).Resolved? && b(action).Resolved?
    ensures Responded(t) ==> t[|t| - 1] == Respond(reply, b(action).value)
    ensures b(guard).Resolved? && b(action).Rejected? ==> t[|t| - 1] == Next(b(action).reason)
  {
    match b(guard)
    case Rejected(e) =>
      CallsThenEnd([Invoke(guard)], Next(e));
      [Invoke(guard)] + [Next(e)]
    case Resolved(_) =>
      var end := match b(action)
        case Resolved(v) => Respond(reply, v)
        case Rejected(e) => Next(e);
      CallsThenEnd([Invoke(guard), Invoke(action)], end);
      [Invoke(guard), Invoke(action)] + [end]
  }
}
