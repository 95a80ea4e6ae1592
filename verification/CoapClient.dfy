/**
 The gateway's CoAP client: a table of requests and a table of armed timeouts.  A request is completed
 by a response with its token or by its timeout, and can be cancelled; callbacks may send and cancel.
 */
module CoapClient {
  import opened Machine

  /** The libcoap context of a request, which identifies it. */
  datatype Ctx = Ctx(address: nat)

  datatype Request = Request(session: nat, token: u32)

  datatype Kind = Reset | Class2 | Class4 | OtherClass

  /** What the callback is told. */
  datatype Status = RespReset | RespOk | RespNotFound | RespUnknown | RespTimeout

  datatype Record =
    | Created(ctx: Ctx, token: u32)
    | Completed(ctx: Ctx, status: Status, answer: Option<u32>)   // the token of the response, none for a timeout
    | Cancelled(ctx: Ctx)

  /** Looking up an absent context leaves an entry without a context behind: `None`. */
  datatype Client = Client(requests: map<Ctx, Option<Request>>, timeouts: set<Ctx>, watched: set<Ctx>,
                           token: u32, log: seq<Record>)

  /** What a callback may do. */
  datatype Op = Send(ctx: Ctx, session: nat, fdOk: bool) | Cancel(ctx: Ctx)

  datatype Event =
    | Do(op: Op)
    | Response(ctx: Ctx, session: nat, token: Option<u32>, kind: Kind, callback: seq<Op>)
    | Alarm(ctx: Ctx, callback: seq<Op>)
    | Schedule(ctx: Ctx)

  // ---------------------------------------------------------------- the client

  predicate Live(c: Client, ctx: Ctx)
  {
    ctx in c.requests && c.requests[ctx].Some?
  }

  /** The context was never used for a request. */
  predicate Fresh(c: Client, ctx: Ctx)
  {
    Fate(c.log, ctx) == Unborn
  }

  function NextToken(t: u32): u32
  {
    if t == 0xFFFF_FFFF then 0 else t + 1
  }

  /** sendRequest: the token is used up even when the request fails for want of a descriptor. */
  function Add(c: Client, ctx: Ctx, session: nat, fdOk: bool): Client
  {
    var d := c.(token := NextToken(c.token));
    if !fdOk then d
    else
      d.(requests := c.requests[ctx := Some(Request(session, c.token))], timeouts := c.timeouts + {ctx},
         watched := c.watched + {ctx}, log := c.log + [Created(ctx, c.token)])
  }

  function Erase(c: Client, ctx: Ctx): Client
  {
    c.(requests := c.requests - {ctx}, timeouts := c.timeouts - {ctx})
  }

  /** Contexts come from the allocator and are never given back: a used one is not handed out again. */
  function DoOp(c: Client, op: Op): Client
  {
    match op
    case Send(ctx, session, fdOk) => if Fresh(c, ctx) then Add(c, ctx, session, fdOk) else c
    case Cancel(ctx) => Erase(c.(log := c.log + [Cancelled(ctx)]), ctx)
  }

  function DoAll(c: Client, ops: seq<Op>): Client
  {
    if ops == [] then c else DoOp(DoAll(c, ops[..|ops| - 1]), ops[|ops| - 1])
  }

  function Touch(c: Client, ctx: Ctx): Client
  {
    if ctx in c.requests then c else c.(requests := c.requests[ctx := None])
  }

  function StatusOf(kind: Kind): Status
  {
    match kind case Reset => RespReset case Class2 => RespOk case Class4 => RespNotFound case OtherClass => RespUnknown
  }

  /** The response is the one the request waits for. */
  predicate Matches(c: Client, ctx: Ctx, session: nat, token: Option<u32>)
  {
    Live(c, ctx) && c.requests[ctx].value.session == session && token == Some(c.requests[ctx].value.token)
  }

  function Complete(c: Client, ctx: Ctx, status: Status, token: Option<u32>, callback: seq<Op>): Client
  {
    DoAll(c.(log := c.log + [Completed(ctx, status, token)]), callback)
  }

  function Step(c: Client, e: Event): Client
  {
    match e
    case Do(op) => DoOp(c, op)
    case Response(ctx, session, token, kind, callback) =>
      if Matches(c, ctx, session, token) then Erase(Complete(c, ctx, StatusOf(kind), token, callback), ctx)
      else Touch(c, ctx)
    case Alarm(ctx, callback) =>
      if ctx !in c.timeouts then c
      else if Live(c, ctx) then
        var d := Complete(c, ctx, RespTimeout, None, callback);
        Erase(d.(watched := d.watched - {ctx}), ctx)
      else
        var d := Touch(c, ctx);
        d.(timeouts := d.timeouts - {ctx})
    case Schedule(ctx) =>
      var d := Touch(c, ctx);
      if Live(c, ctx) then d else d.(watched := d.watched - {ctx})
  }

  const START := Client(map[], {}, {}, 0, [])

  function Run(es: seq<Event>): Client
  {
    if es == [] then START else Step(Run(es[..|es| - 1]), es[|es| - 1])
  }

  // ---------------------------------------------------------------- the life of one request

  /** What the record allows a request: created once, then completed once or cancelled. */
  datatype Life = Unborn | Waiting(token: u32) | Finished | Dropped | Violated

  function NextFate(f: Life, r: Record, ctx: Ctx): Life
  {
    if r.ctx != ctx then f
    else
      match r
      case Created(_, token) => if f == Unborn then Waiting(token) else Violated
      case Completed(_, status, token) =>
        if f.Waiting? && (if status == RespTimeout then token == None else token == Some(f.token)) then Finished
        else Violated
      case Cancelled(_) => if f.Waiting? then Dropped else f
  }

  function Fate(log: seq<Record>, ctx: Ctx): Life
  {
    if log == [] then Unborn else NextFate(Fate(log[..|log| - 1], ctx), log[|log| - 1], ctx)
  }

  lemma {:induction false} FateAppend(log: seq<Record>, r: Record, ctx: Ctx)
    ensures Fate(log + [r], ctx) == NextFate(Fate(log, ctx), r, ctx)
  {
    assert (log + [r])[..|log|] == log;
  }

  // ---------------------------------------------------------------- the invariant

  /** The request table, the timeouts, the watched descriptors and the record agree on one context. */
  ghost predicate Agrees(c: Client, ctx: Ctx)
  {
    && Fate(c.log, ctx) != Violated
    && (Live(c, ctx) ==> Fate(c.log, ctx) == Waiting(c.requests[ctx].value.token) && ctx in c.watched)
    && (Fate(c.log, ctx).Waiting? ==> Live(c, ctx))
    && (ctx in c.timeouts <==> Live(c, ctx))
  }

  /** While its callback runs, a completed request is still in both tables or was cancelled out of both. */
  ghost predicate Completing(c: Client, ctx: Ctx)
  {
    Fate(c.log, ctx) == Finished && (ctx in c.timeouts <==> Live(c, ctx))
  }

  ghost predicate AgreesBut(c: Client, x: Ctx, busy: Option<Ctx>)
  {
    if busy == Some(x) then Completing(c, x) else Agrees(c, x)
  }

  ghost predicate InvBut(c: Client, busy: Option<Ctx>)
  {
    forall x :: AgreesBut(c, x, busy)
  }

  ghost predicate Inv(c: Client)
  {
    InvBut(c, None)
  }

  lemma {:induction false} DoOpInv(c: Client, op: Op, busy: Option<Ctx>)
    requires InvBut(c, busy)
    ensures InvBut(DoOp(c, op), busy)
  {
    hide Fate;
    var d := DoOp(c, op);
    forall x ensures AgreesBut(d, x, busy) {
      assert AgreesBut(c, x, busy);
      match op
      case Send(ctx, session, fdOk) => FateAppend(c.log, Created(ctx, c.token), x);
      case Cancel(ctx) => FateAppend(c.log, Cancelled(ctx), x);
    }
  }

  lemma {:induction false} DoAllInv(c: Client, ops: seq<Op>, busy: Option<Ctx>)
    requires InvBut(c, busy)
    ensures InvBut(DoAll(c, ops), busy)
  {
    if ops != [] {
      DoAllInv(c, ops[..|ops| - 1], busy);
      DoOpInv(DoAll(c, ops[..|ops| - 1]), ops[|ops| - 1], busy);
    }
  }

  lemma {:induction false} CompleteInv(c: Client, ctx: Ctx, status: Status, token: Option<u32>, callback: seq<Op>)
    requires Inv(c) && Live(c, ctx)
    requires if status == RespTimeout then token == None else token == Some(c.requests[ctx].value.token)
    ensures InvBut(Complete(c, ctx, status, token, callback), Some(ctx))
  {
    var d := c.(log := c.log + [Completed(ctx, status, token)]);
    forall x ensures AgreesBut(d, x, Some(ctx)) {
      assert AgreesBut(c, x, None);
      FateAppend(c.log, Completed(ctx, status, token), x);
    }
    DoAllInv(d, callback, Some(ctx));
  }

  lemma {:induction false} EraseInv(c: Client, ctx: Ctx, watched: set<Ctx>)
    requires InvBut(c, Some(ctx)) && c.watched - {ctx} <= watched
    ensures Inv(Erase(c.(watched := watched), ctx))
  {
    var d := Erase(c.(watched := watched), ctx);
    forall x ensures AgreesBut(d, x, None) { assert AgreesBut(c, x, Some(ctx)); }
  }

  lemma {:induction false} TouchInv(c: Client, ctx: Ctx, watched: set<Ctx>)
    requires Inv(c) && (watched == c.watched || (watched == c.watched - {ctx} && !Live(c, ctx)))
    ensures Inv(Touch(c, ctx).(watched := watched))
  {
    var d := Touch(c, ctx).(watched := watched);
    forall x ensures AgreesBut(d, x, None) { assert AgreesBut(c, x, None); }
  }

  lemma {:induction false} StepInv(c: Client, e: Event)
    requires Inv(c)
    ensures Inv(Step(c, e))
  {
    match e
    case Do(op) => DoOpInv(c, op, None);
    case Response(ctx, session, token, kind, callback) =>
      if Matches(c, ctx, session, token) {
        var d := Complete(c, ctx, StatusOf(kind), token, callback);
        CompleteInv(c, ctx, StatusOf(kind), token, callback);
        EraseInv(d, ctx, d.watched);
      } else {
        TouchInv(c, ctx, c.watched);
      }
    case Alarm(ctx, callback) =>
      assert AgreesBut(c, ctx, None);
      if ctx in c.timeouts {
        var d := Complete(c, ctx, RespTimeout, None, callback);
        CompleteInv(c, ctx, RespTimeout, None, callback);
        EraseInv(d, ctx, d.watched - {ctx});
      }
    case Schedule(ctx) => TouchInv(c, ctx, if Live(c, ctx) then c.watched else c.watched - {ctx});
  }

  lemma {:induction false} RunInv(es: seq<Event>)
    ensures Inv(Run(es))
  {
    if es == [] {
      forall x ensures AgreesBut(START, x, None) { }
    } else {
      RunInv(es[..|es| - 1]);
      StepInv(Run(es[..|es| - 1]), es[|es| - 1]);
    }
  }

  // ---------------------------------------------------------------- theorems

  /** Between events the armed timeouts are exactly the live requests, and each of them is watched. */
  lemma {:induction false} TimeoutsAreLive(es: seq<Event>, ctx: Ctx)
    ensures ctx in Run(es).timeouts <==> Live(Run(es), ctx)
    ensures Live(Run(es), ctx) ==> ctx in Run(es).watched
  {
    RunInv(es);
    assert AgreesBut(Run(es), ctx, None);
  }

  function Completions(log: seq<Record>, ctx: Ctx): nat
  {
    if log == [] then 0
    else Completions(log[..|log| - 1], ctx) + if log[|log| - 1].Completed? && log[|log| - 1].ctx == ctx then 1 else 0
  }

  lemma {:induction false} FatePrefix(log: seq<Record>, ctx: Ctx, n: nat)
    requires Fate(log, ctx) != Violated && n <= |log|
    ensures Fate(log[..n], ctx) != Violated
  {
    if n == |log| {
      assert log[..n] == log;
    } else {
      FatePrefix(log[..|log| - 1], ctx, n);
      assert log[..|log| - 1][..n] == log[..n];
    }
  }

  lemma {:induction false} FateCounts(log: seq<Record>, ctx: Ctx)
    requires Fate(log, ctx) != Violated
    ensures Completions(log, ctx) == if Fate(log, ctx) == Finished then 1 else 0
  {
    if log != [] { FateCounts(log[..|log| - 1], ctx); }
  }

  /** The callback of a request runs at most once in any run; it ran exactly when the request is finished. */
  lemma {:induction false} OneCompletion(es: seq<Event>, ctx: Ctx)
    ensures Completions(Run(es).log, ctx) <= 1
    ensures Completions(Run(es).log, ctx) == 1 <==> Fate(Run(es).log, ctx) == Finished
  {
    RunInv(es);
    assert AgreesBut(Run(es), ctx, None);
    FateCounts(Run(es).log, ctx);
  }

  /** Every completion is of a request created before, by the response with its token or by its timeout. */
  lemma {:induction false} CompletionJustified(es: seq<Event>, i: nat)
    requires i < |Run(es).log| && Run(es).log[i].Completed?
    ensures var log := Run(es).log;
            var f := Fate(log[..i], log[i].ctx);
            && f.Waiting?
            && log[i].answer == if log[i].status == RespTimeout then None else Some(f.token)
  {
    RunInv(es);
    var log := Run(es).log;
    assert AgreesBut(Run(es), log[i].ctx, None);
    FatePrefix(log, log[i].ctx, i + 1);
    assert log[..i + 1][..i] == log[..i];
  }

  lemma {:induction false} NotWaitingAgain(log: seq<Record>, ctx: Ctx, n: nat)
    requires n <= |log| && Fate(log, ctx) != Violated && !Fate(log[..n], ctx).Waiting? && Fate(log[..n], ctx) != Unborn
    ensures Fate(log, ctx) == Fate(log[..n], ctx)
  {
    if n == |log| {
      assert log[..n] == log;
    } else {
      FatePrefix(log, ctx, |log| - 1);
      assert log[..|log| - 1][..n] == log[..n];
      NotWaitingAgain(log[..|log| - 1], ctx, n);
    }
  }

  /** After a cancellation of a request that was created, its callback is never executed. */
  lemma {:induction false} NoCompletionAfterCancel(es: seq<Event>, i: nat, j: nat)
    requires i < j < |Run(es).log| && Run(es).log[i].Cancelled? && Run(es).log[j].Completed?
    requires Fate(Run(es).log[..i], Run(es).log[i].ctx) != Unborn
    ensures Run(es).log[i].ctx != Run(es).log[j].ctx
  {
    var log, ctx := Run(es).log, Run(es).log[i].ctx;
    if log[j].ctx == ctx {
      RunInv(es);
      assert AgreesBut(Run(es), ctx, None);
      FatePrefix(log, ctx, i + 1);
      assert log[..i + 1][..i] == log[..i];
      FatePrefix(log, ctx, j);
      assert log[..j][..i + 1] == log[..i + 1];
      NotWaitingAgain(log[..j], ctx, i + 1);
      CompletionJustified(es, j);
      assert false;
    }
  }

  /** A live request always has its way out: its timeout completes it. */
  lemma {:induction false} TimeoutCompletes(es: seq<Event>, ctx: Ctx, callback: seq<Op>)
    requires Live(Run(es), ctx)
    ensures Fate(Run(es + [Alarm(ctx, callback)]).log, ctx) == Finished
    ensures ctx !in Run(es + [Alarm(ctx, callback)]).requests
  {
    var c := Run(es);
    RunInv(es);
    assert AgreesBut(c, ctx, None);
    assert (es + [Alarm(ctx, callback)])[..|es|] == es;
    CompleteInv(c, ctx, RespTimeout, None, callback);
    assert AgreesBut(Complete(c, ctx, RespTimeout, None, callback), ctx, Some(ctx));
  }
}
