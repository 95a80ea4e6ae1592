/**
 What each event does to the requests of the CoAP client, over every run: which callback it runs and what that
 is told, what it leaves alone, and that the operations of a callback take effect.
 */
module CoapClientEffects {
  import opened Machine
  import opened CoapClient

  // ---------------------------------------------------------------- what each event brings about

  lemma {:induction false} RunNext(es: seq<Event>, e: Event)
    ensures Run(es + [e]) == Step(Run(es), e)
  {
    hide Step;
    assert (es + [e])[..|es|] == es;
  }

  /** Operations only add to the record and to the descriptors watched. */
  lemma {:induction false} DoAllRecords(c: Client, ops: seq<Op>)
    ensures c.log <= DoAll(c, ops).log && c.watched <= DoAll(c, ops).watched
  {
    if ops != [] { DoAllRecords(c, ops[..|ops| - 1]); }
  }

  /** What the callback is told: a reset, a success, a client error or anything else. */
  predicate Tells(kind: Kind, status: Status)
  {
    || (kind == Reset && status == RespReset) || (kind == Class2 && status == RespOk)
    || (kind == Class4 && status == RespNotFound) || (kind == OtherClass && status == RespUnknown)
  }

  /**
   The response a live request waits for finishes it: its callback is told the outcome, first of all, and
   the request and its timeout are gone, whatever the callback does.  Its descriptor is still watched.
   */
  lemma {:induction false} ResponseCompletes(es: seq<Event>, ctx: Ctx, status: Status, kind: Kind, callback: seq<Op>)
    requires Live(Run(es), ctx) && Tells(kind, status)
    ensures var c := Run(es);
            var r := c.requests[ctx].value;
            var d := Run(es + [Response(ctx, r.session, Some(r.token), kind, callback)]);
            && c.log + [Completed(ctx, status, Some(r.token))] <= d.log
            && Fate(d.log, ctx) == Finished && ctx !in d.requests && ctx !in d.timeouts && ctx in d.watched
  {
    var c := Run(es);
    var r := c.requests[ctx].value;
    RunInv(es);
    assert AgreesBut(c, ctx, None);
    RunNext(es, Response(ctx, r.session, Some(r.token), kind, callback));
    CompleteInv(c, ctx, status, Some(r.token), callback);
    assert AgreesBut(Complete(c, ctx, status, Some(r.token), callback), ctx, Some(ctx));
    DoAllRecords(c.(log := c.log + [Completed(ctx, status, Some(r.token))]), callback);
  }

  /** A response to no live request, or with another session or token, completes nothing and changes nothing. */
  lemma {:induction false} ForeignResponse(es: seq<Event>, ctx: Ctx, session: nat, token: Option<u32>, kind: Kind,
                                           callback: seq<Op>)
    requires Live(Run(es), ctx) ==>
               session != Run(es).requests[ctx].value.session || token != Some(Run(es).requests[ctx].value.token)
    ensures var c, d := Run(es), Run(es + [Response(ctx, session, token, kind, callback)]);
            && d == c.(requests := d.requests)
            && forall x :: (Live(d, x) <==> Live(c, x)) && (Live(c, x) ==> d.requests[x] == c.requests[x])
  {
    RunNext(es, Response(ctx, session, token, kind, callback));
  }

  /** The timeout of a request: its callback is told so, and the descriptor is no longer watched. */
  lemma {:induction false} TimeoutRecords(es: seq<Event>, ctx: Ctx, callback: seq<Op>)
    requires Live(Run(es), ctx)
    ensures var c, d := Run(es), Run(es + [Alarm(ctx, callback)]);
            && c.log + [Completed(ctx, RespTimeout, None)] <= d.log
            && ctx !in d.requests && ctx !in d.timeouts && ctx !in d.watched
  {
    var c := Run(es);
    RunInv(es);
    assert AgreesBut(c, ctx, None);
    RunNext(es, Alarm(ctx, callback));
    DoAllRecords(c.(log := c.log + [Completed(ctx, RespTimeout, None)]), callback);
  }

  /** An alarm without a request, which a cancellation leaves behind, does nothing. */
  lemma {:induction false} LateAlarm(es: seq<Event>, ctx: Ctx, callback: seq<Op>)
    requires !Live(Run(es), ctx)
    ensures Run(es + [Alarm(ctx, callback)]) == Run(es)
  {
    RunInv(es);
    assert AgreesBut(Run(es), ctx, None);
    RunNext(es, Alarm(ctx, callback));
  }

  /**
   Sending on a context never used before makes a live request with the next token, an armed timeout and a
   watched descriptor; without a descriptor only the token is used up.
   */
  lemma {:induction false} SendStarts(es: seq<Event>, ctx: Ctx, session: nat, fdOk: bool)
    requires Fate(Run(es).log, ctx) == Unborn
    ensures var c, d := Run(es), Run(es + [Do(Send(ctx, session, fdOk))]);
            && d.token == (c.token + 1) % 0x1_0000_0000
            && if fdOk then
                 && Live(d, ctx) && d.requests == c.requests[ctx := Some(Request(session, c.token))]
                 && ctx in d.timeouts && ctx in d.watched && Fate(d.log, ctx) == Waiting(c.token)
               else d == c.(token := d.token)
  {
    hide Run, Fate, NextFate;
    RunNext(es, Do(Send(ctx, session, fdOk)));
    SendStep(Run(es), ctx, session, fdOk);
    if fdOk {
      FateAppend(Run(es).log, Created(ctx, Run(es).token), ctx);
      Born(ctx, Run(es).token);
    }
  }

  lemma {:induction false} Born(ctx: Ctx, token: u32)
    ensures NextFate(Unborn, Created(ctx, token), ctx) == Waiting(token)
  {
  }

  lemma {:induction false} SendStep(c: Client, ctx: Ctx, session: nat, fdOk: bool)
    requires Fate(c.log, ctx) == Unborn
    ensures var d := Step(c, Do(Send(ctx, session, fdOk)));
            && d.token == (c.token + 1) % 0x1_0000_0000
            && if fdOk then
                 && d.requests == c.requests[ctx := Some(Request(session, c.token))]
                 && ctx in d.timeouts && ctx in d.watched && d.log == c.log + [Created(ctx, c.token)]
               else d == c.(token := d.token)
  {
    hide Fate;
    NextTokenWraps(c.token);
  }

  lemma NextTokenWraps(t: u32)
    ensures NextToken(t) == (t + 1) % 0x1_0000_0000
  {
  }

  /** Cancelling takes the request and its timeout away and leaves every other request alone. */
  lemma {:induction false} CancelStops(es: seq<Event>, ctx: Ctx)
    ensures var c, d := Run(es), Run(es + [Do(Cancel(ctx))]);
            && !Live(d, ctx) && ctx !in d.timeouts && d.log == c.log + [Cancelled(ctx)] && d.token == c.token
            && forall x :: x != ctx ==>
                 (Live(d, x) <==> Live(c, x)) && (Live(c, x) ==> d.requests[x] == c.requests[x])
  {
    RunNext(es, Do(Cancel(ctx)));
  }

  /** After its descriptor was served, a request that is gone is no longer watched; a live one still is. */
  lemma {:induction false} UnwatchesFinished(es: seq<Event>, ctx: Ctx)
    ensures var c, d := Run(es), Run(es + [Schedule(ctx)]);
            && (ctx in d.watched <==> Live(c, ctx)) && d.watched - {ctx} == c.watched - {ctx}
            && d == c.(requests := d.requests, watched := d.watched)
            && forall x :: (Live(d, x) <==> Live(c, x)) && (Live(c, x) ==> d.requests[x] == c.requests[x])
  {
    RunInv(es);
    assert AgreesBut(Run(es), ctx, None);
    RunNext(es, Schedule(ctx));
  }

  // ---------------------------------------------------------------- callbacks

  /** The operations as events of their own. */
  function Apart(ops: seq<Op>): (es: seq<Event>)
    ensures |es| == |ops|
  {
    seq(|ops|, i requires 0 <= i < |ops| => Do(ops[i]))
  }

  /** The two clients differ at most in what they hold for `ctx`. */
  ghost predicate SameBut(c: Client, d: Client, ctx: Ctx)
  {
    && d.token == c.token
    && forall x :: x != ctx ==>
         && (x in d.requests <==> x in c.requests) && (x in c.requests ==> d.requests[x] == c.requests[x])
         && (x in d.timeouts <==> x in c.timeouts) && (x in d.watched <==> x in c.watched)
         && Fate(d.log, x) == Fate(c.log, x)
  }

  lemma {:induction false} FatesAppend(log: seq<Record>, r: Record)
    ensures forall x :: Fate(log + [r], x) == NextFate(Fate(log, x), r, x)
  {
    hide Fate, NextFate;
    forall x ensures Fate(log + [r], x) == NextFate(Fate(log, x), r, x) { FateAppend(log, r, x); }
  }

  lemma {:induction false} SameAfter(c: Client, d: Client, op: Op, ctx: Ctx)
    requires SameBut(c, d, ctx) && Fate(c.log, ctx) != Unborn && Fate(d.log, ctx) != Unborn
    ensures SameBut(DoOp(c, op), DoOp(d, op), ctx)
    ensures Fate(DoOp(c, op).log, ctx) != Unborn && Fate(DoOp(d, op).log, ctx) != Unborn
  {
    hide Fate;
    match op
    case Send(y, session, fdOk) =>
      FatesAppend(c.log, Created(y, c.token));
      FatesAppend(d.log, Created(y, d.token));
    case Cancel(y) =>
      FatesAppend(c.log, Cancelled(y));
      FatesAppend(d.log, Cancelled(y));
  }

  lemma {:induction false} ApartRun(es: seq<Event>, d: Client, ops: seq<Op>, ctx: Ctx)
    requires SameBut(Run(es), d, ctx) && Fate(Run(es).log, ctx) != Unborn && Fate(d.log, ctx) != Unborn
    ensures SameBut(Run(es + Apart(ops)), DoAll(d, ops), ctx)
    ensures Fate(Run(es + Apart(ops)).log, ctx) != Unborn && Fate(DoAll(d, ops).log, ctx) != Unborn
  {
    if ops == [] {
      assert es + Apart(ops) == es;
    } else {
      var init, op := ops[..|ops| - 1], ops[|ops| - 1];
      ApartLast(es, ops);
      hide Run, SameBut, Fate, DoOp, Apart, Step;
      ApartRun(es, d, init, ctx);
      RunNext(es + Apart(init), Do(op));
      ApartStep(es + Apart(init), op);
      DoAllNext(d, ops);
      SameAfter(Run(es + Apart(init)), DoAll(d, init), op, ctx);
    }
  }

  lemma {:induction false} DoAllNext(c: Client, ops: seq<Op>)
    requires ops != []
    ensures DoAll(c, ops) == DoOp(DoAll(c, ops[..|ops| - 1]), ops[|ops| - 1])
  {
    hide DoOp;
  }

  lemma {:induction false} ApartLast(es: seq<Event>, ops: seq<Op>)
    requires ops != []
    ensures es + Apart(ops) == (es + Apart(ops[..|ops| - 1])) + [Do(ops[|ops| - 1])]
  {
  }

  lemma {:induction false} ApartStep(es: seq<Event>, op: Op)
    ensures Step(Run(es), Do(op)) == DoOp(Run(es), op)
  {
    hide Run, DoOp;
  }

  /**
   What a callback sends and cancels takes effect: for every other context, the client is where it would be had
   the operations been called one after the other instead of the response.
   */
  lemma {:induction false} CallbackActs(es: seq<Event>, ctx: Ctx, kind: Kind, ops: seq<Op>)
    requires Live(Run(es), ctx)
    ensures var r := Run(es).requests[ctx].value;
            SameBut(Run(es + Apart(ops)), Run(es + [Response(ctx, r.session, Some(r.token), kind, ops)]), ctx)
  {
    var c := Run(es);
    var r := c.requests[ctx].value;
    RunInv(es);
    assert AgreesBut(c, ctx, None);
    var st := StatusOf(kind);
    var d := c.(log := c.log + [Completed(ctx, st, Some(r.token))]);
    RunNext(es, Response(ctx, r.session, Some(r.token), kind, ops));
    assert Step(c, Response(ctx, r.session, Some(r.token), kind, ops)) == Erase(DoAll(d, ops), ctx);
    hide Run, Fate, Step;
    FatesAppend(c.log, Completed(ctx, st, Some(r.token)));
    ApartRun(es, d, ops, ctx);
  }

  /** The same for the callback of a timeout. */
  lemma {:induction false} TimeoutCallbackActs(es: seq<Event>, ctx: Ctx, ops: seq<Op>)
    requires Live(Run(es), ctx)
    ensures SameBut(Run(es + Apart(ops)), Run(es + [Alarm(ctx, ops)]), ctx)
  {
    var c := Run(es);
    RunInv(es);
    assert AgreesBut(c, ctx, None);
    var d := c.(log := c.log + [Completed(ctx, RespTimeout, None)]);
    RunNext(es, Alarm(ctx, ops));
    var t := DoAll(d, ops);
    assert Step(c, Alarm(ctx, ops)) == Erase(t.(watched := t.watched - {ctx}), ctx);
    hide Run, Fate, Step;
    FatesAppend(c.log, Completed(ctx, RespTimeout, None));
    ApartRun(es, d, ops, ctx);
  }
}
