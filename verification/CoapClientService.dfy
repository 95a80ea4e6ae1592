/**
 The CoAP client as an object over its two tables.
 */
module CoapClientService {
  import opened Machine
  import opened CoapClient

  /** Every context a callback sends on is new at that moment. */
  ghost predicate AllFresh(c: Client, ops: seq<Op>)
  {
    ops != [] ==>
      var init, last := ops[..|ops| - 1], ops[|ops| - 1];
      AllFresh(c, init) && (last.Send? ==> Fresh(DoAll(c, init), last.ctx))
  }

  lemma {:induction false} AllFreshAt(c: Client, ops: seq<Op>, i: nat)
    requires AllFresh(c, ops) && i < |ops|
    ensures ops[i].Send? ==> Fresh(DoAll(c, ops[..i]), ops[i].ctx)
  {
    if i < |ops| - 1 {
      AllFreshAt(c, ops[..|ops| - 1], i);
      assert ops[..|ops| - 1][..i] == ops[..i];
    }
  }

  class AtlasCoapClient {
    var requests: map<Ctx, Option<Request>>
    var timeouts: set<Ctx>
    var scheduled: set<Ctx>
    var token: u32
    ghost var log: seq<Record>

    ghost function Abs(): Client
      reads this
    {
      Client(requests, timeouts, scheduled, token, log)
    }

    constructor ()
      ensures Abs() == START
    {
      requests, timeouts, scheduled, token, log := map[], {}, {}, 0, [];
    }

    /** Arm the timeout, then add the request and its descriptor. */
    method AddRequest(ctx: Ctx, session: nat, t: u32)
      modifies this`requests, this`timeouts, this`scheduled, this`log
      ensures Abs() == old(Abs()).(requests := old(requests)[ctx := Some(Request(session, t))],
                                   timeouts := old(timeouts) + {ctx}, watched := old(scheduled) + {ctx},
                                   log := old(log) + [Created(ctx, t)])
    {
      timeouts := timeouts + {ctx};
      requests := requests[ctx := Some(Request(session, t))];
      scheduled := scheduled + {ctx};
      log := log + [Created(ctx, t)];
    }

    /** `fdOk` says whether the new context has a descriptor. */
    method SendRequest(ctx: Ctx, session: nat, fdOk: bool) returns (sent: bool)
      requires Fresh(Abs(), ctx)
      modifies this
      ensures Abs() == Step(old(Abs()), Do(Send(ctx, session, fdOk))) && sent == fdOk
    {
      var t := token;
      token := NextToken(token);
      if !fdOk {
        return false;
      }
      AddRequest(ctx, session, t);
      return true;
    }

    /** Cancelling nothing does nothing. */
    method CancelRequest(context: Option<Ctx>)
      modifies this`requests, this`timeouts, this`log
      ensures Abs() == if context.None? then old(Abs()) else Step(old(Abs()), Do(Cancel(context.value)))
    {
      if context.None? {
        return;
      }
      var ctx := context.value;
      log := log + [Cancelled(ctx)];
      requests := requests - {ctx};
      timeouts := timeouts - {ctx};
    }

    /** The application's callback: it is recorded, and whatever it sends or cancels is done. */
    method RunCallback(ctx: Ctx, status: Status, ghost answer: Option<u32>, ops: seq<Op>)
      requires AllFresh(Abs().(log := log + [Completed(ctx, status, answer)]), ops)
      modifies this
      ensures Abs() == Complete(old(Abs()), ctx, status, answer, ops)
    {
      log := log + [Completed(ctx, status, answer)];
      ghost var c := Abs();
      for i := 0 to |ops|
        invariant Abs() == DoAll(c, ops[..i])
      {
        AllFreshAt(c, ops, i);
        assert ops[..i + 1][..i] == ops[..i];
        match ops[i]
        case Send(x, session, fdOk) => var _ := SendRequest(x, session, fdOk);
        case Cancel(x) => CancelRequest(Some(x));
      }
      assert ops[..|ops|] == ops;
    }

    /** The entry of a context; the map access makes one if there is none. */
    method Lookup(ctx: Ctx) returns (req: Option<Request>)
      modifies this`requests
      ensures Abs() == Touch(old(Abs()), ctx) && ctx in requests && req == requests[ctx]
    {
      if ctx !in requests {
        requests := requests[ctx := None];
      }
      req := requests[ctx];
    }

    /** `received` is the token of the response, if it has the right length. */
    method MessageProcess(ctx: Ctx, session: nat, received: Option<u32>, kind: Kind, callback: seq<Op>)
      requires Matches(Abs(), ctx, session, received) ==>
                 AllFresh(Abs().(log := log + [Completed(ctx, StatusOf(kind), received)]), callback)
      modifies this
      ensures Abs() == Step(old(Abs()), Response(ctx, session, received, kind, callback))
    {
      var req := Lookup(ctx);
      if req.None? || req.value.session != session {
        return;
      }
      if received != Some(req.value.token) {
        return;
      }
      RunCallback(ctx, StatusOf(kind), received, callback);
      requests := requests - {ctx};
      timeouts := timeouts - {ctx};
    }

    /** Called by an armed timeout. */
    method AlarmCallback(ctx: Ctx, callback: seq<Op>)
      requires ctx in timeouts
      requires Live(Abs(), ctx) ==> AllFresh(Abs().(log := log + [Completed(ctx, RespTimeout, None)]), callback)
      modifies this
      ensures Abs() == Step(old(Abs()), Alarm(ctx, callback))
    {
      var req := Lookup(ctx);
      if req.Some? {
        RunCallback(ctx, RespTimeout, None, callback);
        scheduled := scheduled - {ctx};
        requests := requests - {ctx};
      }
      timeouts := timeouts - {ctx};
    }

    /** After libcoap has processed the descriptor: stop watching it if the request is gone. */
    method ScheduleCallback(ctx: Ctx)
      modifies this`requests, this`scheduled
      ensures Abs() == Step(old(Abs()), Schedule(ctx))
    {
      var req := Lookup(ctx);
      if req.None? {
        scheduled := scheduled - {ctx};
      }
    }
  }
}
