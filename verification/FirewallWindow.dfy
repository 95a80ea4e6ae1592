/**
 The rate limit of a rule over whole runs, between two window starts.

 A rule is replaced whenever its install message arrives, and the window counter starts again with the
 new policer.  What a window lets through is therefore bounded by the limits of all policers it has
 seen, and by the limit of the policy exactly when no policer is replaced or lost after it has passed
 a packet.
 */
module FirewallWindow {
  import opened Machine
  import opened Sequences
  import opened PacketPolicer
  import opened FirewallModel
  import opened FirewallTheorems

  // ---------------------------------------------------------------- what a step does to one rule

  /** The plug-in takes the next message. */
  predicate Delivers(w: World, e: Event)
  {
    e.PluginReceives? && (w.link == Up || w.link == Broken) && w.toPlugin != []
  }

  /** All rules are forgotten. */
  predicate Clears(w: World, e: Event)
  {
    e.PluginRestarts? || (e.PluginNotices? && w.link == Broken)
  }

  lemma {:induction false} OtherEvents(w: World, e: Event)
    requires !e.WindowStarts? && !e.PacketArrives? && !Delivers(w, e) && !Clears(w, e)
    ensures Step(w, e).rules == w.rules
  {
    hide Enumerates, Finds, Installs;
  }

  lemma {:induction false} ClearedRules(w: World, e: Event)
    requires Clears(w, e)
    ensures Step(w, e).rules == map[]
  {
  }

  lemma {:induction false} StepDelivers(w: World, e: Event)
    requires Delivers(w, e)
    ensures Step(w, e) == PluginReceive(w)
  {
    hide PluginReceive;
  }

  /** The message takes the policer of `dst` away or puts a new one in its place. */
  predicate Replaces(m: ToPlugin, dst: Id)
  {
    match m
    case Install(p) => p.clientId == dst && dst.name != []
    case Remove(id) => id == dst && dst.name != []
    case GetStat(_, _, _) => false
  }

  lemma {:induction false} DeliveredInstall(w: World, e: Event, dst: Id)
    requires Delivers(w, e) && w.toPlugin[0].Install?
    ensures var v, p := Step(w, e), w.toPlugin[0].policy;
            if Replaces(w.toPlugin[0], dst) then
              dst in v.rules && v.rules[dst] == NewPolicer(p.qos, p.ppm, p.payloadLen)
            else SameRule(w, v, dst)
  {
    var p := w.toPlugin[0].policy;
    assert PluginReceive(w).rules == if p.clientId.name == [] then w.rules
                                     else w.rules[p.clientId := NewPolicer(p.qos, p.ppm, p.payloadLen)];
    hide Step, PluginReceive;
    StepDelivers(w, e);
  }

  lemma {:induction false} DeliveredRemove(w: World, e: Event, dst: Id)
    requires Delivers(w, e) && w.toPlugin[0].Remove?
    ensures if Replaces(w.toPlugin[0], dst) then dst !in Step(w, e).rules else SameRule(w, Step(w, e), dst)
  {
    var id := w.toPlugin[0].id;
    assert PluginReceive(w).rules == if id.name == [] then w.rules else w.rules - {id};
    hide Step, PluginReceive;
    StepDelivers(w, e);
  }

  lemma {:induction false} TouchedRules(w: World, id: Id, garbage: Policer)
    ensures TouchRule(w, id, garbage).rules == if id in w.rules then w.rules else w.rules[id := garbage]
  {
    hide Plus;
  }

  lemma {:induction false} ReportRules(w: World, id: Id, garbage: Policer)
    requires id.name != []
    ensures ReportStats(w, id, garbage).rules ==
            w.rules[id := (if id in w.rules then w.rules[id] else garbage).(dropped := 0, passed := 0)]
  {
    hide TouchRule, WriteStats, RuleCounts, TxCounts, Plus;
    TouchedRules(w, id, garbage);
    assert ReportStats(w, id, garbage).rules == ClearStats(TouchRule(w, id, garbage), id).rules;
  }

  /** A statistics request clears the packet counts and creates a missing policer, nothing else. */
  lemma {:induction false} DeliveredRequest(w: World, e: Event, dst: Id)
    requires Delivers(w, e) && w.toPlugin[0].GetStat?
    ensures var v, m := Step(w, e), w.toPlugin[0];
            if m.id == dst && dst.name != [] then
              && dst in v.rules
              && v.rules[dst] == (if dst in w.rules then w.rules[dst] else m.garbage).(dropped := 0, passed := 0)
            else SameRule(w, v, dst)
  {
    var m, u := w.toPlugin[0], w.(toPlugin := w.toPlugin[1..]);
    assert PluginReceive(w) == ReportStats(u, m.id, m.garbage) && (m.id.name == [] ==> PluginReceive(w) == u);
    hide Step, PluginReceive, ReportStats;
    StepDelivers(w, e);
    if m.id.name != [] { ReportRules(u, m.id, m.garbage); }
  }

  // ---------------------------------------------------------------- the bound

  /** A packet to `dst` is let through by its rule. */
  predicate Lets(w: World, e: Event, dst: Id)
  {
    e.PacketArrives? && e.dst == dst && dst in w.rules && FilterPacket(w.rules[dst], e.pkt).1
  }

  /** The packets to `dst` that its rule lets through in a run. */
  function Passed(w: World, es: seq<Event>, dst: Id): nat
  {
    if es == [] then 0
    else Passed(w, es[..|es| - 1], dst) + if Lets(Run(w, es[..|es| - 1]), es[|es| - 1], dst) then 1 else 0
  }

  /** How many packets a policer can still let through in this window. */
  function Left(p: Policer): nat
  {
    if p.windowPpm < p.ppm then p.ppm - p.windowPpm else 0
  }

  function LeftOf(w: World, dst: Id): nat
  {
    if dst in w.rules then Left(w.rules[dst]) else 0
  }

  /** What the policer a step puts in place for `dst` can let through. */
  function Grant(w: World, e: Event, dst: Id): nat
  {
    if !Delivers(w, e) then 0
    else
      match w.toPlugin[0]
      case Install(p) => if Replaces(w.toPlugin[0], dst) then p.ppm else 0
      case Remove(_) => 0
      case GetStat(id, garbage, _) => if id == dst && dst.name != [] && dst !in w.rules then Left(garbage) else 0
  }

  function Granted(w: World, es: seq<Event>, dst: Id): nat
  {
    if es == [] then 0
    else Granted(w, es[..|es| - 1], dst) + Grant(Run(w, es[..|es| - 1]), es[|es| - 1], dst)
  }

  /** The 32-bit window counter of `dst` is about to wrap. */
  predicate Wraps(w: World, e: Event, dst: Id)
  {
    e.PacketArrives? && e.dst == dst && dst in w.rules && w.rules[dst].windowPpm == 0xFFFF_FFFF
  }

  /** No window starts, and the window counter of `dst` does not wrap. */
  ghost predicate InWindow(w: World, es: seq<Event>, dst: Id)
  {
    es != [] ==>
      var init, e := es[..|es| - 1], es[|es| - 1];
      InWindow(w, init, dst) && !e.WindowStarts? && !Wraps(Run(w, init), e, dst)
  }

  lemma {:induction false} FilterLeft(p: Policer, pkt: Packet)
    requires p.windowPpm != 0xFFFF_FFFF
    ensures var r := FilterPacket(p, pkt);
            && Left(r.0) + (if r.1 then 1 else 0) <= Left(p)
            && (Conforms(p, pkt) ==> Left(r.0) + (if r.1 then 1 else 0) == Left(p))
  {
  }

  /** A step lets through no more than it takes from what is left. */
  lemma {:induction false} StepBound(w: World, e: Event, dst: Id)
    requires !e.WindowStarts? && !Wraps(w, e, dst)
    ensures LeftOf(Step(w, e), dst) + (if Lets(w, e, dst) then 1 else 0) <= LeftOf(w, dst) + Grant(w, e, dst)
  {
    hide Step, FilterPacket;
    if e.PacketArrives? {
      PacketRule(w, e, dst);
      if dst in w.rules && e.dst == dst { FilterLeft(w.rules[dst], e.pkt); }
    } else if Delivers(w, e) {
      match w.toPlugin[0]
      case Install(p) => DeliveredInstall(w, e, dst);
      case Remove(_) => DeliveredRemove(w, e, dst);
      case GetStat(_, _, _) => DeliveredRequest(w, e, dst);
    } else if Clears(w, e) {
      ClearedRules(w, e);
    } else {
      OtherEvents(w, e);
    }
  }

  /**
   For every run within a window, whatever else happens in it: the packets to `dst` let through, and
   those its rule can still let through, are no more than what was left at the start and the limits of
   the policers put in place since.
   */
  lemma {:induction false} WindowBound(w: World, es: seq<Event>, dst: Id)
    requires InWindow(w, es, dst)
    ensures Passed(w, es, dst) + LeftOf(Run(w, es), dst) <= LeftOf(w, dst) + Granted(w, es, dst)
  {
    hide Step, Lets, Grant, LeftOf, Wraps;
    if es != [] {
      WindowBound(w, es[..|es| - 1], dst);
      StepBound(Run(w, es[..|es| - 1]), es[|es| - 1], dst);
    }
  }

  /** The same from a window start on. */
  lemma {:induction false} WindowStartBound(w: World, es: seq<Event>, dst: Id)
    requires InWindow(Step(w, WindowStarts), es, dst)
    ensures Passed(Step(w, WindowStarts), es, dst) <=
            (if dst in w.rules then w.rules[dst].ppm else 0) + Granted(Step(w, WindowStarts), es, dst)
  {
    hide Passed, Granted, InWindow;
    WindowBound(Step(w, WindowStarts), es, dst);
  }

  // ---------------------------------------------------------------- when the limit of the policy is kept

  /** The step takes the policer of `dst` away or puts a new one in its place. */
  predicate Renews(w: World, e: Event, dst: Id)
  {
    Clears(w, e) || (Delivers(w, e) && Replaces(w.toPlugin[0], dst))
  }

  /** The step is one in which the only policy of its device is `p` and packets to it conform. */
  predicate Plain(w: World, e: Event, p: Policy)
  {
    && !e.WindowStarts?
    && (e.PacketArrives? && e.dst == p.clientId ==> e.pkt.qos <= p.qos % 256 && e.pkt.payloadLen <= p.payloadLen)
    && (Delivers(w, e) && w.toPlugin[0].Install? && w.toPlugin[0].policy.clientId == p.clientId ==>
          w.toPlugin[0].policy == p)
    && (Delivers(w, e) && w.toPlugin[0].GetStat? && w.toPlugin[0].id == p.clientId ==> p.clientId in w.rules)
  }

  ghost predicate AllPlain(w: World, es: seq<Event>, p: Policy)
  {
    es != [] ==> AllPlain(w, es[..|es| - 1], p) && Plain(Run(w, es[..|es| - 1]), es[|es| - 1], p)
  }

  /** The rule of `p`, if there is one, is its policer after at most `n` packets in this window. */
  predicate RuleIs(w: World, p: Policy, n: nat)
  {
    p.clientId in w.rules ==>
      RuleOfPolicer(w.rules[p.clientId]) == RuleOf(p) && w.rules[p.clientId].windowPpm <= n
  }

  /** What is left of the policy: a rule that is gone comes back with the whole limit. */
  function LeftOfPolicy(w: World, p: Policy): nat
  {
    if p.clientId in w.rules then Left(w.rules[p.clientId]) else p.ppm
  }

  lemma {:induction false} FilterRule(q: Policer, pkt: Packet)
    ensures var r := FilterPacket(q, pkt).0;
            RuleOfPolicer(r) == RuleOfPolicer(q) && r.windowPpm <= q.windowPpm + 1
  {
  }

  /** A plain step keeps what is let through and what is left together, unless it renews the policer. */
  lemma {:induction false} PlainStep(w: World, e: Event, p: Policy, n: nat)
    requires p.clientId.name != [] && Plain(w, e, p) && RuleIs(w, p, n) && n < 0xFFFF_FFFF
    ensures var v, dst := Step(w, e), p.clientId;
            && RuleIs(v, p, n + 1)
            && (if Renews(w, e, dst) then !Lets(w, e, dst) && LeftOfPolicy(v, p) == p.ppm
                else LeftOfPolicy(v, p) + (if Lets(w, e, dst) then 1 else 0) == LeftOfPolicy(w, p))
  {
    hide Step, FilterPacket;
    var dst := p.clientId;
    if e.PacketArrives? {
      PacketRule(w, e, dst);
      if dst in w.rules && e.dst == dst {
        FilterLeft(w.rules[dst], e.pkt);
        FilterRule(w.rules[dst], e.pkt);
      }
    } else if Delivers(w, e) {
      match w.toPlugin[0]
      case Install(_) => DeliveredInstall(w, e, dst);
      case Remove(_) => DeliveredRemove(w, e, dst);
      case GetStat(_, _, _) => DeliveredRequest(w, e, dst);
    } else if Clears(w, e) {
      ClearedRules(w, e);
    } else {
      OtherEvents(w, e);
    }
  }

  /** No policer of `dst` is replaced or lost after a packet was let through. */
  ghost predicate Undisturbed(w: World, es: seq<Event>, dst: Id)
  {
    es != [] ==>
      var init := es[..|es| - 1];
      Undisturbed(w, init, dst) && (Renews(Run(w, init), es[|es| - 1], dst) ==> Passed(w, init, dst) == 0)
  }

  /** A window has just started for the rule of `p`. */
  predicate Fresh(w: World, p: Policy)
  {
    p.clientId.name != [] && RuleIs(w, p, 0)
  }

  lemma {:induction false} PlainRun(w: World, es: seq<Event>, p: Policy)
    requires Fresh(w, p) && AllPlain(w, es, p) && |es| < 0x1_0000_0000
    ensures RuleIs(Run(w, es), p, |es|)
    ensures var all := Passed(w, es, p.clientId) + LeftOfPolicy(Run(w, es), p);
            && all >= p.ppm
            && (all > p.ppm ==> Passed(w, es, p.clientId) > 0)
            && (all == p.ppm <==> Undisturbed(w, es, p.clientId))
  {
    hide Step, Lets, Plain, Renews;
    if es != [] {
      var init, e := es[..|es| - 1], es[|es| - 1];
      PlainRun(w, init, p);
      hide RuleIs, LeftOfPolicy;
      PlainStep(Run(w, init), e, p, |init|);
    }
  }

  /** More packets to `dst`, and nothing else. */
  ghost predicate Packets(ts: seq<Event>, dst: Id)
  {
    forall i :: 0 <= i < |ts| ==> ts[i].PacketArrives? && ts[i].dst == dst
  }

  lemma {:induction false} PassedConcat(w: World, es: seq<Event>, ts: seq<Event>, dst: Id)
    ensures Run(w, es + ts) == Run(Run(w, es), ts)
    ensures Passed(w, es + ts, dst) == Passed(w, es, dst) + Passed(Run(w, es), ts, dst)
  {
    assert Run(Run(w, es), []) == Run(w, es) && Passed(Run(w, es), [], dst) == 0;
    hide Step, Lets;
    if ts == [] {
      Empty(es);
    } else {
      var init, e := ts[..|ts| - 1], ts[|ts| - 1];
      PassedConcat(w, es, init, dst);
      DropLast(ts);
      Assoc(es, init, [e]);
      TakeAppend(es + init, e);
    }
  }

  /** Packets alone put no policer in place. */
  lemma {:induction false} PacketsInWindow(w: World, ts: seq<Event>, p: Policy, n: nat)
    requires RuleIs(w, p, n) && Packets(ts, p.clientId) && n + |ts| < 0x1_0000_0000
    ensures InWindow(w, ts, p.clientId) && Granted(w, ts, p.clientId) == 0 && RuleIs(Run(w, ts), p, n + |ts|)
  {
    hide Step, FilterPacket;
    if ts != [] {
      var init, e := ts[..|ts| - 1], ts[|ts| - 1];
      PacketsInWindow(w, init, p, n);
      var u := Run(w, init);
      PacketRule(u, e, p.clientId);
      if p.clientId in u.rules { FilterRule(u.rules[p.clientId], e.pkt); }
    }
  }

  /** `n` packets that conform to every policy. */
  function Fill(dst: Id, n: nat): (ts: seq<Event>)
    ensures |ts| == n
    ensures forall i :: 0 <= i < n ==> ts[i] == PacketArrives(dst, None, Packet(0, 0))
  {
    seq(n, i => PacketArrives(dst, None, Packet(0, 0)))
  }

  /** What is left can be used. */
  lemma {:induction false} FillPasses(w: World, dst: Id, n: nat)
    requires dst in w.rules && n <= Left(w.rules[dst])
    ensures var v := Run(w, Fill(dst, n));
            Passed(w, Fill(dst, n), dst) == n && dst in v.rules && Left(v.rules[dst]) == Left(w.rules[dst]) - n
  {
    hide Step, FilterPacket;
    if n > 0 {
      FillPasses(w, dst, n - 1);
      var ts := Fill(dst, n);
      assert ts[..n - 1] == Fill(dst, n - 1);
      var u := Run(w, Fill(dst, n - 1));
      PacketRule(u, ts[n - 1], dst);
      NextLets(u.rules[dst]);
    }
  }

  lemma {:induction false} NextLets(p: Policer)
    requires Left(p) > 0
    ensures FilterPacket(p, Packet(0, 0)).1 && Left(FilterPacket(p, Packet(0, 0)).0) == Left(p) - 1
  {
  }

  lemma {:induction false} LeftAtMost(q: Policer)
    ensures Left(q) <= q.ppm
  {
  }

  /** Whatever packets follow, no more than the limit is let through in this window. */
  ghost predicate StaysWithin(w: World, es: seq<Event>, p: Policy)
  {
    forall ts :: Packets(ts, p.clientId) && |ts| <= p.ppm ==> Passed(w, es + ts, p.clientId) <= p.ppm
  }

  /**
   Whatever has happened in a window, conforming packets or not: the limit will hold for whatever packets
   follow if and only if those let through and those the rule can still let through are within it.
   */
  lemma {:induction false} MostInWindow(w: World, es: seq<Event>, p: Policy, n: nat)
    requires p.clientId in Run(w, es).rules && RuleIs(Run(w, es), p, n) && n + p.ppm < 0x1_0000_0000
    ensures StaysWithin(w, es, p) <==> Passed(w, es, p.clientId) + LeftOfPolicy(Run(w, es), p) <= p.ppm
  {
    hide Run, Step, Passed, Granted, InWindow, Fill, Left;
    var v, dst := Run(w, es), p.clientId;
    if Passed(w, es, dst) + LeftOfPolicy(v, p) <= p.ppm {
      forall ts | Packets(ts, dst) && |ts| <= p.ppm ensures Passed(w, es + ts, dst) <= p.ppm {
        PassedConcat(w, es, ts, dst);
        PacketsInWindow(v, ts, p, n);
        WindowBound(v, ts, dst);
      }
    } else {
      LeftAtMost(v.rules[dst]);
      var ts := Fill(dst, Left(v.rules[dst]));
      PassedConcat(w, es, ts, dst);
      FillPasses(v, dst, Left(v.rules[dst]));
      assert Passed(w, es + ts, dst) > p.ppm;
    }
  }

  /**
   The limit of the policy holds in a window, for whatever packets follow, if and only if no policer of
   the device was replaced or lost after it had let a packet through.
   */
  lemma {:induction false} WindowLimitExact(w: World, es: seq<Event>, p: Policy)
    requires Fresh(w, p) && AllPlain(w, es, p) && |es| + p.ppm < 0x1_0000_0000 && p.clientId in Run(w, es).rules
    ensures StaysWithin(w, es, p) <==> Undisturbed(w, es, p.clientId)
  {
    hide Run, Passed, AllPlain, Undisturbed, StaysWithin, RuleIs, LeftOfPolicy;
    PlainRun(w, es, p);
    MostInWindow(w, es, p, |es|);
  }

  // ---------------------------------------------------------------- a client that repeats its request

  /** Connected, nothing on the way, and the policy `p` at the gateway. */
  predicate Serving(w: World, p: Policy)
  {
    && w.link == Up && w.toPlugin == [] && p.clientId.name != []
    && p.clientId in w.devices && w.devices[p.clientId].registered && w.devices[p.clientId].policy == Some(p)
  }

  lemma {:induction false} PacketsServe(w: World, ts: seq<Event>, p: Policy)
    requires Serving(w, p) && Packets(ts, p.clientId)
    ensures Serving(Run(w, ts), p)
  {
    hide Filter;
    if ts != [] {
      var u, e := Run(w, ts[..|ts| - 1]), ts[|ts| - 1];
      PacketsServe(w, ts[..|ts| - 1], p);
      PacketFrame(u, e);
    }
  }

  lemma {:induction false} PacketFrame(w: World, e: Event)
    requires e.PacketArrives?
    ensures Step(w, e) == w.(rules := Step(w, e).rules, tx := Step(w, e).tx, filtered := Step(w, e).filtered)
  {
    hide FilterPacket, Count;
    var v := FilterDst(w, e.dst, e.pkt);
    assert Step(w, e) == Filter(w, e.dst, e.src, e.pkt);
  }

  /** The same policy is put again and arrives. */
  function Again(p: Policy): seq<Event>
  {
    [PutPolicy(p.clientId, p.qos, p.ppm, p.payloadLen)] + [PluginReceives]
  }

  lemma {:induction false} PutAgain(w: World, p: Policy)
    requires Serving(w, p)
    ensures Step(w, PutPolicy(p.clientId, p.qos, p.ppm, p.payloadLen)) == w.(toPlugin := [Install(p)])
  {
    var d := w.devices[p.clientId];
    assert SetPolicyInfo(d.policy, p).0 == p && d.(policy := Some(p)) == d;
    assert w.devices[p.clientId := d] == w.devices && [] + [Install(p)] == [Install(p)];
  }

  lemma {:induction false} AgainRenews(w: World, p: Policy)
    requires Serving(w, p)
    ensures var v := Run(w, Again(p));
            && Serving(v, p) && Passed(w, Again(p), p.clientId) == 0
            && p.clientId in v.rules && v.rules[p.clientId] == NewPolicer(p.qos, p.ppm, p.payloadLen)
  {
    var a, b := PutPolicy(p.clientId, p.qos, p.ppm, p.payloadLen), PluginReceives;
    var u := Step(w, a);
    PutAgain(w, p);
    assert PluginReceive(u) == InstallRule(u.(toPlugin := []), p);
    hide Step, PluginReceive;
    StepDelivers(u, b);
    assert Run(w, []) == w && [] + [a] == [a] && Passed(w, [], p.clientId) == 0;
    RunAppend(w, [], a);
    RunAppend(w, [a], b);
    TakeAppend([], a);
    TakeAppend([a], b);
    assert Passed(w, [a], p.clientId) == 0;
  }

  /**
   A client that fills its window, repeats its policy request and fills it again gets twice its limit
   through in one window, for every limit.
   */
  lemma {:induction false} RepeatedRequestDoubles(w: World, p: Policy)
    requires Serving(w, p) && p.clientId in w.rules && Left(w.rules[p.clientId]) == p.ppm
    ensures var full := Fill(p.clientId, p.ppm);
            Passed(w, full + Again(p) + full, p.clientId) == 2 * p.ppm
  {
    hide Step, Run, Passed, Serving, Again, Fill;
    var dst, full := p.clientId, Fill(p.clientId, p.ppm);
    var u := Run(w, full);
    FillPasses(w, dst, p.ppm);
    PacketsServe(w, full, p);
    AgainRenews(u, p);
    PassedConcat(w, full, Again(p), dst);
    var v := Run(u, Again(p));
    assert Left(v.rules[dst]) == p.ppm;
    FillPasses(v, dst, p.ppm);
    PassedConcat(w, full + Again(p), full, dst);
  }

  /** Register, ask for a policy, connect, synchronize; then a window starts. */
  function Setup(p: Policy): seq<Event>
  {
    [Register(p.clientId, 0), PutPolicy(p.clientId, p.qos, p.ppm, p.payloadLen), PluginConnects, GatewayAccepts]
      + [GatewayReceives([p.clientId], true)] + [PluginReceives] + [WindowStarts]
  }

  lemma {:induction false} SetupServes(p: Policy)
    requires p.clientId.name != []
    ensures var w := Run(Init(p.clientId), Setup(p));
            Serving(w, p) && p.clientId in w.rules && Left(w.rules[p.clientId]) == p.ppm
  {
    var id, w := p.clientId, Init(p.clientId);
    var a, b := Register(id, 0), PutPolicy(id, p.qos, p.ppm, p.payloadLen);
    var four := [a, b, PluginConnects, GatewayAccepts];
    var e := GatewayReceives([id], true);
    EarlySteps(p);
    hide Run, Step;
    FourSteps(w, a, b, PluginConnects, GatewayAccepts);
    RunAppend(w, four, e);
    RunAppend(w, four + [e], PluginReceives);
    RunAppend(w, four + [e] + [PluginReceives], WindowStarts);
    SetupSynchronizes(Run(w, four), p);
  }

  lemma {:induction false} SetupSynchronizes(w: World, p: Policy)
    requires Serving(w, p) && w.devices.Keys == {p.clientId} && w.toGateway == [GetAll]
    ensures var v := Step(Step(Step(w, GatewayReceives([p.clientId], true)), PluginReceives), WindowStarts);
            Serving(v, p) && p.clientId in v.rules && Left(v.rules[p.clientId]) == p.ppm
  {
    var u := w.(toGateway := [], toPlugin := [Install(p)], synced := true);
    OneInstall(w, p);
    assert PluginReceive(u) == InstallRule(u.(toPlugin := []), p);
    var v := Step(InstallRule(u.(toPlugin := []), p), WindowStarts);
    assert Serving(v, p) && p.clientId in v.rules && Left(v.rules[p.clientId]) == p.ppm;
    hide Step, PluginReceive;
    StepDelivers(u, PluginReceives);
  }

  /** Serving the plug-in's request sends the one policy there is. */
  lemma {:induction false} OneInstall(w: World, p: Policy)
    requires Serving(w, p) && w.devices.Keys == {p.clientId} && w.toGateway == [GetAll]
    ensures Step(w, GatewayReceives([p.clientId], true)) ==
            w.(toGateway := [], toPlugin := [Install(p)], synced := true)
  {
    var id := p.clientId;
    assert Enumerates([id], w.devices) by { assert id in [id]; }
    assert [id][..0] == [] && Installs(w.devices, []) == [] && Installs(w.devices, [id]) == [Install(p)];
    hide Installs, Enumerates;
    assert w.toGateway[1..] == [] && [] + [Install(p)] == [Install(p)];
  }

  /** The run: from two processes just started, a client with any limit gets twice of it through in one window. */
  lemma {:induction false} RepeatedRequestExample(p: Policy)
    requires p.clientId.name != []
    ensures var full := Fill(p.clientId, p.ppm);
            Passed(Run(Init(p.clientId), Setup(p)), full + Again(p) + full, p.clientId) == 2 * p.ppm
  {
    hide Run, Passed, Setup, Again, Fill, Left;
    SetupServes(p);
    RepeatedRequestDoubles(Run(Init(p.clientId), Setup(p)), p);
  }
}
