/**
 What the firewall guarantees over whole runs: agreement of rules and policies, recovery from any
 state by one reconnection, and when the packet counts are exact.
 */
module FirewallTheorems {
  import opened Machine
  import opened Sequences
  import opened PacketPolicer
  import opened FirewallModel
  import opened FirewallAgreement
  import opened FirewallConservation

  // ---------------------------------------------------------------- agreement

  lemma {:induction false} RunKeepsInv(w: World, es: seq<Event>)
    requires Inv(w)
    ensures Inv(Run(w, es))
  {
    if es != [] {
      RunKeepsInv(w, es[..|es| - 1]);
      StepInv(Run(w, es[..|es| - 1]), es[|es| - 1]);
    }
  }

  /**
   In every run, while connected: once the request for all rules is served, the rules and the
   messages in flight together are the policies, so with nothing in flight the plug-in enforces
   exactly what the gateway wants; before that, no rule exists that the gateway does not want.
   */
  lemma {:induction false} RuleAgreement(watch: Id, es: seq<Event>)
    ensures var w := Run(Init(watch), es);
            w.link == Up ==>
              && (w.synced ==> ApplyAll(w.toPlugin, View(w.rules)) == Policies(w.devices))
              && (w.synced && w.toPlugin == [] ==> View(w.rules) == Policies(w.devices))
              && (!w.synced ==> ApplyAll(w.toPlugin, View(w.rules)).Keys <= Policies(w.devices).Keys)
  {
    RunInv(watch, es);
  }

  /** In every run, a policy implies a registered device with a keep-alive counter of 1 to 4. */
  lemma {:induction false} PolicyMeansAlive(watch: Id, es: seq<Event>, id: Id)
    ensures var devices := Run(Init(watch), es).devices;
            id in devices && devices[id].policy.Some? ==>
              devices[id].registered && 1 <= devices[id].kaCtr <= 4 && devices[id].policy.value.clientId == id
  {
    RunInv(watch, es);
    assert DeviceOk(Run(Init(watch), es).devices, id);
  }

  /** Four expirations without a keep-alive withdraw the policy, and three do not. */
  lemma {:induction false} SilenceWithdraws(w: World, id: Id)
    requires id in w.devices && w.devices[id].registered && w.devices[id].kaCtr == KEEP_ALIVE_COUNTER
    ensures var e := KeepAliveExpired(id);
            var v := Step(Step(Step(w, e), e), e);
            && v.devices[id] == w.devices[id].(kaCtr := 1)
            && Step(v, e).devices[id] == Device(false, 0, None)
  {
    var e := KeepAliveExpired(id);
    var v := Step(w, e);
    assert v.devices[id] == w.devices[id].(kaCtr := 3);
    v := Step(v, e);
    assert v.devices[id] == w.devices[id].(kaCtr := 2);
    v := Step(v, e);
    assert v.devices[id] == w.devices[id].(kaCtr := 1);
  }

  // ---------------------------------------------------------------- recovery

  function Drain(n: nat): seq<Event>
  {
    if n == 0 then [] else Drain(n - 1) + [PluginReceives]
  }

  lemma {:induction false} RunAppend(w: World, es: seq<Event>, e: Event)
    ensures Run(w, es + [e]) == Step(Run(w, es), e)
  {
    hide Step;
    TakeAppend(es, e);
  }

  lemma {:induction false} DrainZero(w: World)
    ensures Run(w, Drain(0)) == w
  {
  }

  /** One message more. */
  lemma {:induction false} DrainNext(w: World, n: nat)
    requires Run(w, Drain(n)).link == Up && Run(w, Drain(n)).toPlugin != []
    ensures Run(w, Drain(n + 1)) == PluginReceive(Run(w, Drain(n)))
  {
    hide PluginReceive, Run;
    RunAppend(w, Drain(n), PluginReceives);
  }

  lemma {:induction false} DrainReceives(w: World, n: nat)
    requires w.link == Up && n <= |w.toPlugin|
    ensures var v := Run(w, Drain(n));
            v.toPlugin == w.toPlugin[n..] && v.link == Up && v.synced == w.synced && v.devices == w.devices
  {
    hide Step, Run, Drain;
    if n == 0 {
      DrainZero(w);
    } else {
      DrainReceives(w, n - 1);
      DropNext(w.toPlugin, n - 1);
      DrainNext(w, n - 1);
    }
  }

  /** A connection is lost, if there was one, and a new one is made and served. */
  function Reconnected(w: World, order: seq<Id>): World
  {
    var dropped := Step(Step(w, LinkBreaks), PluginNotices);
    Step(Step(Step(dropped, PluginConnects), GatewayAccepts), GatewayReceives(order, true))
  }

  lemma {:induction false} ConnectionDropped(w: World)
    requires Inv(w)
    ensures var v := Step(Step(w, LinkBreaks), PluginNotices);
            Inv(v) && v.link == Down && v.devices == w.devices
  {
    var u := Step(w, LinkBreaks);
    assert u.devices == w.devices && (u.link == Broken || u.link == Down);
    assert Step(u, PluginNotices).devices == w.devices && Step(u, PluginNotices).link == Down;
    hide Step, Inv;
    StepInv(w, LinkBreaks);
    StepInv(u, PluginNotices);
  }

  lemma {:induction false} ConnectionMade(w: World)
    requires Inv(w) && w.link == Down
    ensures var v := Step(Step(w, PluginConnects), GatewayAccepts);
            Inv(v) && v.link == Up && v.toGateway == [GetAll] && v.toPlugin == [] && v.devices == w.devices
  {
    var u := Step(w, PluginConnects);
    assert u == w.(link := Pending, toGateway := [GetAll]);
    assert Step(u, GatewayAccepts) == u.(link := Up);
    assert w.toPlugin == [];
    hide Step, Inv;
    StepInv(w, PluginConnects);
    StepInv(u, GatewayAccepts);
  }

  lemma {:induction false} RequestServed(w: World, order: seq<Id>)
    requires Inv(w) && w.link == Up && w.toGateway == [GetAll] && w.toPlugin == [] && Enumerates(order, w.devices)
    ensures var v := Step(w, GatewayReceives(order, true));
            Inv(v) && v.link == Up && v.synced && v.devices == w.devices && v.toPlugin == Installs(w.devices, order)
  {
    StepInv(w, GatewayReceives(order, true));
    assert Step(w, GatewayReceives(order, true)) == GatewayReceive(w, order, true);
    assert [] + Installs(w.devices, order) == Installs(w.devices, order);
  }

  lemma {:induction false} ReconnectServes(w: World, order: seq<Id>)
    requires Inv(w) && Enumerates(order, w.devices)
    ensures var v := Reconnected(w, order);
            Inv(v) && v.link == Up && v.synced && v.devices == w.devices && v.toPlugin == Installs(w.devices, order)
  {
    ConnectionDropped(w);
    var b := Step(Step(w, LinkBreaks), PluginNotices);
    ConnectionMade(b);
    RequestServed(Step(Step(b, PluginConnects), GatewayAccepts), order);
  }

  /**
   Recovery: from every reachable state, whatever was lost before, one reconnection followed by the
   delivery of what the gateway answers leaves exactly the gateway's policies in the plug-in.
   */
  lemma {:induction false} ReconnectionRepairs(watch: Id, es: seq<Event>, order: seq<Id>)
    requires Enumerates(order, Run(Init(watch), es).devices)
    ensures var w := Run(Init(watch), es);
            var v := Run(Reconnected(w, order), Drain(|Installs(w.devices, order)|));
            v.devices == w.devices && v.toPlugin == [] && View(v.rules) == Policies(w.devices)
  {
    var w := Run(Init(watch), es);
    RunInv(watch, es);
    ReconnectServes(w, order);
    var u, n := Reconnected(w, order), |Installs(w.devices, order)|;
    DrainReceives(u, n);
    RunKeepsInv(u, Drain(n));
    assert Installs(w.devices, order)[n..] == [];
  }

  // ---------------------------------------------------------------- when a request finds its rule

  /** What the plug-in has after `n` of the messages in flight is what the messages make of its rules. */
  lemma {:induction false} DrainApplies(w: World, n: nat)
    requires w.link == Up && n <= |w.toPlugin|
    ensures View(Run(w, Drain(n)).rules) == ApplyAll(w.toPlugin[..n], View(w.rules))
  {
    hide Step, Run, Drain, Apply, View, PluginReceive;
    if n == 0 {
      DrainZero(w);
    } else {
      var u := Run(w, Drain(n - 1));
      DrainApplies(w, n - 1);
      DrainReceives(w, n - 1);
      DrainNext(w, n - 1);
      PluginApplies(u);
      TakeNext(w.toPlugin, n - 1);
      DropNext(w.toPlugin, n - 1);
      ApplyAppend(w.toPlugin[..n - 1], w.toPlugin[n - 1], View(w.rules));
    }
  }

  /** A request sent now finds its rule, once the messages ahead of it are delivered, if and only if `Finds`. */
  lemma {:induction false} FindsOnArrival(w: World, id: Id)
    requires w.link == Up
    ensures id in Run(w, Drain(|w.toPlugin|)).rules <==> Finds(w, id)
  {
    DrainApplies(w, |w.toPlugin|);
    assert w.toPlugin[..|w.toPlugin|] == w.toPlugin;
    assert id in View(Run(w, Drain(|w.toPlugin|)).rules) <==> id in Run(w, Drain(|w.toPlugin|)).rules;
  }

  /**
   Whatever happens in between, packets, new messages and lost connections included: in every run the
   request the plug-in takes next finds its rule if and only if it was promised when it was sent.
   */
  lemma {:induction false} PromiseKept(watch: Id, es: seq<Event>)
    ensures var w := Run(Init(watch), es);
            w.toPlugin != [] && w.toPlugin[0].GetStat? ==> (w.toPlugin[0].found <==> w.toPlugin[0].id in w.rules)
  {
    RunInv(watch, es);
    var w := Run(Init(watch), es);
    if w.toPlugin != [] { StatsFirst(w.toPlugin, View(w.rules)); }
  }

  /** Once the plug-in is synchronized, every request is promised its rule. */
  lemma {:induction false} SyncedFinds(watch: Id, es: seq<Event>, id: Id)
    ensures var w := Run(Init(watch), es);
            w.link == Up && w.synced && id in w.devices && w.devices[id].policy.Some? ==> Finds(w, id)
  {
    RunInv(watch, es);
  }

  // ---------------------------------------------------------------- exact counts

  /** Exactly one kind of step brings counts from nowhere: a statistics request that finds no rule. */
  predicate Invents(w: World, e: Event)
  {
    && e.PluginReceives? && (w.link == Up || w.link == Broken) && w.toPlugin != []
    && w.toPlugin[0].GetStat? && w.toPlugin[0].id == w.watch && w.watch.name != [] && w.watch !in w.rules
    && !Blank(w.toPlugin[0].garbage)
  }

  /** The counters of the policer are zero. */
  predicate Blank(p: Policer)
  {
    p.dropped == 0 && p.passed == 0
  }

  function Held(p: Policer): Counts
  {
    Counts(p.dropped, p.passed, 0, 0)
  }

  lemma {:induction false} InventedExactly(w: World, e: Event)
    ensures Step(w, e).injected == if Invents(w, e) then Plus(w.injected, Held(w.toPlugin[0].garbage)) else w.injected
    ensures Step(w, e).watch == w.watch
  {
    if e.PluginReceives? && (w.link == Up || w.link == Broken) && w.toPlugin != [] {
      ReceiveInvents(w);
      assert Step(w, e) == PluginReceive(w);
    } else {
      OthersInventNothing(w, e);
    }
  }

  lemma {:induction false} ReceiveInvents(w: World)
    requires w.toPlugin != [] && (w.link == Up || w.link == Broken)
    ensures PluginReceive(w).injected ==
            if Invents(w, PluginReceives) then Plus(w.injected, Held(w.toPlugin[0].garbage)) else w.injected
  {
    var v := w.(toPlugin := w.toPlugin[1..]);
    match w.toPlugin[0]
    case Install(p) => assert PluginReceive(w) == InstallRule(v, p);
    case Remove(id) => assert PluginReceive(w) == RemoveRule(v, id);
    case GetStat(id, garbage, _) =>
      if id.name != [] {
        ReportInjects(v, id, garbage);
        TouchInvents(v, id, garbage);
      }
  }

  lemma {:induction false} ReportInjects(w: World, id: Id, garbage: Policer)
    requires id.name != []
    ensures ReportStats(w, id, garbage).injected == TouchRule(w, id, garbage).injected
  {
  }

  lemma {:induction false} TouchInvents(w: World, id: Id, garbage: Policer)
    ensures TouchRule(w, id, garbage).injected ==
            if id == w.watch && id !in w.rules && !Blank(garbage) then Plus(w.injected, Held(garbage)) else w.injected
  {
  }

  lemma {:induction false} OthersInventNothing(w: World, e: Event)
    requires !(e.PluginReceives? && (w.link == Up || w.link == Broken) && w.toPlugin != [])
    ensures Step(w, e).injected == w.injected && Step(w, e).watch == w.watch
  {
    hide Enumerates, Finds, Installs, FilterPacket, Passes, Count, StartWindows, SetPolicyInfo, Plus, InFlight,
         RuleCounts, TxCounts, Expire, StorePolicy, AddStats;
    if e.Register? || e.KeepAlive? || e.KeepAliveExpired? || e.PutPolicy? || e.StatAlarm? {
      DeviceStepQuiet(w, e);
    }
  }

  /** The counts the gateway knows, will know or gave up are the packets filtered, modulo 2^32. */
  predicate Exact(w: World)
  {
    SameCounts(Accounted(w), w.filtered)
  }

  lemma {:induction false} ExactIffNothingInvented(w: World)
    requires Conserved(w) && 0 <= w.injected.ruleDropped < 0x1_0000_0000 && 0 <= w.injected.rulePassed < 0x1_0000_0000
    requires w.injected.txDropped == 0 && w.injected.txPassed == 0
    ensures Exact(w) <==> w.injected == ZERO
  {
    NothingAdded(Accounted(w), w.filtered, w.injected);
  }

  lemma {:induction false} NothingAdded(a: Counts, f: Counts, i: Counts)
    requires SameCounts(a, Plus(f, i)) && i.txDropped == 0 && i.txPassed == 0
    requires 0 <= i.ruleDropped < 0x1_0000_0000 && 0 <= i.rulePassed < 0x1_0000_0000
    ensures SameCounts(a, f) <==> i == ZERO
  {
    SmallShift(a.ruleDropped, f.ruleDropped, i.ruleDropped);
    SmallShift(a.rulePassed, f.rulePassed, i.rulePassed);
  }

  lemma SmallShift(a: int, f: int, i: int)
    requires Congruent(a, f + i) && 0 <= i < 0x1_0000_0000
    ensures Congruent(a, f) <==> i == 0
  {
  }

  /** The counts are exact at every moment of the run. */
  ghost predicate AlwaysExact(w: World, es: seq<Event>)
  {
    Exact(Run(w, es)) && (es != [] ==> AlwaysExact(w, es[..|es| - 1]))
  }

  /** No request that finds no rule brings anything. */
  ghost predicate NeverInvents(w: World, es: seq<Event>)
  {
    es != [] ==> NeverInvents(w, es[..|es| - 1]) && !Invents(Run(w, es[..|es| - 1]), es[|es| - 1])
  }

  /**
   Packet-count conservation, exactly: gateway totals, reports in flight, plug-in counters and discarded
   counts equal the packets filtered, each of the four modulo 2^32, at every moment of a run if and only
   if no statistics request of the run arrives without its rule and finds counters that are not zero.
   */
  lemma {:induction false} CountsExactIff(watch: Id, es: seq<Event>)
    ensures AlwaysExact(Init(watch), es) <==> NeverInvents(Init(watch), es)
    ensures NeverInvents(Init(watch), es) ==> Run(Init(watch), es).injected == ZERO
  {
    hide Step, Accounted, SameCounts;
    CountsConserved(watch, es);
    if es == [] {
      ExactIffNothingInvented(Init(watch));
    } else {
      CountsExactIff(watch, es[..|es| - 1]);
      if NeverInvents(Init(watch), es[..|es| - 1]) {
        ExactStep(Run(Init(watch), es[..|es| - 1]), es[|es| - 1]);
      }
    }
  }

  lemma {:induction false} ExactStep(w: World, e: Event)
    requires w.injected == ZERO && Conserved(Step(w, e))
    ensures Exact(Step(w, e)) <==> !Invents(w, e)
    ensures !Invents(w, e) ==> Step(w, e).injected == ZERO
  {
    InventedExactly(w, e);
    ExactIffNothingInvented(Step(w, e));
  }

  // ---------------------------------------------------------------- the guard at the send

  /** A request for the watched client that goes out without a promise of its rule. */
  predicate Unpromised(w: World, e: Event)
  {
    e.StatAlarm? && e.id == w.watch && Requests(w, e.id) && !Finds(w, e.id)
  }

  /** The alarm does send a request. */
  predicate Requests(w: World, id: Id)
  {
    w.link == Up && id in w.devices && w.devices[id].policy.Some?
  }

  ghost predicate Promised(w: World, es: seq<Event>)
  {
    es != [] ==> Promised(w, es[..|es| - 1]) && !Unpromised(Run(w, es[..|es| - 1]), es[|es| - 1])
  }

  /** All requests in flight for `id` were promised their rule. */
  predicate AllFound(ms: seq<ToPlugin>, id: Id)
  {
    forall i :: 0 <= i < |ms| && ms[i].GetStat? && ms[i].id == id ==> ms[i].found
  }

  lemma {:induction false} InstallsFound(devices: map<Id, Device>, order: seq<Id>, id: Id)
    ensures AllFound(Installs(devices, order), id)
  {
    if order != [] { InstallsFound(devices, order[..|order| - 1], id); }
  }

  lemma {:induction false} PromisedStep(w: World, e: Event)
    requires Inv(w) && AllFound(w.toPlugin, w.watch) && !Unpromised(w, e)
    ensures AllFound(Step(w, e).toPlugin, w.watch)
  {
    if e.PluginReceives? {
      if (w.link == Up || w.link == Broken) && w.toPlugin != [] { assert Step(w, e) == PluginReceive(w); }
    } else if e.GatewayReceives? {
      PromisedServe(w, e.order, e.known);
    } else if e.KeepAliveExpired? || e.PutPolicy? || e.StatAlarm? {
      PromisedSend(w, e);
    } else {
      NothingSent(w, e);
    }
  }

  lemma {:induction false} PromisedServe(w: World, order: seq<Id>, known: bool)
    requires AllFound(w.toPlugin, w.watch)
    ensures AllFound(Step(w, GatewayReceives(order, known)).toPlugin, w.watch)
  {
    var v := Step(w, GatewayReceives(order, known));
    if v.toPlugin != w.toPlugin {
      assert v.toPlugin == w.toPlugin + Installs(w.devices, order);
      InstallsFound(w.devices, order, w.watch);
    }
  }

  lemma {:induction false} NothingSent(w: World, e: Event)
    requires !e.PluginReceives? && !e.GatewayReceives? && !e.KeepAliveExpired? && !e.PutPolicy? && !e.StatAlarm?
    ensures Step(w, e).toPlugin == w.toPlugin || Step(w, e).toPlugin == []
  {
  }

  lemma {:induction false} FoundAppend(ms: seq<ToPlugin>, m: ToPlugin, id: Id)
    requires AllFound(ms, id) && (m.GetStat? && m.id == id ==> m.found)
    ensures AllFound(ms + [m], id)
  {
  }

  lemma {:induction false} ExpireSends(w: World, id: Id)
    requires id in w.devices && AllFound(w.toPlugin, w.watch)
    ensures AllFound(Expire(w, id).toPlugin, w.watch)
  {
    hide AllFound;
    forall x ensures AllFound(w.toPlugin + [Remove(x)], w.watch) { FoundAppend(w.toPlugin, Remove(x), w.watch); }
  }

  lemma {:induction false} PromisedSend(w: World, e: Event)
    requires Inv(w) && AllFound(w.toPlugin, w.watch) && !Unpromised(w, e)
    requires e.KeepAliveExpired? || e.PutPolicy? || e.StatAlarm?
    ensures AllFound(Step(w, e).toPlugin, w.watch)
  {
    assert DeviceOk(w.devices, e.id);
    hide Inv, Finds, SetPolicyInfo, AllFound, Expire;
    if e.KeepAliveExpired? {
      if e.id in w.devices { ExpireSends(w, e.id); }
    } else if Step(w, e).toPlugin != w.toPlugin {
      var m := if e.PutPolicy? then
                 Install(SetPolicyInfo(w.devices[e.id].policy, Policy(e.id, e.qos, e.ppm, e.payloadLen)).0)
               else GetStat(e.id, e.garbage, Finds(w, e.id));
      FoundAppend(w.toPlugin, m, w.watch);
    }
  }

  /** A request that was promised its rule invents nothing. */
  lemma {:induction false} FoundInventsNothing(w: World, e: Event)
    requires Inv(w) && AllFound(w.toPlugin, w.watch)
    ensures !Invents(w, e)
  {
    if w.toPlugin != [] { StatsFirst(w.toPlugin, View(w.rules)); }
  }

  lemma {:induction false} PromisedRun(watch: Id, es: seq<Event>)
    requires Promised(Init(watch), es)
    ensures var w := Run(Init(watch), es);
            NeverInvents(Init(watch), es) && AllFound(w.toPlugin, watch) && w.watch == watch
  {
    if es != [] {
      var w := Run(Init(watch), es[..|es| - 1]);
      PromisedRun(watch, es[..|es| - 1]);
      RunInv(watch, es[..|es| - 1]);
      PromisedStep(w, es[|es| - 1]);
      FoundInventsNothing(w, es[|es| - 1]);
      InventedExactly(w, es[|es| - 1]);
    }
  }

  /**
   When the statistics of a client are only requested while its rule is on its way or installed, the
   counts are exact at every moment of the run.
   */
  lemma {:induction false} PacketCountsExact(watch: Id, es: seq<Event>)
    requires Promised(Init(watch), es)
    ensures AlwaysExact(Init(watch), es)
  {
    PromisedRun(watch, es);
    CountsExactIff(watch, es);
  }

  lemma {:induction false} DrainKeeps(w: World, n: nat)
    requires Inv(w) && Conserved(w) && w.link == Up && n <= |w.toPlugin|
    ensures var v := Run(w, Drain(n));
            Inv(v) && Conserved(v) && v.link == Up && v.toPlugin == w.toPlugin[n..]
  {
    hide Step, Run, Drain, Inv, Conserved, PluginReceive;
    DrainReceives(w, n);
    if n == 0 {
      DrainZero(w);
    } else {
      DrainKeeps(w, n - 1);
      var u := Run(w, Drain(n - 1));
      DropNext(w.toPlugin, n - 1);
      DrainNext(w, n - 1);
      PluginReceiveInv(u);
      PluginReceiveConserved(u);
    }
  }

  lemma {:induction false} AllFoundTake(ms: seq<ToPlugin>, n: nat, id: Id)
    requires AllFound(ms, id) && n <= |ms|
    ensures AllFound(ms[..n], id)
  {
  }

  lemma {:induction false} DrainInventsNothing(w: World, n: nat)
    requires Inv(w) && Conserved(w) && w.link == Up && n <= |w.toPlugin| && AllFound(w.toPlugin[..n], w.watch)
    ensures Run(w, Drain(n)).injected == w.injected && Run(w, Drain(n)).watch == w.watch
  {
    hide Step, Run, Drain, Conserved, PluginReceive;
    if n == 0 {
      DrainZero(w);
    } else {
      var u := Run(w, Drain(n - 1));
      AllFoundTake(w.toPlugin[..n], n - 1, w.watch);
      assert w.toPlugin[..n][..n - 1] == w.toPlugin[..n - 1];
      DrainInventsNothing(w, n - 1);
      DrainKeeps(w, n - 1);
      DropNext(w.toPlugin, n - 1);
      DrainNext(w, n - 1);
      assert u.toPlugin[0] == w.toPlugin[..n][n - 1];
      StatsFirst(u.toPlugin, View(u.rules));
      ReceiveInvents(u);
    }
  }

  /** What the arrival of a request brings, in terms of its promise. */
  lemma {:induction false} ArrivalBrings(w: World, garbage: Policer, found: bool)
    requires Inv(w) && w.link == Up && w.watch.name != [] && w.toPlugin == [GetStat(w.watch, garbage, found)]
    ensures PluginReceive(w).injected == if found || Blank(garbage) then w.injected else Plus(w.injected, Held(garbage))
  {
    StatsFirst(w.toPlugin, View(w.rules));
    hide PluginReceive;
    ReceiveInvents(w);
  }

  /** Delivering everything in flight, a request last, brings what that request brings. */
  lemma {:induction false} LastDelivered(w: World, n: nat, garbage: Policer, found: bool)
    requires Inv(w) && Conserved(w) && w.link == Up && w.injected == ZERO && w.watch.name != []
    requires |w.toPlugin| == n + 1 && w.toPlugin[n] == GetStat(w.watch, garbage, found)
    requires AllFound(w.toPlugin[..n], w.watch)
    ensures var v := Run(w, Drain(n + 1));
            Conserved(v) && v.injected == if found || Blank(garbage) then ZERO else Held(garbage)
  {
    hide Step, Run, Drain, Inv, Conserved, PluginReceive, AllFound, Plus;
    DrainInventsNothing(w, n);
    DrainKeeps(w, n);
    DrainKeeps(w, n + 1);
    var u := Run(w, Drain(n));
    DropLast(w.toPlugin);
    assert u.toPlugin == [GetStat(w.watch, garbage, found)];
    DrainNext(w, n);
    ArrivalBrings(u, garbage, found);
    PlusAssoc(Held(garbage), ZERO, ZERO);
  }

  /** The request just sent is the last one in flight. */
  lemma {:induction false} RequestDelivered(w: World, garbage: Policer)
    requires Inv(w) && Conserved(w) && w.injected == ZERO && AllFound(w.toPlugin, w.watch) && Requests(w, w.watch)
    ensures var v := Run(Step(w, StatAlarm(w.watch, garbage)), Drain(|w.toPlugin| + 1));
            Conserved(v) && v.injected == if Finds(w, w.watch) || Blank(garbage) then ZERO else Held(garbage)
  {
    hide Step, Run, Drain, Conserved, Finds;
    var e, n := StatAlarm(w.watch, garbage), |w.toPlugin|;
    assert w.watch.name != [] && !(w.link == Down) by { assert DeviceOk(w.devices, w.watch); }
    RequestSent(w, garbage);
    StepInv(w, e);
    StepConserved(w, e);
    assert Step(w, e).toPlugin[..n] == w.toPlugin;
    LastDelivered(Step(w, e), n, garbage, Finds(w, w.watch));
  }

  lemma {:induction false} RequestSent(w: World, garbage: Policer)
    requires Inv(w) && Requests(w, w.watch)
    ensures Step(w, StatAlarm(w.watch, garbage)) ==
            w.(toPlugin := w.toPlugin + [GetStat(w.watch, garbage, Finds(w, w.watch))])
  {
    assert DeviceOk(w.devices, w.watch);
  }

  /**
   The guard cannot be weakened: after any run that kept to it, the next request keeps the counts exact
   once it is delivered if and only if it is promised its rule or the memory it meets happens to be zero.
   */
  lemma {:induction false} NextRequestExact(watch: Id, es: seq<Event>, garbage: Policer)
    requires Promised(Init(watch), es) && Requests(Run(Init(watch), es), watch)
    ensures var w := Run(Init(watch), es);
            var v := Run(Step(w, StatAlarm(watch, garbage)), Drain(|w.toPlugin| + 1));
            Exact(v) <==> Finds(w, watch) || Blank(garbage)
  {
    hide Run, Step, Drain, Exact, Finds, Promised, AlwaysExact, NeverInvents, Conserved, FirewallAgreement.Inv,
         Requests, Init;
    var w := Run(Init(watch), es);
    PromisedRun(watch, es);
    CountsExactIff(watch, es);
    CountsConserved(watch, es);
    RunInv(watch, es);
    RequestDelivered(w, garbage);
    ExactIffNothingInvented(Run(Step(w, StatAlarm(watch, garbage)), Drain(|w.toPlugin| + 1)));
  }

  /** A device that registers and gets its policy before the plug-in connects. */
  function EarlyRun(id: Id): seq<Event>
  {
    [Register(id, 0), PutPolicy(id, 1, 10, 100), PluginConnects, GatewayAccepts]
  }

  lemma {:induction false} EarlyState(id: Id)
    requires id.name != []
    ensures var w := Run(Init(id), EarlyRun(id));
            Promised(Init(id), EarlyRun(id)) && w.toPlugin == [] && Requests(w, id) && !Finds(w, id)
  {
    var a, b, c, d := Register(id, 0), PutPolicy(id, 1, 10, 100), PluginConnects, GatewayAccepts;
    hide Run, Promised;
    FourSteps(Init(id), a, b, c, d);
    EarlySteps(Policy(id, 1, 10, 100));
    hide Step;
    assert View(map[]) == map[];
  }

  /** A policy is put for a device just registered, then the plug-in connects. */
  lemma {:induction false} EarlySteps(p: Policy)
    requires p.clientId.name != []
    ensures var a, b := Register(p.clientId, 0), PutPolicy(p.clientId, p.qos, p.ppm, p.payloadLen);
            Step(Step(Step(Step(Init(p.clientId), a), b), PluginConnects), GatewayAccepts) ==
            Init(p.clientId).(devices := map[p.clientId := Device(true, KEEP_ALIVE_COUNTER, Some(p))],
                              link := Up, toGateway := [GetAll])
  {
    var id := p.clientId;
    var u := Step(Init(id), Register(id, 0));
    assert u == Init(id).(devices := map[id := Device(true, KEEP_ALIVE_COUNTER, None)]);
    var v := Step(u, PutPolicy(id, p.qos, p.ppm, p.payloadLen));
    assert v == u.(devices := map[id := Device(true, KEEP_ALIVE_COUNTER, Some(p))]);
    var t := Step(Step(v, PluginConnects), GatewayAccepts);
    assert t == v.(link := Up, toGateway := [GetAll]);
  }

  lemma {:induction false} PromisedAppend(w: World, es: seq<Event>, e: Event)
    requires Promised(w, es) && !e.StatAlarm?
    ensures Promised(w, es + [e]) && Run(w, es + [e]) == Step(Run(w, es), e)
  {
    hide Step;
    TakeAppend(es, e);
  }

  lemma {:induction false} FourSteps(w: World, a: Event, b: Event, c: Event, d: Event)
    requires !a.StatAlarm? && !b.StatAlarm? && !c.StatAlarm? && !d.StatAlarm?
    ensures Run(w, [a, b, c, d]) == Step(Step(Step(Step(w, a), b), c), d)
    ensures Promised(w, [a, b, c, d])
  {
    assert Run(w, []) == w && Promised(w, []);
    hide Step, Run, Promised;
    assert [] + [a] == [a] && [a] + [b] == [a, b] && [a, b] + [c] == [a, b, c] && [a, b, c] + [d] == [a, b, c, d];
    PromisedAppend(w, [], a);
    PromisedAppend(w, [a], b);
    PromisedAppend(w, [a, b], c);
    PromisedAppend(w, [a, b, c], d);
  }

  /** A failing run: the statistics alarm comes before the plug-in's request for all rules is served. */
  lemma {:induction false} InventedExample(id: Id, garbage: Policer)
    requires id.name != [] && !Blank(garbage)
    ensures !Exact(Run(Init(id), EarlyRun(id) + [StatAlarm(id, garbage)] + [PluginReceives]))
  {
    hide Step, Finds, Exact, Promised;
    var es, e := EarlyRun(id), StatAlarm(id, garbage);
    EarlyState(id);
    NextRequestExact(id, es, garbage);
    RunAppend(Init(id), es, e);
    RunAppend(Init(id), es + [e], PluginReceives);
    var s := Step(Run(Init(id), es), e);
    assert Drain(0) == [] && Run(s, []) == s;
    RunAppend(s, Drain(0), PluginReceives);
  }

  // ---------------------------------------------------------------- rate limiting in the plug-in

  /** What the policer of `dst` sees of a run. */
  function Seen(es: seq<Event>, dst: Id): seq<PolicerEvent>
  {
    if es == [] then []
    else
      Seen(es[..|es| - 1], dst) +
      match es[|es| - 1] {
        case PacketArrives(d, _, pkt) => if d == dst then [Arrives(pkt)] else []
        case WindowStarts => [NewWindow]
        case _ => []
      }
  }

  /** Traffic only: no rule is installed, removed or asked for its statistics. */
  ghost predicate Traffic(es: seq<Event>)
  {
    forall i :: 0 <= i < |es| ==> es[i].PacketArrives? || es[i].WindowStarts?
  }

  lemma {:induction false} PolicerAppend(p: Policer, es: seq<PolicerEvent>, e: PolicerEvent)
    ensures PolicerRun(p, es + [e]) == PolicerStep(PolicerRun(p, es), e)
  {
    assert (es + [e])[..|es|] == es;
  }

  predicate SameRule(w: World, v: World, dst: Id)
  {
    if dst in w.rules then dst in v.rules && v.rules[dst] == w.rules[dst] else dst !in v.rules
  }

  /** A packet concerns the rule of its destination only. */
  lemma {:induction false} PacketRule(w: World, e: Event, dst: Id)
    requires e.PacketArrives?
    ensures var v := Step(w, e);
            if dst in w.rules && e.dst == dst then dst in v.rules && v.rules[dst] == FilterPacket(w.rules[dst], e.pkt).0
            else SameRule(w, v, dst)
  {
    hide FilterPacket, Count;
    var u := FilterDst(w, e.dst, e.pkt);
    assert Step(w, e).rules == u.rules;
  }

  lemma {:induction false} TrafficStep(w: World, e: Event, dst: Id)
    requires dst in w.rules && (e.PacketArrives? || e.WindowStarts?)
    ensures var v := Step(w, e);
            && dst in v.rules
            && v.rules[dst] == if e.WindowStarts? then StartWindow(w.rules[dst])
                               else if e.dst == dst then FilterPacket(w.rules[dst], e.pkt).0
                               else w.rules[dst]
  {
    hide FilterPacket, StartWindow, Filter;
    if e.PacketArrives? { PacketRule(w, e, dst); }
  }

  /** Rules do not disturb each other: each policer sees its own packets and the window starts, nothing else. */
  lemma {:induction false} PolicersIndependent(w: World, es: seq<Event>, dst: Id)
    requires dst in w.rules && Traffic(es)
    ensures var v := Run(w, es);
            dst in v.rules && v.rules[dst] == PolicerRun(w.rules[dst], Seen(es, dst))
  {
    if es != [] {
      var init, e := es[..|es| - 1], es[|es| - 1];
      PolicersIndependent(w, init, dst);
      TrafficStep(Run(w, init), e, dst);
      if e.WindowStarts? {
        PolicerAppend(w.rules[dst], Seen(init, dst), NewWindow);
      } else if e.dst == dst {
        PolicerAppend(w.rules[dst], Seen(init, dst), Arrives(e.pkt));
      } else {
        assert Seen(es, dst) == Seen(init, dst);
      }
    }
  }

  /**
   The verdict in the plug-in, over any traffic after an installation: a packet to `dst` passes if and
   only if it conforms to the policy and at most `ppm` packets, itself included, have arrived for `dst`
   in the current window, counted modulo 2^32.
   */
  lemma {:induction false} InstalledVerdict(w: World, p: Policy, es: seq<Event>, pkt: Packet)
    requires p.clientId.name != [] && Traffic(es)
    ensures Passes(Run(InstallRule(w, p), es), p.clientId, pkt) <==>
              && pkt.qos <= p.qos % 256 && pkt.payloadLen <= p.payloadLen
              && (Position(Seen(es, p.clientId)) + 1) % 0x1_0000_0000 <= p.ppm
  {
    hide Run, Seen, PolicerRun, Position, FilterPacket, Traffic;
    var q := NewPolicer(p.qos, p.ppm, p.payloadLen);
    var v := InstallRule(w, p);
    assert p.clientId in v.rules && v.rules[p.clientId] == q;
    PolicersIndependent(v, es, p.clientId);
    NextVerdict(q, Seen(es, p.clientId), pkt);
  }
}
