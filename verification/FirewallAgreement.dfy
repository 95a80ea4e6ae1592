/**
 The rules of the plug-in and the policies of the gateway agree.
 */
module FirewallAgreement {
  import opened Machine
  import opened PacketPolicer
  import opened FirewallModel

  /** The rules the gateway wants. */
  function Policies(devices: map<Id, Device>): map<Id, Rule>
  {
    map id | id in devices && devices[id].policy.Some? :: RuleOf(devices[id].policy.value)
  }

  // ---------------------------------------------------------------- what the messages do to the rules

  lemma {:induction false} ApplyAppend(ms: seq<ToPlugin>, m: ToPlugin, r: map<Id, Rule>)
    ensures ApplyAll(ms + [m], r) == Apply(m, ApplyAll(ms, r))
  {
    assert (ms + [m])[..|ms|] == ms;
  }

  /** The first message in flight is the next one the plug-in applies. */
  lemma {:induction false} ApplyFirst(ms: seq<ToPlugin>, r: map<Id, Rule>)
    requires ms != []
    ensures ApplyAll(ms, r) == ApplyAll(ms[1..], Apply(ms[0], r))
  {
    if |ms| == 1 {
      assert ms[..0] == [] && ms[1..] == [];
    } else {
      var init, last := ms[..|ms| - 1], ms[|ms| - 1];
      ApplyFirst(init, r);
      assert ms[1..] == init[1..] + [last];
      ApplyAppend(init[1..], last, Apply(ms[0], r));
    }
  }

  lemma {:induction false} ApplyConcat(ms: seq<ToPlugin>, ns: seq<ToPlugin>, r: map<Id, Rule>)
    ensures ApplyAll(ms + ns, r) == ApplyAll(ns, ApplyAll(ms, r))
  {
    if ns == [] {
      assert ms + ns == ms;
    } else {
      var init, last := ns[..|ns| - 1], ns[|ns| - 1];
      ApplyConcat(ms, init, r);
      assert ms + ns == (ms + init) + [last];
      ApplyAppend(ms + init, last, r);
    }
  }

  lemma {:induction false} ViewUpdate(rules: map<Id, Policer>, id: Id, p: Policer)
    ensures View(rules[id := p]) == View(rules)[id := RuleOfPolicer(p)]
  {
  }

  lemma {:induction false} ViewRemove(rules: map<Id, Policer>, id: Id)
    ensures View(rules - {id}) == View(rules) - {id}
  {
  }

  /** Changing only the counters of a rule cannot be seen. */
  lemma {:induction false} ViewSame(rules: map<Id, Policer>, id: Id, p: Policer)
    requires id in rules && RuleOfPolicer(p) == RuleOfPolicer(rules[id])
    ensures View(rules[id := p]) == View(rules)
  {
    ViewUpdate(rules, id, p);
  }

  lemma {:induction false} TouchView(w: World, id: Id, garbage: Policer)
    requires id.name != []
    ensures View(TouchRule(w, id, garbage).rules) == Apply(GetStat(id, garbage, false), View(w.rules))
  {
    if id !in w.rules { ViewUpdate(w.rules, id, garbage); }
  }

  lemma {:induction false} ReportView(w: World, id: Id, garbage: Policer)
    requires id.name != []
    ensures View(ReportStats(w, id, garbage).rules) == Apply(GetStat(id, garbage, false), View(w.rules))
  {
    var v := TouchRule(w, id, garbage);
    assert ReportStats(w, id, garbage).rules == ClearStats(v, id).rules;
    ViewSame(v.rules, id, v.rules[id].(dropped := 0, passed := 0));
    TouchView(w, id, garbage);
  }

  lemma {:induction false} ReportFrame(w: World, id: Id, garbage: Policer)
    ensures SameGateway(w, ReportStats(w, id, garbage))
  {
  }

  /** The plug-in has touched nothing but its own state and the stream to the gateway. */
  ghost predicate SameGateway(w: World, v: World)
  {
    && v.devices == w.devices && v.link == w.link && v.synced == w.synced && v.toPlugin == w.toPlugin
    && (v.toGateway == w.toGateway || exists m :: v.toGateway == w.toGateway + [m])
  }

  /** Refinement: the plug-in's handling of a message, seen through its rules, is `Apply`. */
  lemma {:induction false} PluginApplies(w: World)
    requires w.toPlugin != []
    ensures View(PluginReceive(w).rules) == Apply(w.toPlugin[0], View(w.rules))
  {
    var v := w.(toPlugin := w.toPlugin[1..]);
    match w.toPlugin[0]
    case Install(p) =>
      assert PluginReceive(w) == InstallRule(v, p);
      if p.clientId.name != [] { ViewUpdate(w.rules, p.clientId, NewPolicer(p.qos, p.ppm, p.payloadLen)); }
    case Remove(id) =>
      assert PluginReceive(w) == RemoveRule(v, id);
      if id.name != [] { ViewRemove(w.rules, id); }
    case GetStat(id, garbage, _) =>
      assert PluginReceive(w) == ReportStats(v, id, garbage);
      if id.name != [] { ReportView(v, id, garbage); }
  }

  // ---------------------------------------------------------------- the invariant

  /** A device with a policy is registered, with a keep-alive counter of 1 to 4. */
  ghost predicate DeviceOk(devices: map<Id, Device>, id: Id)
  {
    id in devices ==>
      && id.name != []
      && (devices[id].registered ==> 1 <= devices[id].kaCtr <= KEEP_ALIVE_COUNTER)
      && (devices[id].policy.Some? ==> devices[id].registered && devices[id].policy.value.clientId == id)
  }

  ghost predicate DevicesOk(devices: map<Id, Device>)
  {
    forall id :: DeviceOk(devices, id)
  }

  /** A statistics request in flight finds its rule on arrival exactly when it was promised at the send. */
  ghost predicate StatsFind(ms: seq<ToPlugin>, r: map<Id, Rule>)
  {
    ms != [] ==>
      var init, last := ms[..|ms| - 1], ms[|ms| - 1];
      StatsFind(init, r) && (last.GetStat? ==> (last.found <==> last.id in ApplyAll(init, r)))
  }

  /** Nothing has come over the connection yet. */
  ghost predicate Idle(w: World)
  {
    w.rules == map[] && w.toPlugin == [] && !w.synced
  }

  ghost predicate LinkOk(w: World)
  {
    match w.link
    case Down => Idle(w) && w.toGateway == []
    case Pending => Idle(w) && w.toGateway == [GetAll]
    case Up =>
      var r := ApplyAll(w.toPlugin, View(w.rules));
      if w.synced then r == Policies(w.devices)
      else r.Keys <= Policies(w.devices).Keys && w.toGateway != [] && w.toGateway[0] == GetAll
    case Broken => !w.synced
  }

  ghost predicate Inv(w: World)
  {
    DevicesOk(w.devices) && LinkOk(w) && StatsFind(w.toPlugin, View(w.rules))
  }

  // ---------------------------------------------------------------- the gateway's side

  /** Despite the assignment inside operator==, the device always ends up with the policy it was given. */
  lemma {:induction false} SetPolicyStores(current: Option<Policy>, p: Policy)
    ensures SetPolicyInfo(current, p).0 == p
  {
  }

  /**
   But the cloud is told on the wrong condition: exactly when the old policy is missing, differs in
   identity, QoS or payload length, or the new rate is zero, instead of whenever the policy changes.
   */
  lemma {:induction false} CloudToldExactly(old': Policy, p: Policy)
    ensures SetPolicyInfo(Some(old'), p).1
       <==> old'.clientId != p.clientId || old'.qos != p.qos || old'.payloadLen != p.payloadLen || p.ppm == 0
    ensures (SetPolicyInfo(Some(old'), p).1 <==> old' != p)
       <==> !(old'.(ppm := p.ppm) == p && (p.ppm == 0) == (old'.ppm == p.ppm))
  {
  }

  /** A first policy is always reported. */
  lemma FirstPolicyTold(p: Policy)
    ensures SetPolicyInfo(None, p) == (p, true)
  {
  }

  /** A change of the rate alone is not reported. */
  lemma CloudToldExample(id: Id)
    ensures !SetPolicyInfo(Some(Policy(id, 1, 10, 100)), Policy(id, 1, 20, 100)).1
  {
  }

  lemma {:induction false} PoliciesUpdate(devices: map<Id, Device>, id: Id, d: Device)
    ensures Policies(devices[id := d]) ==
              if d.policy.Some? then Policies(devices)[id := RuleOf(d.policy.value)] else Policies(devices) - {id}
  {
  }

  lemma {:induction false} DevicesUpdate(devices: map<Id, Device>, id: Id, d: Device)
    requires DevicesOk(devices) && DeviceOk(devices[id := d], id)
    ensures DevicesOk(devices[id := d])
  {
    var updated := devices[id := d];
    forall x ensures DeviceOk(updated, x) { assert DeviceOk(devices, x); }
  }

  /** A device change that leaves the policy alone. */
  lemma {:induction false} SamePolicy(w: World, id: Id, d: Device)
    requires Inv(w) && DeviceOk(w.devices[id := d], id)
    requires d.policy == if id in w.devices then w.devices[id].policy else None
    ensures Inv(SetDevice(w, id, d))
  {
    PoliciesUpdate(w.devices, id, d);
    assert Policies(w.devices[id := d]) == Policies(w.devices);
    DevicesUpdate(w.devices, id, d);
  }

  /** A policy change together with the message that announces it. */
  lemma {:induction false} PolicyAnnounced(w: World, id: Id, d: Device, m: ToPlugin)
    requires Inv(w) && id.name != [] && DeviceOk(w.devices[id := d], id)
    requires m == if d.policy.Some? then Install(d.policy.value) else Remove(id)
    ensures Inv(Send(SetDevice(w, id, d), m))
  {
    DevicesUpdate(w.devices, id, d);
    assert DeviceOk(w.devices[id := d], id);
    PoliciesUpdate(w.devices, id, d);
    if w.link == Up { ApplyAppend(w.toPlugin, m, View(w.rules)); StatsAppend(w.toPlugin, m, View(w.rules)); }
  }

  lemma {:induction false} StatsAppend(ms: seq<ToPlugin>, m: ToPlugin, r: map<Id, Rule>)
    requires StatsFind(ms, r)
    requires m.GetStat? ==> (m.found <==> m.id in ApplyAll(ms, r))
    ensures StatsFind(ms + [m], r)
  {
    assert (ms + [m])[..|ms|] == ms;
  }

  lemma {:induction false} StatsFirst(ms: seq<ToPlugin>, r: map<Id, Rule>)
    requires StatsFind(ms, r) && ms != []
    ensures StatsFind(ms[1..], Apply(ms[0], r))
    ensures ms[0].GetStat? ==> (ms[0].found <==> ms[0].id in r)
  {
    if |ms| == 1 {
      assert ms[..0] == [] && ms[1..] == [];
    } else {
      var init, last := ms[..|ms| - 1], ms[|ms| - 1];
      StatsFirst(init, r);
      ApplyFirst(init, r);
      assert ms[1..] == init[1..] + [last];
      StatsAppend(init[1..], last, Apply(ms[0], r));
    }
  }

  lemma {:induction false} StatsInstalls(ms: seq<ToPlugin>, devices: map<Id, Device>, order: seq<Id>, r: map<Id, Rule>)
    requires StatsFind(ms, r)
    ensures StatsFind(ms + Installs(devices, order), r)
  {
    if order == [] {
      assert ms + [] == ms;
    } else {
      var init, id := order[..|order| - 1], order[|order| - 1];
      StatsInstalls(ms, devices, init, r);
      if id in devices && devices[id].policy.Some? {
        var m := Install(devices[id].policy.value);
        assert ms + Installs(devices, order) == (ms + Installs(devices, init)) + [m];
        StatsAppend(ms + Installs(devices, init), m, r);
      } else {
        assert Installs(devices, order) == Installs(devices, init);
      }
    }
  }

  /** The install messages overwrite exactly the rules of the devices enumerated. */
  lemma {:induction false} InstallsApply(devices: map<Id, Device>, order: seq<Id>, r: map<Id, Rule>, x: Id)
    requires DevicesOk(devices)
    ensures var q, p := ApplyAll(Installs(devices, order), r), Policies(devices);
            && (x in q <==> x in r || (x in p && x in order))
            && (x in p && x in order ==> q[x] == p[x])
            && (x in r && !(x in p && x in order) ==> q[x] == r[x])
  {
    if order != [] {
      var init, id := order[..|order| - 1], order[|order| - 1];
      InstallsApply(devices, init, r, x);
      assert x in order <==> x in init || x == id by { assert order == init + [id]; }
      if id in devices && devices[id].policy.Some? {
        var p := devices[id].policy.value;
        assert p.clientId == id && id.name != [] by { assert DeviceOk(devices, id); }
        ApplyAppend(Installs(devices, init), Install(p), r);
        assert ApplyAll(Installs(devices, order), r) == ApplyAll(Installs(devices, init), r)[id := RuleOf(p)];
      } else {
        assert Installs(devices, order) == Installs(devices, init);
        assert id !in Policies(devices);
      }
    }
  }

  /** Serving the request for all rules brings the plug-in to the gateway's policies. */
  lemma {:induction false} SyncApplies(devices: map<Id, Device>, order: seq<Id>, r: map<Id, Rule>)
    requires DevicesOk(devices) && Enumerates(order, devices) && r.Keys <= Policies(devices).Keys
    ensures ApplyAll(Installs(devices, order), r) == Policies(devices)
  {
    forall x ensures x in Policies(devices) ==> x in devices.Keys { }
    hide ApplyAll, Installs, Policies, DevicesOk;
    var q, p := ApplyAll(Installs(devices, order), r), Policies(devices);
    forall x ensures (x in q <==> x in p) && (x in p ==> q[x] == p[x]) {
      InstallsApply(devices, order, r, x);
      assert x in r ==> x in r.Keys;
    }
  }

  // ---------------------------------------------------------------- every step

  lemma {:induction false} ExpireInv(w: World, id: Id)
    requires Inv(w) && id in w.devices
    ensures Inv(Expire(w, id))
  {
    var d := w.devices[id];
    assert DeviceOk(w.devices, id);
    if d.kaCtr != 0 {
      var e := d.(kaCtr := d.kaCtr - 1);
      if e.kaCtr == 0 && e.registered {
        var f := e.(registered := false);
        var v := SetDevice(w, id, f);
        if d.policy.Some? {
          var g := f.(policy := None);
          assert Expire(w, id) == Uninstall(v, id);
          assert v.devices[id := g] == w.devices[id := g];
          assert Expire(w, id) == Send(SetDevice(w, id, g), Remove(id));
          PolicyAnnounced(w, id, g, Remove(id));
        } else {
          SamePolicy(w, id, f);
        }
      } else {
        SamePolicy(w, id, e);
      }
    }
  }

  lemma {:induction false} PutPolicyInv(w: World, id: Id, p: Policy)
    requires Inv(w) && id in w.devices && w.devices[id].registered && p.clientId == id
    ensures Inv(StorePolicy(w, id, p))
  {
    assert DeviceOk(w.devices, id);
    SetPolicyStores(w.devices[id].policy, p);
    PolicyAnnounced(w, id, w.devices[id].(policy := Some(p)), Install(p));
  }

  lemma {:induction false} StatAlarmInv(w: World, id: Id, garbage: Policer)
    requires Inv(w) && id in w.devices && w.devices[id].policy.Some?
    ensures var client := w.devices[id].policy.value.clientId;
            Inv(Send(w, GetStat(client, garbage, Finds(w, client))))
  {
    assert DeviceOk(w.devices, id);
    if w.link == Up {
      var m := GetStat(id, garbage, Finds(w, id));
      ApplyAppend(w.toPlugin, m, View(w.rules));
      StatsAppend(w.toPlugin, m, View(w.rules));
    }
  }

  lemma {:induction false} ServeAllInv(w: World, order: seq<Id>)
    requires Inv(w) && w.link == Up && Enumerates(order, w.devices) && w.toGateway != []
    ensures Inv(w.(toGateway := w.toGateway[1..], toPlugin := w.toPlugin + Installs(w.devices, order), synced := true))
  {
    var r := ApplyAll(w.toPlugin, View(w.rules));
    ApplyConcat(w.toPlugin, Installs(w.devices, order), View(w.rules));
    SyncApplies(w.devices, order, r);
    StatsInstalls(w.toPlugin, w.devices, order, View(w.rules));
  }

  lemma {:induction false} GatewayReceiveInv(w: World, order: seq<Id>, known: bool)
    requires Inv(w) && w.toGateway != [] && Enumerates(order, w.devices) && (w.link == Up || w.link == Broken)
    ensures Inv(GatewayReceive(w, order, known))
  {
    var v := GatewayReceive(w, order, known);
    if w.toGateway[0] == GetAll && w.link == Up {
      ServeAllInv(w, order);
    } else {
      assert v.devices == w.devices && v.link == w.link && v.synced == w.synced;
      assert v.toPlugin == w.toPlugin && v.rules == w.rules;
    }
  }

  /** What the plug-in does with a message, and the message itself, taken together keep the invariant. */
  lemma {:induction false} PluginStepInv(w: World, v: World)
    requires Inv(w) && w.toPlugin != [] && (w.link == Up || w.link == Broken)
    requires SameGateway(w.(toPlugin := w.toPlugin[1..]), v)
    requires View(v.rules) == Apply(w.toPlugin[0], View(w.rules))
    ensures Inv(v)
  {
    ApplyFirst(w.toPlugin, View(w.rules));
    StatsFirst(w.toPlugin, View(w.rules));
  }

  lemma {:induction false} ReceiveFrame(w: World)
    requires w.toPlugin != []
    ensures SameGateway(w.(toPlugin := w.toPlugin[1..]), PluginReceive(w))
  {
    var v := w.(toPlugin := w.toPlugin[1..]);
    match w.toPlugin[0]
    case Install(p) => assert PluginReceive(w) == InstallRule(v, p);
    case Remove(id) => assert PluginReceive(w) == RemoveRule(v, id);
    case GetStat(id, garbage, _) =>
      assert PluginReceive(w) == ReportStats(v, id, garbage);
      ReportFrame(v, id, garbage);
  }

  lemma {:induction false} PluginReceiveInv(w: World)
    requires Inv(w) && w.toPlugin != [] && (w.link == Up || w.link == Broken)
    ensures Inv(PluginReceive(w))
  {
    ReceiveFrame(w);
    PluginApplies(w);
    PluginStepInv(w, PluginReceive(w));
  }

  lemma {:induction false} CountersInv(w: World, v: World)
    requires Inv(w) && View(v.rules) == View(w.rules)
    requires v.devices == w.devices && v.link == w.link && v.synced == w.synced
    requires v.toPlugin == w.toPlugin && v.toGateway == w.toGateway
    requires w.link == Down || w.link == Pending ==> v.rules == w.rules
    ensures Inv(v)
  {
  }

  lemma {:induction false} FilterDstInv(w: World, dst: Id, pkt: Packet)
    requires Inv(w)
    ensures Inv(FilterDst(w, dst, pkt))
  {
    var v := FilterDst(w, dst, pkt);
    if dst in w.rules {
      var q := FilterPacket(w.rules[dst], pkt).0;
      assert v.rules == w.rules[dst := q];
      ViewSame(w.rules, dst, q);
      CountersInv(w, v);
    } else {
      assert v == w;
    }
  }

  lemma {:induction false} CountSrcInv(w: World, src: Id, pass: bool)
    requires Inv(w)
    ensures Inv(CountSrc(w, src, pass))
  {
    CountersInv(w, CountSrc(w, src, pass));
  }

  lemma {:induction false} FilterInv(w: World, dst: Id, src: Option<Id>, pkt: Packet)
    requires Inv(w)
    ensures Inv(Filter(w, dst, src, pkt))
  {
    hide Inv, FilterDst, CountSrc, Passes;
    FilterDstInv(w, dst, pkt);
    if src.Some? { CountSrcInv(FilterDst(w, dst, pkt), src.value, Passes(w, dst, pkt)); }
  }

  lemma {:induction false} StepInv(w: World, e: Event)
    requires Inv(w)
    ensures Inv(Step(w, e))
  {
    assert DevicesOk(w.devices);
    hide Inv, DevicesOk, Expire, StorePolicy, GatewayReceive, PluginReceive, Finds, Filter, StartWindows,
         Enumerates, Passes, DropConnection, RestartPlugin, Plus, InFlight, SetDevice;
    match e
    case Register(id, counter) =>
      if id.name != [] { AliveInv(w, id, if id in w.devices then w.devices[id] else Device(false, counter, None)); }
    case KeepAlive(id) =>
      if id in w.devices && w.devices[id].registered { AliveInv(w, id, w.devices[id]); }
    case KeepAliveExpired(id) => if id in w.devices { ExpireInv(w, id); }
    case PutPolicy(id, qos, ppm, len) =>
      if id in w.devices && w.devices[id].registered { PutPolicyInv(w, id, Policy(id, qos, ppm, len)); }
    case StatAlarm(id, garbage) =>
      if id in w.devices && w.devices[id].policy.Some? { StatAlarmInv(w, id, garbage); }
    case GatewayReceives(order, known) =>
      if (w.link == Up || w.link == Broken) && w.toGateway != [] && Enumerates(order, w.devices) {
        GatewayReceiveInv(w, order, known);
      }
    case GatewayRestarts => RestartInv(w);
    case PluginConnects => LinkStepInv(w, e);
    case GatewayAccepts => LinkStepInv(w, e);
    case LinkBreaks => LinkStepInv(w, e);
    case PluginNotices => if w.link == Broken { DropInv(w); }
    case PluginRestarts => RestartPluginInv(w);
    case PluginReceives =>
      if (w.link == Up || w.link == Broken) && w.toPlugin != [] { PluginReceiveInv(w); }
    case PacketArrives(dst, src, pkt) =>
      FilterInv(w, dst, src, pkt);
    case WindowStarts => WindowInv(w);
  }

  lemma {:induction false} AliveInv(w: World, id: Id, d: Device)
    requires Inv(w) && if id in w.devices then d == w.devices[id] else id.name != [] && d.policy == None
    ensures Inv(SetDevice(w, id, d.(registered := true, kaCtr := KEEP_ALIVE_COUNTER)))
  {
    assert DeviceOk(w.devices, id);
    hide Inv;
    SamePolicy(w, id, d.(registered := true, kaCtr := KEEP_ALIVE_COUNTER));
  }

  lemma {:induction false} LinkStepInv(w: World, e: Event)
    requires Inv(w) && (e.PluginConnects? || e.GatewayAccepts? || e.LinkBreaks?)
    ensures Inv(Step(w, e))
  {
    hide DevicesOk, Policies;
    assert w.link == Pending ==> ApplyAll([], View(w.rules)) == map[];
  }

  lemma {:induction false} RestartInv(w: World)
    requires Inv(w)
    ensures Inv(Step(w, GatewayRestarts))
  {
    hide Plus, InFlight, Policies, StatsFind;
    forall id ensures DeviceOk(map[], id) { }
  }

  lemma {:induction false} RestartPluginInv(w: World)
    requires DevicesOk(w.devices)
    ensures Inv(RestartPlugin(w))
  {
    hide Plus, TxCounts, Inv, DropConnection, DevicesOk;
    DropInv(w.(tx := map[], discarded := Plus(w.discarded, TxCounts(w.tx, w.watch))));
  }

  lemma {:induction false} DropInv(w: World)
    requires DevicesOk(w.devices)
    ensures Inv(DropConnection(w))
  {
    hide Plus, InFlight, RuleCounts, DevicesOk;
  }

  lemma {:induction false} WindowInv(w: World)
    requires Inv(w)
    ensures Inv(w.(rules := StartWindows(w.rules)))
  {
    assert View(StartWindows(w.rules)) == View(w.rules);
    assert w.rules == map[] ==> StartWindows(w.rules) == map[];
    CountersInv(w, w.(rules := StartWindows(w.rules)));
  }

  /** The invariant holds after any sequence of events. */
  lemma {:induction false} RunInv(watch: Id, es: seq<Event>)
    ensures Inv(Run(Init(watch), es))
  {
    if es == [] {
      forall id ensures DeviceOk(map[], id) { }
    } else {
      RunInv(watch, es[..|es| - 1]);
      StepInv(Run(Init(watch), es[..|es| - 1]), es[|es| - 1]);
    }
  }
}
