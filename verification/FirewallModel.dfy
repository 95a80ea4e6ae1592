/**
 The distributed firewall: the gateway keeps one policy per registered device, the broker plug-in
 keeps one policer per rule and counts packets, and they talk over one stream in each direction.

 `World` is both processes, the connection and the messages in flight.  The accounts `filtered`,
 `injected` and `discarded` are kept for one client, `watch`, which no step depends on: what is
 proved of them holds for every client.
 */
module FirewallModel {
  import opened Machine
  import opened Memory
  import opened PacketPolicer

  /** A client identity: a byte string. */
  datatype Id = Id(name: Bytes)

  datatype Policy = Policy(clientId: Id, qos: u16, ppm: u16, payloadLen: u16)

  /** What a rule says, without its counters. */
  datatype Rule = Rule(maxQos: u8, ppm: u16, maxPayloadLen: u16)

  datatype Device = Device(registered: bool, kaCtr: u8, policy: Option<Policy>)

  datatype TxStats = TxStats(passed: u32, dropped: u32)

  /** The four packet counts of a client. */
  datatype Counts = Counts(ruleDropped: int, rulePassed: int, txDropped: int, txPassed: int)

  /**
   Gateway to plug-in.  A statistics request carries two things that are not on the wire: the
   contents the plug-in's memory happens to have for a policer the request may create, and whether
   the rules and the messages ahead of it promised its rule when it was sent.
   */
  datatype ToPlugin =
    | Install(policy: Policy)
    | Remove(id: Id)
    | GetStat(id: Id, garbage: Policer, found: bool)

  /** Plug-in to gateway. */
  datatype ToGateway = GetAll | PutStat(id: Id, counts: Counts)

  /** Pending: the plug-in has connected, the gateway has not accepted.  Broken: the plug-in has not
      noticed yet that the connection is gone. */
  datatype Link = Down | Pending | Up | Broken

  datatype World = World(devices: map<Id, Device>, totals: map<Id, Counts>,
                         link: Link, synced: bool, toPlugin: seq<ToPlugin>, toGateway: seq<ToGateway>,
                         rules: map<Id, Policer>, tx: map<Id, TxStats>,
                         watch: Id, filtered: Counts, injected: Counts, discarded: Counts)

  const KEEP_ALIVE_COUNTER := 4   // ATLAS_KEEP_ALIVE_COUNTER

  datatype Event =
    | Register(id: Id, counter: u8)   // the counter of a new device object is not initialized
    | KeepAlive(id: Id)
    | KeepAliveExpired(id: Id)
    | PutPolicy(id: Id, qos: u16, ppm: u16, payloadLen: u16)
    | StatAlarm(id: Id, garbage: Policer)
    | GatewayReceives(order: seq<Id>, known: bool)
    | GatewayRestarts
    | PluginConnects
    | GatewayAccepts
    | LinkBreaks
    | PluginNotices
    | PluginRestarts
    | PluginReceives
    | PacketArrives(dst: Id, src: Option<Id>, pkt: Packet)
    | WindowStarts

  // ---------------------------------------------------------------- counts

  const ZERO := Counts(0, 0, 0, 0)

  function Plus(a: Counts, b: Counts): Counts
  {
    Counts(a.ruleDropped + b.ruleDropped, a.rulePassed + b.rulePassed,
           a.txDropped + b.txDropped, a.txPassed + b.txPassed)
  }

  function Wrap(a: Counts): Counts
  {
    Counts(a.ruleDropped % 0x1_0000_0000, a.rulePassed % 0x1_0000_0000,
           a.txDropped % 0x1_0000_0000, a.txPassed % 0x1_0000_0000)
  }

  function TotalOf(totals: map<Id, Counts>, id: Id): Counts
  {
    if id in totals then totals[id] else ZERO
  }

  function RuleCounts(rules: map<Id, Policer>, id: Id): Counts
  {
    if id in rules then Counts(rules[id].dropped, rules[id].passed, 0, 0) else ZERO
  }

  function TxCounts(tx: map<Id, TxStats>, id: Id): Counts
  {
    if id in tx then Counts(0, 0, tx[id].dropped, tx[id].passed) else ZERO
  }

  /** What a message carries of the statistics of `id`. */
  function Weight(m: ToGateway, id: Id): Counts
  {
    if m.PutStat? && m.id == id then m.counts else ZERO
  }

  /** The statistics of `id` that are on their way to the gateway. */
  function InFlight(ms: seq<ToGateway>, id: Id): Counts
  {
    if ms == [] then ZERO else Plus(Weight(ms[0], id), InFlight(ms[1..], id))
  }

  function Discard(w: World, id: Id, c: Counts): (v: World)
    ensures v == w.(discarded := v.discarded)
  {
    if id == w.watch then w.(discarded := Plus(w.discarded, c)) else w
  }

  // ---------------------------------------------------------------- what the messages do to the rules

  function RuleOf(p: Policy): Rule
  {
    Rule(p.qos % 256, p.ppm, p.payloadLen)
  }

  function RuleOfPolicer(p: Policer): Rule
  {
    Rule(p.maxQos, p.ppm, p.maxPayloadLen)
  }

  function View(rules: map<Id, Policer>): (v: map<Id, Rule>)
    ensures v.Keys == rules.Keys
  {
    map id | id in rules :: RuleOfPolicer(rules[id])
  }

  function Apply(m: ToPlugin, r: map<Id, Rule>): map<Id, Rule>
  {
    match m
    case Install(p) => if p.clientId.name == [] then r else r[p.clientId := RuleOf(p)]
    case Remove(id) => if id.name == [] then r else r - {id}
    case GetStat(id, garbage, _) => if id.name == [] || id in r then r else r[id := RuleOfPolicer(garbage)]
  }

  /** The rules once all messages in flight have arrived. */
  function ApplyAll(ms: seq<ToPlugin>, r: map<Id, Rule>): map<Id, Rule>
  {
    if ms == [] then r else Apply(ms[|ms| - 1], ApplyAll(ms[..|ms| - 1], r))
  }

  /** A request for the statistics of `id` sent now will find its rule: the messages ahead of it leave one. */
  predicate Finds(w: World, id: Id)
  {
    id in ApplyAll(w.toPlugin, View(w.rules))
  }

  // ---------------------------------------------------------------- the gateway

  /**
   operator== of a policy: it assigns the packet rate of the other policy to this one when the
   identities and QoS limits agree, and takes that rate, if it is not zero, for equal.
   */
  function PolicyEquals(a: Policy, c: Policy): (bool, Policy)
  {
    if a.clientId == c.clientId && a.qos == c.qos then
      (c.ppm != 0 && a.payloadLen == c.payloadLen, a.(ppm := c.ppm))
    else (false, a)
  }

  /** setPolicyInfo: the policy the device has afterwards, and whether the cloud is told. */
  function SetPolicyInfo(current: Option<Policy>, p: Policy): (Policy, bool)
  {
    if current.None? then (p, true)
    else
      var r := PolicyEquals(current.value, p);
      if r.0 then (r.1, false) else (p, true)
  }

  /** A write reaches the plug-in only over an accepted connection. */
  function Send(w: World, m: ToPlugin): (v: World)
    ensures v == w.(devices := v.devices, toPlugin := v.toPlugin)
  {
    if w.link == Up then w.(toPlugin := w.toPlugin + [m]) else w
  }

  function SetDevice(w: World, id: Id, d: Device): (v: World)
    ensures v == w.(devices := v.devices, toPlugin := v.toPlugin)
  {
    w.(devices := w.devices[id := d])
  }

  /** uninstallPolicy. */
  function Uninstall(w: World, id: Id): (v: World)
    requires id in w.devices
    ensures v == w.(devices := v.devices, toPlugin := v.toPlugin)
  {
    var d := w.devices[id];
    if d.policy.None? then w
    else
      var p := d.policy.value;
      SetDevice(if p.clientId.name == [] then w else Send(w, Remove(p.clientId)), id, d.(policy := None))
  }

  /** keepAliveExpired. */
  function Expire(w: World, id: Id): (v: World)
    requires id in w.devices
    ensures v == w.(devices := v.devices, toPlugin := v.toPlugin)
  {
    var d := w.devices[id];
    if d.kaCtr == 0 then w
    else
      var e := d.(kaCtr := d.kaCtr - 1);
      if e.kaCtr == 0 && e.registered then Uninstall(SetDevice(w, id, e.(registered := false)), id)
      else SetDevice(w, id, e)
  }

  /** firewallPolicyCallback, once the request is parsed. */
  function StorePolicy(w: World, id: Id, p: Policy): (v: World)
    requires id in w.devices
    ensures v == w.(devices := v.devices, toPlugin := v.toPlugin)
  {
    var d := w.devices[id];
    var stored := SetPolicyInfo(d.policy, p).0;
    Send(SetDevice(w, id, d.(policy := Some(stored))), Install(stored))
  }

  /** The install messages for the devices of `order` that have a policy. */
  function Installs(devices: map<Id, Device>, order: seq<Id>): seq<ToPlugin>
  {
    if order == [] then []
    else
      var id := order[|order| - 1];
      Installs(devices, order[..|order| - 1]) +
      if id in devices && devices[id].policy.Some? then [Install(devices[id].policy.value)] else []
  }

  /** `order` enumerates the device map. */
  predicate Enumerates(order: seq<Id>, devices: map<Id, Device>)
  {
    devices.Keys == set id | id in order
  }

  /** processFirewallRuleStat and updateFirewallStats; an unknown device has no totals. */
  function AddStats(w: World, id: Id, c: Counts, known: bool): (v: World)
    ensures v == w.(totals := v.totals, discarded := v.discarded)
  {
    if c == ZERO then w
    else if !known then Discard(w, id, c)
    else w.(totals := w.totals[id := Wrap(Plus(TotalOf(w.totals, id), c))])
  }

  /** One message from the plug-in. */
  function GatewayReceive(w: World, order: seq<Id>, known: bool): (v: World)
    requires w.toGateway != []
    ensures v == w.(toGateway := w.toGateway[1..], toPlugin := v.toPlugin, synced := v.synced,
                    totals := v.totals, discarded := v.discarded)
    ensures v.toPlugin == w.toPlugin || v.toPlugin == w.toPlugin + Installs(w.devices, order)
  {
    var m := w.toGateway[0];
    var v := w.(toGateway := w.toGateway[1..]);
    match m
    case GetAll =>
      if w.link == Up then v.(toPlugin := w.toPlugin + Installs(w.devices, order), synced := true) else v
    case PutStat(id, c) => AddStats(v, id, c, known)
  }

  // ---------------------------------------------------------------- the plug-in

  /** The counts a rule loses when it is replaced or erased. */
  function LoseCounts(w: World, id: Id): (v: World)
    ensures v == w.(discarded := v.discarded)
  {
    Discard(w, id, Plus(RuleCounts(w.rules, id), TxCounts(w.tx, id)))
  }

  function InstallRule(w: World, p: Policy): (v: World)
    ensures v == w.(rules := v.rules, tx := v.tx, discarded := v.discarded)
  {
    if p.clientId.name == [] then w
    else
      LoseCounts(w, p.clientId)
        .(rules := w.rules[p.clientId := NewPolicer(p.qos, p.ppm, p.payloadLen)],
          tx := w.tx[p.clientId := TxStats(0, 0)])
  }

  function RemoveRule(w: World, id: Id): (v: World)
    ensures v == w.(rules := v.rules, tx := v.tx, discarded := v.discarded)
  {
    if id.name == [] then w else LoseCounts(w, id).(rules := w.rules - {id}, tx := w.tx - {id})
  }

  /** The map access of a statistics request creates a policer with arbitrary contents if there is none. */
  function TouchRule(w: World, id: Id, garbage: Policer): (v: World)
    ensures id in v.rules && v == w.(rules := v.rules, injected := v.injected)
  {
    if id in w.rules then w
    else
      var v := w.(rules := w.rules[id := garbage]);
      if id == w.watch then v.(injected := Plus(w.injected, Counts(garbage.dropped, garbage.passed, 0, 0))) else v
  }

  function ClearStats(w: World, id: Id): World
    requires id in w.rules
  {
    w.(rules := w.rules[id := w.rules[id].(dropped := 0, passed := 0)], tx := w.tx[id := TxStats(0, 0)])
  }

  function WriteStats(w: World, id: Id, c: Counts): (v: World)
    ensures v == w.(toGateway := v.toGateway, discarded := v.discarded)
    ensures v.toGateway == w.toGateway || v.toGateway == w.toGateway + [PutStat(id, c)]
  {
    if w.link == Up then w.(toGateway := w.toGateway + [PutStat(id, c)]) else Discard(w, id, c)
  }

  /** getFirewallRuleStats: read the counters, clear them, send them. */
  function ReportStats(w: World, id: Id, garbage: Policer): (v: World)
    ensures v == w.(toGateway := v.toGateway, rules := v.rules, tx := v.tx,
                    injected := v.injected, discarded := v.discarded)
  {
    if id.name == [] then w
    else
      var v := TouchRule(w, id, garbage);
      WriteStats(ClearStats(v, id), id, Plus(RuleCounts(v.rules, id), TxCounts(v.tx, id)))
  }

  /** One message from the gateway. */
  function PluginReceive(w: World): (v: World)
    requires w.toPlugin != []
    ensures v == w.(toPlugin := w.toPlugin[1..], toGateway := v.toGateway, rules := v.rules, tx := v.tx,
                    injected := v.injected, discarded := v.discarded)
  {
    var v := w.(toPlugin := w.toPlugin[1..]);
    match w.toPlugin[0]
    case Install(p) => InstallRule(v, p)
    case Remove(id) => RemoveRule(v, id)
    case GetStat(id, garbage, _) => ReportStats(v, id, garbage)
  }

  /** gatewayConnect, first part: all rules go, the transmit statistics stay. */
  function DropConnection(w: World): World
  {
    w.(link := Down, synced := false, rules := map[], toPlugin := [], toGateway := [],
       discarded := Plus(w.discarded, Plus(RuleCounts(w.rules, w.watch), InFlight(w.toGateway, w.watch))))
  }

  /** A new plug-in process: nothing of the old one is left. */
  function RestartPlugin(w: World): World
  {
    DropConnection(w.(tx := map[], discarded := Plus(w.discarded, TxCounts(w.tx, w.watch))))
  }

  function Count(c: Counts, rule: bool, pass: bool): Counts
  {
    if rule then (if pass then c.(rulePassed := c.rulePassed + 1) else c.(ruleDropped := c.ruleDropped + 1))
    else (if pass then c.(txPassed := c.txPassed + 1) else c.(txDropped := c.txDropped + 1))
  }

  /** The verdict on a packet: a destination without a rule accepts everything. */
  predicate Passes(w: World, dst: Id, pkt: Packet)
  {
    dst in w.rules ==> FilterPacket(w.rules[dst], pkt).1
  }

  function FilterDst(w: World, dst: Id, pkt: Packet): (v: World)
    ensures v == w.(rules := v.rules, filtered := v.filtered)
  {
    if dst !in w.rules then w
    else
      var r := FilterPacket(w.rules[dst], pkt);
      var v := w.(rules := w.rules[dst := r.0]);
      if dst == w.watch then v.(filtered := Count(w.filtered, true, r.1)) else v
  }

  function CountSrc(w: World, src: Id, pass: bool): (v: World)
    ensures v == w.(tx := v.tx, filtered := v.filtered)
  {
    if src !in w.tx then w
    else
      var t := w.tx[src];
      var v := w.(tx := w.tx[src := if pass then t.(passed := Inc(t.passed)) else t.(dropped := Inc(t.dropped))]);
      if src == w.watch then v.(filtered := Count(w.filtered, false, pass)) else v
  }

  /** filter. */
  function Filter(w: World, dst: Id, src: Option<Id>, pkt: Packet): World
  {
    var v := FilterDst(w, dst, pkt);
    if src.None? then v else CountSrc(v, src.value, Passes(w, dst, pkt))
  }

  function StartWindows(rules: map<Id, Policer>): map<Id, Policer>
  {
    map id | id in rules :: StartWindow(rules[id])
  }

  // ---------------------------------------------------------------- steps

  function Step(w: World, e: Event): World
  {
    match e
    case Register(id, counter) =>
      if id.name == [] then w
      else
        var d := if id in w.devices then w.devices[id] else Device(false, counter, None);
        SetDevice(w, id, d.(registered := true, kaCtr := KEEP_ALIVE_COUNTER))
    case KeepAlive(id) =>
      if id !in w.devices || !w.devices[id].registered then w
      else SetDevice(w, id, w.devices[id].(kaCtr := KEEP_ALIVE_COUNTER))
    case KeepAliveExpired(id) => if id !in w.devices then w else Expire(w, id)
    case PutPolicy(id, qos, ppm, len) =>
      if id !in w.devices || !w.devices[id].registered then w
      else StorePolicy(w, id, Policy(id, qos, ppm, len))
    case StatAlarm(id, garbage) =>
      if id !in w.devices || w.devices[id].policy.None? || w.devices[id].policy.value.clientId.name == [] then w
      else
        var client := w.devices[id].policy.value.clientId;
        Send(w, GetStat(client, garbage, Finds(w, client)))
    case GatewayReceives(order, known) =>
      if (w.link != Up && w.link != Broken) || w.toGateway == [] || !Enumerates(order, w.devices) then w
      else GatewayReceive(w, order, known)
    case GatewayRestarts =>
      w.(devices := map[], link := if w.link == Down then Down else Broken, synced := false, toGateway := [],
         discarded := Plus(w.discarded, InFlight(w.toGateway, w.watch)))
    case PluginConnects => if w.link != Down then w else w.(link := Pending, toGateway := [GetAll])
    case GatewayAccepts => if w.link != Pending then w else w.(link := Up)
    case LinkBreaks => if w.link != Up && w.link != Pending then w else w.(link := Broken, synced := false)
    case PluginNotices => if w.link != Broken then w else DropConnection(w)
    case PluginRestarts => RestartPlugin(w)
    case PluginReceives =>
      if (w.link != Up && w.link != Broken) || w.toPlugin == [] then w else PluginReceive(w)
    case PacketArrives(dst, src, pkt) => Filter(w, dst, src, pkt)
    case WindowStarts => w.(rules := StartWindows(w.rules))
  }

  /** Both processes just started, nothing connected. */
  function Init(watch: Id): World
  {
    World(map[], map[], Down, false, [], [], map[], map[], watch, ZERO, ZERO, ZERO)
  }

  function Run(w: World, es: seq<Event>): World
  {
    if es == [] then w else Step(Run(w, es[..|es| - 1]), es[|es| - 1])
  }
}
