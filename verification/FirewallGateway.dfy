/**
 The gateway's side of the firewall as an object: devices with their policies and statistics, and the
 agent that talks to the plug-in.  As in the plug-in, the ghost field `world` moves by the model.
 */
module FirewallGateway {
  import opened Machine
  import opened Sequences
  import opened Memory
  import opened CommandCodec
  import opened FirewallModel
  import opened FirewallAgreement
  import opened FirewallWire
  import opened FirewallPlugin

  // AtlasCommandType.h: the fields of a client's policy request
  const POLICY_MAX_QOS: u16 := 1100
  const POLICY_PPM: u16 := 1101
  const POLICY_MAXLEN: u16 := 1102

  // ---------------------------------------------------------------- specifications

  predicate PolicyField(typ: u16)
  {
    typ == POLICY_MAX_QOS || typ == POLICY_PPM || typ == POLICY_MAXLEN
  }

  /** One policy field of the wrong size spoils the whole request. */
  ghost predicate WellSized(cs: seq<Tlv>)
  {
    forall i :: 0 <= i < |cs| && PolicyField(cs[i].typ) ==> |cs[i].val| == 2
  }

  /** The policy a client asks for: every field present, none of the wrong size, the last one counts. */
  ghost function DecodePolicyRequest(id: Id, cs: seq<Tlv>): Option<Policy>
  {
    var qos, ppm := LastSized(cs, POLICY_MAX_QOS, 2), LastSized(cs, POLICY_PPM, 2);
    var len := LastSized(cs, POLICY_MAXLEN, 2);
    if !WellSized(cs) || qos.None? || ppm.None? || len.None? then None
    else Some(Policy(id, ToU16(qos.value), ToU16(ppm.value), ToU16(len.value)))
  }

  /** `typ` occurs, always with the value `v`. */
  ghost predicate Says(cs: seq<Tlv>, typ: u16, v: Bytes)
  {
    && (exists i :: 0 <= i < |cs| && cs[i].typ == typ)
    && (forall i :: 0 <= i < |cs| && cs[i].typ == typ ==> cs[i].val == v)
  }

  lemma {:induction false} SaysLast(cs: seq<Tlv>, typ: u16, v: Bytes, n: nat)
    requires Says(cs, typ, v) && |v| == n
    ensures LastSized(cs, typ, n) == Some(v)
  {
    var init, last := cs[..|cs| - 1], cs[|cs| - 1];
    if last.typ != typ {
      var i :| 0 <= i < |cs| && cs[i].typ == typ;
      assert init[i].typ == typ;
      SaysLast(init, typ, v, n);
    }
  }

  /**
   A client that says each of the three fields, in whatever order, however often and with whatever other
   commands around them, gets exactly the policy it asked for.
   */
  lemma {:induction false} PolicyRequestDecodes(id: Id, cs: seq<Tlv>, qos: u16, ppm: u16, len: u16)
    requires Says(cs, POLICY_MAX_QOS, Be16(qos)) && Says(cs, POLICY_PPM, Be16(ppm))
    requires Says(cs, POLICY_MAXLEN, Be16(len))
    ensures DecodePolicyRequest(id, cs) == Some(Policy(id, qos, ppm, len))
  {
    SaysLast(cs, POLICY_MAX_QOS, Be16(qos), 2);
    SaysLast(cs, POLICY_PPM, Be16(ppm), 2);
    SaysLast(cs, POLICY_MAXLEN, Be16(len), 2);
  }

  /** The statistics of all devices of `order` are requested. */
  function RequestStats(w: World, order: seq<Id>, gs: seq<PacketPolicer.Policer>): World
    requires |order| <= |gs|
  {
    if order == [] then w
    else Step(RequestStats(w, order[..|order| - 1], gs), StatAlarm(order[|order| - 1], gs[|order| - 1]))
  }

  lemma {:induction false} NoStats(w: World, gs: seq<PacketPolicer.Policer>)
    ensures RequestStats(w, [], gs) == w
  {
  }

  lemma {:induction false} NextStats(w: World, order: seq<Id>, gs: seq<PacketPolicer.Policer>, i: nat)
    requires i < |order| <= |gs|
    ensures RequestStats(w, order[..i + 1], gs) == Step(RequestStats(w, order[..i], gs), StatAlarm(order[i], gs[i]))
  {
    hide Step;
    assert order[..i + 1][..i] == order[..i];
  }

  lemma {:induction false} StatStep(w: World, id: Id, garbage: PacketPolicer.Policer)
    ensures Step(w, StatAlarm(id, garbage)) ==
            if id !in w.devices || w.devices[id].policy.None? || w.devices[id].policy.value.clientId.name == [] then w
            else
              var client := w.devices[id].policy.value.clientId;
              Send(w, GetStat(client, garbage, Finds(w, client)))
  {
    hide Finds;
  }

  function Told(connected: bool, r: Request): Bytes
  {
    if connected then Encode(RequestCommand(r)) else []
  }

  /** The bytes of the install messages for all devices of `order`. */
  function ToldAll(connected: bool, devices: map<Id, Device>, order: seq<Id>): Bytes
  {
    if order == [] then []
    else
      var id := order[|order| - 1];
      ToldAll(connected, devices, order[..|order| - 1]) +
      if id in devices && devices[id].policy.Some? then Told(connected, InstallRequest(devices[id].policy.value))
      else []
  }

  /** One command from the plug-in. */
  function HandleReport(w: World, c: Tlv, order: seq<Id>, known: bool): World
  {
    match DecodeReport(c)
    case None => w
    case Some(GetAll) =>
      if w.link == Up then w.(toPlugin := w.toPlugin + Installs(w.devices, order), synced := true) else w
    case Some(PutStat(id, counts)) => AddStats(w, id, counts, known)
  }

  function HandleReports(w: World, cs: seq<Tlv>, order: seq<Id>, known: bool): (v: World)
    ensures v.devices == w.devices
  {
    if cs == [] then w else HandleReport(HandleReports(w, cs[..|cs| - 1], order, known), cs[|cs| - 1], order, known)
  }

  /**
   What the gateway does with the bytes of a report is what the model does with the report; past the
   limit it adds the counts to the identity the wire cuts, or drops them.
   */
  lemma {:induction false} ReceivesBytes(w: World, order: seq<Id>, known: bool)
    requires w.toGateway != [] && Sendable(w.toGateway[0])
    ensures var m, v := w.toGateway[0], w.(toGateway := w.toGateway[1..]);
            HandleReports(v, Parse(Encode(ReportCommand(m))), order, known) ==
              if m.GetAll? || 0 < |m.id.name| <= 65499 then GatewayReceive(w, order, known)
              else
                var cut := Id(Cut(m.id.name));
                if 0 < |cut.name| <= 65499 then AddStats(v, cut, m.counts, known) else v
  {
    var m, v := w.toGateway[0], w.(toGateway := w.toGateway[1..]);
    var c := ReportCommand(m);
    ParseOne(c);
    ReportOne(v, c, order, known);
    hide Parse, Encode, Installs, AddStats;
    if m.GetAll? {
      ReportRoundTrip(m);
    } else {
      hide DecodeReport, ReportCommand;
      ReportDecodes(m.id, m.counts);
    }
  }

  lemma {:induction false} ReportOne(w: World, c: Tlv, order: seq<Id>, known: bool)
    ensures HandleReports(w, [c], order, known) == HandleReport(w, c, order, known)
  {
    hide HandleReport;
    assert [c][..0] == [];
    assert HandleReports(w, [], order, known) == w;
  }

  lemma {:induction false} InstallsNext(devices: map<Id, Device>, order: seq<Id>, i: nat, connected: bool)
    requires i < |order|
    ensures var id := order[i];
            var has := id in devices && devices[id].policy.Some?;
            && Installs(devices, order[..i + 1]) ==
               (if has then Installs(devices, order[..i]) + [Install(devices[id].policy.value)]
                else Installs(devices, order[..i]))
            && ToldAll(connected, devices, order[..i + 1]) ==
               (if !has then ToldAll(connected, devices, order[..i])
                else ToldAll(connected, devices, order[..i]) +
                     Told(connected, InstallRequest(devices[id].policy.value)))
  {
    hide Told;
    assert order[..i + 1][..i] == order[..i];
    Empty(Installs(devices, order[..i]));
    Empty(ToldAll(connected, devices, order[..i]));
  }

  // ---------------------------------------------------------------- the object

  class Gateway {
    var devices: map<Id, Device>
    var totals: map<Id, Counts>
    var connected: bool
    var written: Bytes
    ghost var world: World

    ghost predicate Valid()
      reads this
    {
      devices == world.devices && totals == world.totals && connected == (world.link == Up)
    }

    constructor (ghost world: World, totals: map<Id, Counts>)
      requires world.devices == map[] && world.totals == totals && world.link != Up
      ensures Valid() && this.world == world && written == []
    {
      devices, connected, written := map[], false, [];
      this.totals := totals;
      this.world := world;
    }

    method Write(bytes: Bytes)
      modifies this`written
      ensures written == old(written) + if connected then bytes else []
    {
      if connected {
        written := written + bytes;
      }
    }

    method InstallFirewallRule(p: Policy)
      requires Valid()
      modifies this`written, this`world
      ensures Valid() && world == Send(old(world), Install(p))
      ensures written == old(written) + Told(connected, InstallRequest(p))
      ensures Wrote(old(world), world, old(written), written)
    {
      var inner := SerializeFields(PolicyFields(p));
      var outer := SerializeFields([Field(INSTALL, inner)]);
      SerializeOne(Field(INSTALL, inner));
      WroteSend(world, Install(p), written);
      Write(outer);
      world := Send(world, Install(p));
    }

    method RemoveFirewallRule(id: Id)
      requires Valid()
      modifies this`written, this`world
      ensures Valid() && world == if id.name == [] then old(world) else Send(old(world), Remove(id))
      ensures written == old(written) + if id.name == [] then [] else Told(connected, RemoveRequest(id))
      ensures Wrote(old(world), world, old(written), written)
    {
      if id.name == [] {
        WroteNothing(world, world, written);
        return;
      }
      var inner := SerializeFields([Field(CLIENT_ID, id.name)]);
      var outer := SerializeFields([Field(REMOVE, inner)]);
      SerializeOne(Field(REMOVE, inner));
      WroteSend(world, Remove(id), written);
      Write(outer);
      world := Send(world, Remove(id));
    }

    method GetFirewallRuleStats(id: Id, ghost garbage: PacketPolicer.Policer)
      requires Valid()
      modifies this`written, this`world
      ensures Valid()
      ensures world == if id.name == [] then old(world)
                       else Send(old(world), GetStat(id, garbage, Finds(old(world), id)))
      ensures written == old(written) + if id.name == [] then [] else Told(connected, StatRequest(id))
      ensures Wrote(old(world), world, old(written), written)
    {
      if id.name == [] {
        WroteNothing(world, world, written);
        return;
      }
      var inner := SerializeFields([Field(CLIENT_ID, id.name)]);
      var outer := SerializeFields([Field(GET_STAT, inner)]);
      SerializeOne(Field(GET_STAT, inner));
      WroteSend(world, GetStat(id, garbage, Finds(world, id)), written);
      Write(outer);
      world := Send(world, GetStat(id, garbage, Finds(world, id)));
    }

    /** The device of an identity, created on first use; its keep-alive counter is not initialized. */
    method RegisterNow(id: Id, counter: u8)
      requires Valid() && id.name != []
      modifies this`devices, this`world
      ensures Valid() && world == Step(old(world), Register(id, counter))
    {
      if id !in devices {
        devices := devices[id := Device(false, counter, None)];
      }
      devices := devices[id := devices[id].(registered := true, kaCtr := KEEP_ALIVE_COUNTER)];
      world := Step(world, Register(id, counter));
    }

    method KeepAliveNow(id: Id)
      requires Valid() && id in devices && devices[id].registered
      modifies this`devices, this`world
      ensures Valid() && world == Step(old(world), KeepAlive(id))
    {
      devices := devices[id := devices[id].(kaCtr := KEEP_ALIVE_COUNTER)];
      world := Step(world, KeepAlive(id));
    }

    method UninstallPolicy(id: Id)
      requires Valid() && id in devices
      modifies this`devices, this`written, this`world
      ensures Valid() && world == Uninstall(old(world), id)
      ensures Wrote(old(world), world, old(written), written)
    {
      hide Wrote, MessageBytes;
      ghost var w, b := world, written;
      if devices[id].policy.Some? {
        RemoveFirewallRule(devices[id].policy.value.clientId);
        devices := devices[id := devices[id].(policy := None)];
        ghost var sent := world;
        world := SetDevice(sent, id, devices[id]);
        WroteNothing(sent, world, written);
        WroteThen(w, sent, world, b, written, written);
      } else {
        WroteNothing(w, w, b);
      }
    }

    method KeepAliveExpired(id: Id)
      requires Valid() && id in devices
      modifies this`devices, this`written, this`world
      ensures Valid() && world == Expire(old(world), id)
      ensures Wrote(old(world), world, old(written), written)
    {
      hide Wrote, MessageBytes, Uninstall;
      ghost var before, b := world, written;
      WroteNothing(world, world, written);
      if devices[id].kaCtr == 0 {
        return;
      }
      devices := devices[id := devices[id].(kaCtr := devices[id].kaCtr - 1)];
      if devices[id].kaCtr == 0 && devices[id].registered {
        devices := devices[id := devices[id].(registered := false)];
        world := SetDevice(before, id, devices[id]);
        ghost var silent := world;
        UninstallPolicy(id);
        WroteNothing(before, silent, b);
        WroteThen(before, silent, world, b, b, written);
      } else {
        world := SetDevice(before, id, devices[id]);
        WroteNothing(before, world, b);
      }
    }

    /** The old policy is compared by an operator that may change it. */
    method SetPolicyInfo(id: Id, p: Policy) returns (cloudTold: bool)
      requires Valid() && id in devices
      modifies this`devices, this`world
      ensures Valid() && cloudTold == FirewallModel.SetPolicyInfo(old(devices)[id].policy, p).1
      ensures world == SetDevice(old(world), id, old(devices)[id].(policy := Some(p)))
    {
      cloudTold := true;
      if devices[id].policy.Some? {
        var r := PolicyEquals(devices[id].policy.value, p);
        devices := devices[id := devices[id].(policy := Some(r.1))];
        cloudTold := !r.0;
      }
      if cloudTold {
        devices := devices[id := devices[id].(policy := Some(p))];
      }
      world := SetDevice(world, id, world.devices[id].(policy := Some(p)));
    }

    /** A client's request for a policy: parse, store, install. */
    method FirewallPolicyCallback(id: Id, payload: Bytes) returns (accepted: bool)
      requires Valid()
      modifies this`devices, this`written, this`world
      ensures Valid()
      ensures var policy := DecodePolicyRequest(id, Parse(payload));
              && (accepted <==> id in old(devices) && old(devices)[id].registered && policy.Some?)
              && world == if accepted then StorePolicy(old(world), id, policy.value) else old(world)
      ensures Wrote(old(world), world, old(written), written)
    {
      hide Wrote, MessageBytes;
      ghost var before, b := world, written;
      WroteNothing(world, world, written);
      if id !in devices || !devices[id].registered {
        return false;
      }
      var cmds := ParseCommands(payload);
      if cmds == [] {
        return false;
      }
      var policy := ReadPolicyRequest(id, cmds);
      if policy.None? {
        return false;
      }
      SetPolicyStores(devices[id].policy, policy.value);
      var _ := SetPolicyInfo(id, policy.value);
      ghost var stored := world;
      InstallFirewallRule(devices[id].policy.value);
      WroteNothing(before, stored, b);
      WroteThen(before, stored, world, b, b, written);
      return true;
    }

    /** All policies, in the order of the device map. */
    method InstallAllPolicies(order: seq<Id>)
      requires Valid()
      modifies this`written, this`world
      ensures Valid()
      ensures world == if old(world).link == Up
                       then old(world).(toPlugin := old(world).toPlugin + Installs(devices, order)) else old(world)
      ensures written == old(written) + ToldAll(connected, devices, order)
      ensures Wrote(old(world), world, old(written), written)
    {
      hide Wrote, MessageBytes;
      hide Told;
      ghost var w := world;
      Empty(w.toPlugin);
      Empty(written);
      WroteNothing(world, world, written);
      for i := 0 to |order|
        invariant Valid() && devices == old(devices) && Wrote(old(world), world, old(written), written)
        invariant world == if w.link == Up then w.(toPlugin := w.toPlugin + Installs(devices, order[..i])) else w
        invariant written == old(written) + ToldAll(connected, devices, order[..i])
      {
        var id := order[i];
        InstallsNext(devices, order, i, connected);
        if id in devices && devices[id].policy.Some? {
          var p := devices[id].policy.value;
          Assoc(w.toPlugin, Installs(devices, order[..i]), [Install(p)]);
          Assoc(old(written), ToldAll(connected, devices, order[..i]), Told(connected, InstallRequest(p)));
          ghost var u, b := world, written;
          InstallFirewallRule(p);
          WroteThen(old(world), u, world, old(written), b, written);
        }
      }
      assert order[..|order|] == order;
    }

    /** getAllFirewallRules: answer the plug-in's request. */
    method GetAllFirewallRules(order: seq<Id>)
      requires Valid()
      modifies this`written, this`world
      ensures Valid() && world == HandleReport(old(world), Tlv(GET_ALL, []), order, false)
      ensures Wrote(old(world), world, old(written), written)
    {
      hide Wrote, MessageBytes;
      ghost var w, b := world, written;
      InstallAllPolicies(order);
      ghost var sent := world;
      world := sent.(synced := sent.synced || sent.link == Up);
      WroteNothing(sent, world, written);
      WroteThen(w, sent, world, b, written, written);
    }

    /** One command from the plug-in; what is neither a request nor a report is ignored. */
    method HandlePluginCommand(c: Tlv, order: seq<Id>, known: bool)
      requires Valid()
      modifies this`totals, this`written, this`world
      ensures Valid() && world == HandleReport(old(world), c, order, known)
      ensures Wrote(old(world), world, old(written), written)
    {
      hide Wrote, MessageBytes;
      ghost var w, b := world, written;
      if c.typ == GET_ALL {
        GetAllFirewallRules(order);
      } else {
        if c.typ == PUT_STAT {
          assert c == Tlv(PUT_STAT, c.val);
          ProcessFirewallRuleStat(c.val, known);
        }
        WroteNothing(w, world, b);
      }
    }

    /** The commands of a buffer from the plug-in, one after the other. */
    method ProcessCommand(cmdBuffer: Bytes, order: seq<Id>, known: bool)
      requires Valid()
      modifies this`totals, this`written, this`world
      ensures Valid() && world == HandleReports(old(world), Parse(cmdBuffer), order, known)
      ensures Wrote(old(world), world, old(written), written)
    {
      hide Wrote, MessageBytes, HandleReport;
      var cmds := ParseCommands(cmdBuffer);
      WroteNothing(world, world, written);
      for i := 0 to |cmds|
        invariant Valid() && world == HandleReports(old(world), cmds[..i], order, known)
        invariant Wrote(old(world), world, old(written), written)
      {
        ghost var w, b := world, written;
        assert cmds[..i + 1][..i] == cmds[..i];
        HandlePluginCommand(cmds[i], order, known);
        WroteThen(old(world), w, world, old(written), b, written);
      }
      TakeDrop(cmds);
    }

    /** The statistics alarm asks for the statistics of every device with a policy. */
    method FirewallStatisticsAlarmCallback(order: seq<Id>, ghost gs: seq<PacketPolicer.Policer>)
      requires Valid() && |order| <= |gs|
      modifies this`written, this`world
      ensures Valid() && world == RequestStats(old(world), order, gs)
      ensures Wrote(old(world), world, old(written), written)
    {
      NoStats(world, gs);
      TakeDrop(order);
      hide Wrote, MessageBytes, RequestStats, Step, Finds;
      WroteNothing(world, world, written);
      for i := 0 to |order|
        invariant Valid() && world == RequestStats(old(world), order[..i], gs)
        invariant Wrote(old(world), world, old(written), written)
      {
        var id := order[i];
        NextStats(old(world), order, gs, i);
        StatStep(world, id, gs[i]);
        if id in devices && devices[id].policy.Some? {
          ghost var w, b := world, written;
          GetFirewallRuleStats(devices[id].policy.value.clientId, gs[i]);
          WroteThen(old(world), w, world, old(written), b, written);
        }
      }
    }

    /** Deltas are added to 32-bit totals. */
    method UpdateFirewallStats(id: Id, c: Counts, known: bool)
      requires Valid() && c != ZERO
      modifies this`totals, this`world
      ensures Valid() && world == AddStats(old(world), id, c, known)
    {
      world := AddStats(world, id, c, known);
      if !known {
        return;
      }
      var t := if id in totals then totals[id] else ZERO;
      totals := totals[id := Counts((t.ruleDropped + c.ruleDropped) % 0x1_0000_0000,
                                    (t.rulePassed + c.rulePassed) % 0x1_0000_0000,
                                    (t.txDropped + c.txDropped) % 0x1_0000_0000,
                                    (t.txPassed + c.txPassed) % 0x1_0000_0000)];
    }

    method ProcessFirewallRuleStat(cmdBuf: Bytes, known: bool)
      requires Valid()
      modifies this`totals, this`world
      ensures Valid()
      ensures world == match DecodeReport(Tlv(PUT_STAT, cmdBuf)) {
                         case None => old(world)
                         case Some(m) => AddStats(old(world), m.id, m.counts, known)
                       }
    {
      if cmdBuf == [] {
        assert Parse(cmdBuf) == [];
        return;
      }
      var cmds := ParseCommands(cmdBuf);
      var id, counts := ReadStats(cmds);
      if id.name == [] || counts.None? {
        return;
      }
      var c := counts.value;
      if c.ruleDropped != 0 || c.rulePassed != 0 || c.txDropped != 0 || c.txPassed != 0 {
        UpdateFirewallStats(id, counts.value, known);
      }
    }
  }

  // ---------------------------------------------------------------- field loops

  method ReadPolicyRequest(id: Id, cmds: seq<Tlv>) returns (policy: Option<Policy>)
    ensures policy == DecodePolicyRequest(id, cmds)
  {
    var qos, ppm, len := None, None, None;
    for i := 0 to |cmds|
      invariant qos == LastSized(cmds[..i], POLICY_MAX_QOS, 2)
      invariant ppm == LastSized(cmds[..i], POLICY_PPM, 2)
      invariant len == LastSized(cmds[..i], POLICY_MAXLEN, 2)
      invariant WellSized(cmds[..i])
    {
      var c := cmds[i];
      assert cmds[..i + 1][..i] == cmds[..i];
      if PolicyField(c.typ) && |c.val| != 2 {
        return None;
      }
      if c.typ == POLICY_MAX_QOS {
        qos := Some(c.val);
      } else if c.typ == POLICY_PPM {
        ppm := Some(c.val);
      } else if c.typ == POLICY_MAXLEN {
        len := Some(c.val);
      }
    }
    assert cmds[..|cmds|] == cmds;
    if qos.None? || ppm.None? || len.None? {
      return None;
    }
    return Some(Policy(id, ToU16(qos.value), ToU16(ppm.value), ToU16(len.value)));
  }

  method ReadStats(cmds: seq<Tlv>) returns (id: Id, counts: Option<Counts>)
    ensures id == ClientIdOf(cmds) && counts == DecodeStats(cmds)
  {
    id := Id([]);
    var ruleDropped, rulePassed, txDropped, txPassed := None, None, None, None;
    for i := 0 to |cmds|
      invariant id == ClientIdOf(cmds[..i])
      invariant ruleDropped == LastSized(cmds[..i], PKT_DROP, 4) && rulePassed == LastSized(cmds[..i], PKT_PASS, 4)
      invariant txDropped == LastSized(cmds[..i], TX_PKT_DROP, 4) && txPassed == LastSized(cmds[..i], TX_PKT_PASS, 4)
    {
      var c := cmds[i];
      assert cmds[..i + 1][..i] == cmds[..i];
      if c.typ == CLIENT_ID {
        id := Id(c.val);
      } else if c.typ == PKT_DROP && |c.val| == 4 {
        ruleDropped := Some(c.val);
      } else if c.typ == PKT_PASS && |c.val| == 4 {
        rulePassed := Some(c.val);
      } else if c.typ == TX_PKT_DROP && |c.val| == 4 {
        txDropped := Some(c.val);
      } else if c.typ == TX_PKT_PASS && |c.val| == 4 {
        txPassed := Some(c.val);
      }
    }
    assert cmds[..|cmds|] == cmds;
    if ruleDropped.None? || rulePassed.None? || txDropped.None? || txPassed.None? {
      counts := None;
    } else {
      counts := Some(Counts(U32(ruleDropped.value), U32(rulePassed.value), U32(txDropped.value), U32(txPassed.value)));
    }
  }
}
