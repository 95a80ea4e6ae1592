/**
 The broker plug-in as an object.  Its ghost field `world` is the state of the whole firewall; every
 method moves it by the step of the model that the method implements.
 */
module FirewallPlugin {
  import opened Machine
  import opened Sequences
  import opened Memory
  import opened CommandCodec
  import opened CommandXfer
  import opened PacketPolicer
  import opened FirewallModel
  import opened FirewallWire

  // ---------------------------------------------------------------- commands

  function Handle(w: World, r: Request, garbage: Policer): World
  {
    match r
    case InstallRequest(p) => InstallRule(w, p)
    case RemoveRequest(id) => RemoveRule(w, id)
    case StatRequest(id) => ReportStats(w, id, garbage)
  }

  function HandleCommand(w: World, c: Tlv, garbage: Policer): World
  {
    var r := DecodeRequest(c);
    if r.None? then w else Handle(w, r.value, garbage)
  }

  /** All commands of a buffer; `gs` is what an uninitialized policer would contain at each. */
  function HandleCommands(w: World, cs: seq<Tlv>, gs: seq<Policer>): World
    requires |cs| <= |gs|
  {
    if cs == [] then w
    else HandleCommand(HandleCommands(w, cs[..|cs| - 1], gs), cs[|cs| - 1], gs[|cs| - 1])
  }

  /** A command cut from the stream is one command to the parser. */
  lemma {:induction false} FrameParses(b: Bytes)
    requires Complete(b) && |b| == HEADER_LEN + DeclaredLen(b)
    ensures Parse(b) == [First(b)]
  {
    assert AfterFirst(b) == [];
  }

  /** What an uninitialized policer would contain when the message arrives. */
  function GarbageOf(m: ToPlugin): Policer
  {
    if m.GetStat? then m.garbage else NewPolicer(0, 0, 0)
  }

  /**
   What the plug-in does with the bytes of a message is what the model does with the message; past the
   limit it is what it does with the identity the wire cuts, or nothing.
   */
  lemma {:induction false} ReceivesBytes(w: World)
    requires w.toPlugin != []
    ensures |Parse(Encode(RequestCommand(OnWire(w.toPlugin[0]))))| == 1
    ensures var m, r, v := w.toPlugin[0], OnWire(w.toPlugin[0]), w.(toPlugin := w.toPlugin[1..]);
            var cut := Id(Cut(IdOf(r).name));
            HandleCommands(v, Parse(Encode(RequestCommand(r))), [GarbageOf(m)]) ==
              if |IdOf(r).name| <= Limit(r) then PluginReceive(w)
              else if 0 < |cut.name| <= Limit(r) then Handle(v, WithId(r, cut), GarbageOf(m))
              else v
  {
    var m, v := w.toPlugin[0], w.(toPlugin := w.toPlugin[1..]);
    var c := RequestCommand(OnWire(m));
    ParseOne(c);
    HandleOne(v, c, GarbageOf(m));
    ReceiveIsHandle(w);
    hide Handle, HandleCommands, PluginReceive, RequestCommand, DecodeRequest;
    RequestDecodes(OnWire(m));
    if |IdOf(OnWire(m)).name| <= Limit(OnWire(m)) { SameId(OnWire(m)); }
  }

  lemma {:induction false} HandleOne(w: World, c: Tlv, garbage: Policer)
    ensures HandleCommands(w, [c], [garbage]) == HandleCommand(w, c, garbage)
  {
    hide HandleCommand;
    assert HandleCommands(w, [], [garbage]) == w;
    assert [c][..0] == [];
  }

  lemma {:induction false} ReceiveIsHandle(w: World)
    requires w.toPlugin != []
    ensures var m, v := w.toPlugin[0], w.(toPlugin := w.toPlugin[1..]);
            && PluginReceive(w) == Handle(v, OnWire(m), GarbageOf(m))
            && (IdOf(OnWire(m)).name == [] ==> PluginReceive(w) == v)
  {
  }

  lemma {:induction false} SameId(r: Request)
    requires |IdOf(r).name| < 0x1_0000
    ensures WithId(r, Id(Cut(IdOf(r).name))) == r
  {
  }

  // ---------------------------------------------------------------- the object

  class AtlasFilter {
    var rules: map<Id, Policer>
    var txPktStats: map<Id, TxStats>
    var connected: bool
    var written: Bytes
    const cmdXfer: CommandTransfer
    ghost var world: World

    ghost predicate Valid()
      reads this
    {
      rules == world.rules && txPktStats == world.tx && connected == (world.link == Up)
    }

    constructor (ghost world: World, cmdXfer: CommandTransfer)
      requires world.rules == map[] && world.tx == map[] && world.link == Down
      ensures Valid() && this.world == world && this.cmdXfer == cmdXfer && written == []
    {
      rules, txPktStats, connected, written := map[], map[], false, [];
      this.world := world;
      this.cmdXfer := cmdXfer;
    }

    method ClientId(cmdBuf: Bytes) returns (cmds: seq<Tlv>, id: Id)
      ensures cmds == Parse(cmdBuf) && id == ClientIdOf(cmds)
    {
      cmds := ParseCommands(cmdBuf);
      id := Id([]);
      for i := 0 to |cmds|
        invariant id == ClientIdOf(cmds[..i])
      {
        assert cmds[..i + 1][..i] == cmds[..i];
        if cmds[i].typ == CLIENT_ID {
          id := Id(cmds[i].val);
        }
      }
      assert cmds[..|cmds|] == cmds;
    }

    method InstallFirewallRule(cmdBuf: Bytes, ghost garbage: Policer)
      requires Valid()
      modifies this`rules, this`txPktStats, this`world
      ensures Valid() && world == HandleCommand(old(world), Tlv(INSTALL, cmdBuf), garbage)
    {
      var cmds := ParseCommands(cmdBuf);
      var policy := ReadPolicy(cmds);
      if policy.None? {
        return;
      }
      var p := policy.value;
      rules := rules[p.clientId := NewPolicer(p.qos, p.ppm, p.payloadLen)];
      txPktStats := txPktStats[p.clientId := TxStats(0, 0)];
      world := InstallRule(world, p);
    }

    method RemoveFirewallRule(cmdBuf: Bytes, ghost garbage: Policer)
      requires Valid()
      modifies this`rules, this`txPktStats, this`world
      ensures Valid() && world == HandleCommand(old(world), Tlv(REMOVE, cmdBuf), garbage)
    {
      var _, id := ClientId(cmdBuf);
      if id.name == [] {
        return;
      }
      rules := rules - {id};
      txPktStats := txPktStats - {id};
      world := RemoveRule(world, id);
    }

    /** `garbage` is what the default constructor leaves in a policer created by the map access. */
    method GetFirewallRuleStats(cmdBuf: Bytes, garbage: Policer)
      requires Valid()
      modifies this`rules, this`txPktStats, this`written, this`world
      ensures Valid() && world == HandleCommand(old(world), Tlv(GET_STAT, cmdBuf), garbage)
      ensures Reported(old(world), world, old(written), written)
    {
      var _, id := ClientId(cmdBuf);
      StatCommand(world, cmdBuf, garbage);
      hide HandleCommand, ReportStats, TouchRule, ClearStats, WriteStats, Reported, Encode, ReportCommand, ClientIdOf;
      ghost var before := world;
      if id.name == [] {
        ReportedNothing(world, world, written);
        return;
      }
      var ruleDropped, rulePassed := TakeRuleStats(id, garbage);
      var txDropped, txPassed := TakeTxStats(id);
      StatsTaken(world, id, garbage);
      world := ClearStats(TouchRule(world, id, garbage), id);
      ghost var cleared, b := world, written;
      WriteFirewallStats(id, Counts(ruleDropped, rulePassed, txDropped, txPassed));
      ReportedSince(before, cleared, world, b, written);
    }

    /** Read and clear the counters of a rule; the map access creates the rule if there is none. */
    method TakeRuleStats(id: Id, garbage: Policer) returns (dropped: u32, passed: u32)
      modifies this`rules
      ensures var p := if id in old(rules) then old(rules)[id] else garbage;
              rules == old(rules)[id := p.(dropped := 0, passed := 0)] && dropped == p.dropped && passed == p.passed
    {
      if id !in rules {
        rules := rules[id := garbage];
      }
      dropped := rules[id].dropped;
      rules := rules[id := rules[id].(dropped := 0)];
      passed := rules[id].passed;
      rules := rules[id := rules[id].(passed := 0)];
    }

    method TakeTxStats(id: Id) returns (dropped: u32, passed: u32)
      modifies this`txPktStats
      ensures var t := if id in old(txPktStats) then old(txPktStats)[id] else TxStats(0, 0);
              txPktStats == old(txPktStats)[id := TxStats(0, 0)] && dropped == t.dropped && passed == t.passed
    {
      if id !in txPktStats {
        txPktStats := txPktStats[id := TxStats(0, 0)];
      }
      dropped := txPktStats[id].dropped;
      txPktStats := txPktStats[id := txPktStats[id].(dropped := 0)];
      passed := txPktStats[id].passed;
      txPktStats := txPktStats[id := txPktStats[id].(passed := 0)];
    }

    method WriteFirewallStats(id: Id, c: Counts)
      requires Valid() && Counters(c)
      modifies this`written, this`world
      ensures Valid() && world == WriteStats(old(world), id, c)
      ensures written == old(written) + if connected then Encode(ReportCommand(PutStat(id, c))) else []
      ensures Reported(old(world), world, old(written), written)
    {
      var inner := SerializeFields(StatFields(id, c));
      var outer := SerializeFields([Field(PUT_STAT, inner)]);
      SerializeOne(Field(PUT_STAT, inner));
      ghost var w, b := world, written;
      if connected {
        written := written + outer;
      }
      world := WriteStats(world, id, c);
      if connected { ReportedOne(w, world, PutStat(id, c), b); } else { ReportedNothing(w, world, b); }
    }

    /** The commands of a buffer, one after the other. */
    method ProcessCommand(cmdBuffer: Bytes, gs: seq<Policer>)
      requires Valid() && |Parse(cmdBuffer)| <= |gs|
      modifies this`rules, this`txPktStats, this`written, this`world
      ensures Valid() && world == HandleCommands(old(world), Parse(cmdBuffer), gs)
      ensures Reported(old(world), world, old(written), written)
    {
      var cmds := ParseCommands(cmdBuffer);
      ReportedNothing(world, world, written);
      for i := 0 to |cmds|
        invariant Valid() && world == HandleCommands(old(world), cmds[..i], gs)
        invariant Reported(old(world), world, old(written), written)
      {
        var c := cmds[i];
        assert cmds[..i + 1][..i] == cmds[..i];
        assert c == Tlv(c.typ, c.val);
        ghost var w, b := world, written;
        if c.typ == INSTALL {
          InstallFirewallRule(c.val, gs[i]);
        } else if c.typ == REMOVE {
          RemoveFirewallRule(c.val, gs[i]);
        } else if c.typ == GET_STAT {
          GetFirewallRuleStats(c.val, gs[i]);
        }
        if c.typ != GET_STAT { ReportedNothing(w, world, b); }
        ReportedThen(old(world), w, world, old(written), b, written);
      }
      assert cmds[..|cmds|] == cmds;
    }

    /** A read of `chunk` succeeded: run the state machine, and process the command it completes. */
    method HandleRead(chunk: Bytes, garbage: Policer)
      requires Valid() && cmdXfer.Valid() && InBounds(cmdXfer.Abs()) && |chunk| <= cmdXfer.remainingLen
      modifies this`rules, this`txPktStats, this`written, this`world, cmdXfer, cmdXfer.data
      ensures Valid() && cmdXfer.Valid()
      ensures var r := Arrived(old(cmdXfer.Abs()), chunk);
              && cmdXfer.Abs() == r.0
              && world == if r.1.Some? then HandleCommand(old(world), First(r.1.value), garbage) else old(world)
      ensures Reported(old(world), world, old(written), written)
    {
      ReportedNothing(world, world, written);
      ghost var x := cmdXfer.Abs();
      ArrivedComplete(x, chunk);
      var cmd := cmdXfer.HandleRead(chunk);
      if cmd.Some? {
        FrameParses(cmd.value);
        assert [First(cmd.value)][..0] == [];
        assert HandleCommands(world, [], [garbage]) == world;
        ProcessCommand(cmd.value, [garbage]);
      }
    }

    method Filter(dst: Id, src: Option<Id>, pkt: Packet) returns (processPkt: bool)
      requires Valid()
      modifies this`rules, this`txPktStats, this`world
      ensures Valid() && world == FirewallModel.Filter(old(world), dst, src, pkt)
      ensures processPkt == Passes(old(world), dst, pkt)
    {
      hide FilterPacket, Count;
      world := FilterDst(world, dst, pkt);
      if dst !in rules {
        processPkt := true;
      } else {
        var r := FilterPacket(rules[dst], pkt);
        rules := rules[dst := r.0];
        processPkt := r.1;
      }
      if src.Some? {
        if src.value in txPktStats {
          var t := txPktStats[src.value];
          t := if processPkt then t.(passed := Inc(t.passed)) else t.(dropped := Inc(t.dropped));
          txPktStats := txPktStats[src.value := t];
        }
        world := CountSrc(world, src.value, processPkt);
      }
    }

    /** Every policer starts a new window. */
    method TimerHandler()
      requires Valid()
      modifies this`rules, this`world
      ensures Valid() && world == Step(old(world), WindowStarts)
    {
      hide StartWindow, StartWindows;
      var was := rules;
      var left := rules.Keys;
      while left != {}
        invariant left <= rules.Keys == was.Keys && world == old(world)
        invariant forall id :: id in was ==> rules[id] == if id in left then was[id] else StartWindow(was[id])
        decreases |left|
      {
        var id :| id in left;
        rules := rules[id := StartWindow(rules[id])];
        left := left - {id};
      }
      AllStarted(was, rules);
      world := world.(rules := rules);
    }

    /** The connection is gone: forget all rules, connect again and ask for all rules. */
    method GatewayConnect()
      requires Valid() && cmdXfer.data.Length == BUF_LEN
      modifies this`rules, this`connected, this`written, this`world, cmdXfer
      ensures Valid() && world == Step(DropConnection(old(world)), PluginConnects)
      ensures cmdXfer.Valid() && cmdXfer.Abs() == START
      ensures written == old(written) + Encode(ReportCommand(GetAll))
    {
      rules := map[];
      connected := false;
      world := DropConnection(world);
      cmdXfer.Init();
      var request := SerializeFields([Tlv(GET_ALL, [])]);
      SerializeOne(Tlv(GET_ALL, []));
      written := written + request;
      world := Step(world, PluginConnects);
    }
  }

  /** The counters a statistics request takes, and what it leaves. */
  lemma {:induction false} AllStarted(was: map<Id, Policer>, now: map<Id, Policer>)
    requires now.Keys == was.Keys && forall id :: id in was ==> now[id] == StartWindow(was[id])
    ensures now == StartWindows(was)
  {
  }

  lemma {:induction false} StatCommand(w: World, cmdBuf: Bytes, garbage: Policer)
    ensures HandleCommand(w, Tlv(GET_STAT, cmdBuf), garbage) == ReportStats(w, ClientIdOf(Parse(cmdBuf)), garbage)
    ensures ClientIdOf(Parse(cmdBuf)).name == [] ==> ReportStats(w, ClientIdOf(Parse(cmdBuf)), garbage) == w
  {
    hide TouchRule, ClearStats, WriteStats;
  }

  lemma {:induction false} StatsTaken(w: World, id: Id, garbage: Policer)
    ensures var p := if id in w.rules then w.rules[id] else garbage;
            var t := if id in w.tx then w.tx[id] else TxStats(0, 0);
            var touched := TouchRule(w, id, garbage);
            var v := ClearStats(touched, id);
            && v.rules == w.rules[id := p.(dropped := 0, passed := 0)]
            && v.tx == w.tx[id := TxStats(0, 0)]
            && v.toGateway == w.toGateway && v.link == w.link
            && (id.name != [] ==>
                  ReportStats(w, id, garbage) == WriteStats(v, id, Counts(p.dropped, p.passed, t.dropped, t.passed)))
  {
    CountsTaken(w, id, garbage);
    hide WriteStats, RuleCounts, TxCounts, Plus;
  }

  lemma {:induction false} CountsTaken(w: World, id: Id, garbage: Policer)
    ensures var p := if id in w.rules then w.rules[id] else garbage;
            var t := if id in w.tx then w.tx[id] else TxStats(0, 0);
            var touched := TouchRule(w, id, garbage);
            Plus(RuleCounts(touched.rules, id), TxCounts(touched.tx, id)) ==
            Counts(p.dropped, p.passed, t.dropped, t.passed)
  {
  }

  /** A command the state machine delivers is complete and nothing is behind it. */
  lemma {:induction false} ArrivedComplete(x: Xfer, chunk: Bytes)
    requires Between(x) && |chunk| <= x.remaining
    ensures var r := Arrived(x, chunk);
            r.1.Some? ==> Complete(r.1.value) && |r.1.value| == HEADER_LEN + DeclaredLen(r.1.value)
  {
    var buf := x.buf + chunk;
    assert !x.inHeader ==> DeclaredLen(buf) == DeclaredLen(x.buf);
  }

  /** Build a batch of the fields and serialize it. */
  method SerializeFields(fields: seq<Tlv>) returns (bytes: Bytes)
    requires AllFit(fields)
    ensures bytes == Serialize(fields)
  {
    var batch := new CommandBatch();
    for i := 0 to |fields|
      invariant fresh(batch)
      invariant |batch.addedCmd| == i
      invariant forall k :: 0 <= k < i ==>
                  batch.addedCmd[k] == Added(fields[k].typ, |fields[k].val|, Some(fields[k].val))
    {
      assert Fits(fields[i]);
      batch.AddCommand(Added(fields[i].typ, |fields[i].val|, Some(fields[i].val)));
    }
    assert Tlvs(batch.addedCmd) == fields;
    var buf := batch.GetSerializedAddedCommands();
    bytes := if buf == null then [] else buf[..];
  }

  /** The field loop of installFirewallRule: the last well-sized field of each kind wins. */
  method ReadPolicy(cmds: seq<Tlv>) returns (policy: Option<Policy>)
    ensures policy == DecodePolicy(cmds)
  {
    var id, qos, ppm, len := Id([]), None, None, None;
    for i := 0 to |cmds|
      invariant id == ClientIdOf(cmds[..i])
      invariant qos == LastSized(cmds[..i], MAX_QOS, 2)
      invariant ppm == LastSized(cmds[..i], PPM, 2)
      invariant len == LastSized(cmds[..i], MAX_PAYLOAD_LEN, 2)
    {
      var c := cmds[i];
      assert cmds[..i + 1][..i] == cmds[..i];
      if c.typ == CLIENT_ID {
        id := Id(c.val);
      } else if c.typ == MAX_QOS && |c.val| == 2 {
        qos := Some(c.val);
      } else if c.typ == PPM && |c.val| == 2 {
        ppm := Some(c.val);
      } else if c.typ == MAX_PAYLOAD_LEN && |c.val| == 2 {
        len := Some(c.val);
      }
    }
    assert cmds[..|cmds|] == cmds;
    if id.name == [] || qos.None? || ppm.None? || len.None? {
      return None;
    }
    return Some(Policy(id, ToU16(qos.value), ToU16(ppm.value), ToU16(len.value)));
  }
}
