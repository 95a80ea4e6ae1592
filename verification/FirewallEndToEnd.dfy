/**
 From the gateway's messages, over bytes and reads of any size, to the rules of the plug-in, and from the
 plug-in's reports to the totals of the gateway.
 */
module FirewallEndToEnd {
  import opened Machine
  import opened Sequences
  import opened Memory
  import opened CommandCodec
  import opened CommandXfer
  import opened PacketPolicer
  import opened FirewallModel
  import opened FirewallTheorems
  import opened FirewallWire
  import opened FirewallPlugin
  import opened FirewallGateway

  function GarbageOfAll(ms: seq<ToPlugin>): (gs: seq<Policer>)
    ensures |gs| == |ms|
  {
    seq(|ms|, i requires 0 <= i < |ms| => GarbageOf(ms[i]))
  }

  /** What the plug-in does with the commands the state machine hands out. */
  function HandleFrames(w: World, frames: seq<Bytes>, gs: seq<Policer>): World
    requires |frames| <= |gs|
  {
    if frames == [] then w
    else
      var n := |frames| - 1;
      var v := HandleFrames(w, frames[..n], gs);
      if Complete(frames[n]) then HandleCommand(v, First(frames[n]), gs[n]) else v
  }

  /** Handling a request does not look at the messages behind it. */
  lemma {:induction false} HandleIgnoresStream(w: World, r: Request, g: Policer, ms: seq<ToPlugin>)
    ensures Handle(w.(toPlugin := ms), r, g) == Handle(w, r, g).(toPlugin := ms)
  {
    match r
    case InstallRequest(p) =>
    case RemoveRequest(id) =>
    case StatRequest(id) => ReportIgnoresStream(w, id, g, ms);
  }

  lemma {:induction false} ReportIgnoresStream(w: World, id: Id, g: Policer, ms: seq<ToPlugin>)
    ensures ReportStats(w.(toPlugin := ms), id, g) == ReportStats(w, id, g).(toPlugin := ms)
  {
    hide Plus, RuleCounts, TxCounts;
    if id.name != [] {
      var v := TouchRule(w, id, g);
      assert TouchRule(w.(toPlugin := ms), id, g) == v.(toPlugin := ms);
      assert ClearStats(v.(toPlugin := ms), id) == ClearStats(v, id).(toPlugin := ms);
    }
  }

  lemma {:induction false} ReceiveHandles(w: World)
    requires w.toPlugin != []
    ensures PluginReceive(w).(toPlugin := []) ==
            Handle(w.(toPlugin := []), OnWire(w.toPlugin[0]), GarbageOf(w.toPlugin[0]))
  {
    var m := w.toPlugin[0];
    assert PluginReceive(w) == Handle(w.(toPlugin := w.toPlugin[1..]), OnWire(m), GarbageOf(m));
    hide Handle, PluginReceive;
    HandleIgnoresStream(w, OnWire(m), GarbageOf(m), w.toPlugin[1..]);
    HandleIgnoresStream(w, OnWire(m), GarbageOf(m), []);
  }

  lemma {:induction false} FrameHandled(w: World, m: ToPlugin)
    requires Deliverable(OnWire(m))
    ensures var f := Encode(RequestCommand(OnWire(m)));
            Complete(f) && HandleCommand(w, First(f), GarbageOf(m)) == Handle(w, OnWire(m), GarbageOf(m))
  {
    hide Handle;
    FirstOfEncode(RequestCommand(OnWire(m)), []);
    Empty(Encode(RequestCommand(OnWire(m))));
    DeliverableExactly(OnWire(m));
  }

  lemma {:induction false} FrameAt(ms: seq<ToPlugin>, i: nat)
    requires i < |ms|
    ensures Encoded(RequestCommands(OnWireAll(ms)))[i] == Encode(RequestCommand(OnWire(ms[i])))
    ensures GarbageOfAll(ms)[i] == GarbageOf(ms[i])
    ensures AllDeliverable(OnWireAll(ms)) ==> Deliverable(OnWire(ms[i]))
  {
    hide Encode, RequestCommand, Deliverable, OnWire, GarbageOf;
    assert OnWireAll(ms)[i] == OnWire(ms[i]);
  }

  lemma {:induction false} NoFrames(w: World, gs: seq<Policer>)
    ensures HandleFrames(w, [], gs) == w
  {
  }

  lemma {:induction false} NextFrame(w: World, frames: seq<Bytes>, f: Bytes, gs: seq<Policer>)
    requires Complete(f) && |frames| < |gs|
    ensures HandleFrames(w, frames + [f], gs) == HandleCommand(HandleFrames(w, frames, gs), First(f), gs[|frames|])
  {
    hide HandleCommand, First, Complete;
    TakeAppend(frames, f);
  }

  /** After `n` commands the plug-in is where `n` messages would have brought it. */
  lemma {:induction false} FramesAsMessages(w: World, n: nat)
    requires w.link == Up && n <= |w.toPlugin| && AllDeliverable(OnWireAll(w.toPlugin))
    ensures var frames := Encoded(RequestCommands(OnWireAll(w.toPlugin)));
            HandleFrames(w.(toPlugin := []), frames[..n], GarbageOfAll(w.toPlugin)) == Run(w, Drain(n)).(toPlugin := [])
  {
    hide FirewallModel.Step, Run, Drain, PluginReceive, HandleCommand, HandleFrames, Handle, Encode, Encoded,
         RequestCommand, RequestCommands, Deliverable, AllDeliverable, OnWire, OnWireAll, GarbageOf, GarbageOfAll,
         First, Complete;
    var frames, gs := Encoded(RequestCommands(OnWireAll(w.toPlugin))), GarbageOfAll(w.toPlugin);
    if n == 0 {
      DrainZero(w);
      TakeDrop(frames);
      NoFrames(w.(toPlugin := []), gs);
    } else {
      var u, m := Run(w, Drain(n - 1)), w.toPlugin[n - 1];
      FrameAt(w.toPlugin, n - 1);
      FramesAsMessages(w, n - 1);
      DrainReceives(w, n - 1);
      DropNext(w.toPlugin, n - 1);
      DrainNext(w, n - 1);
      FrameHandled(u.(toPlugin := []), m);
      ReceiveHandles(u);
      TakeNext(frames, n - 1);
      NextFrame(w.(toPlugin := []), frames[..n - 1], frames[n - 1], gs);
    }
  }

  /**
   End to end: however the bytes of the messages in flight are split into reads, the plug-in ends in
   exactly the state that receiving the messages one by one leads to, and no read overruns its buffer.
   */
  lemma {:induction false} BytesActAsMessages(w: World, chunks: seq<Bytes>)
    requires w.link == Up && AllDeliverable(OnWireAll(w.toPlugin))
    requires ValidReads(chunks) && Concat(chunks) == MessageBytes(w.toPlugin)
    ensures |Feed(chunks).1| == |w.toPlugin| && AlwaysInBounds(chunks)
    ensures HandleFrames(w.(toPlugin := []), Feed(chunks).1, GarbageOfAll(w.toPlugin)) == Run(w, Drain(|w.toPlugin|))
  {
    var rs, n := OnWireAll(w.toPlugin), |w.toPlugin|;
    ChunkingIndependence(chunks);
    FramesOfSerialize(RequestCommands(rs));
    StreamDelivers(rs, chunks);
    hide FirewallModel.Step, Run, Drain, HandleFrames, Feed, AlwaysInBounds;
    var frames := Encoded(RequestCommands(rs));
    FramesAsMessages(w, n);
    TakeDrop(frames);
    DrainReceives(w, n);
    TakeDrop(w.toPlugin);
    assert Run(w, Drain(n)) == Run(w, Drain(n)).(toPlugin := []);
  }

  // ---------------------------------------------------------------- from the plug-in to the gateway

  /** What the gateway does with the commands the state machine hands out. */
  function HandleReportFrames(w: World, frames: seq<Bytes>, orders: seq<seq<Id>>, known: seq<bool>): World
    requires |frames| <= |orders| && |orders| == |known|
  {
    if frames == [] then w
    else
      var n := |frames| - 1;
      var v := HandleReportFrames(w, frames[..n], orders, known);
      if Complete(frames[n]) then HandleReport(v, First(frames[n]), orders[n], known[n]) else v
  }

  /** The gateway takes `n` messages, enumerating its devices each time as `orders` says. */
  function Serve(orders: seq<seq<Id>>, known: seq<bool>, n: nat): seq<Event>
    requires n <= |orders| && |orders| == |known|
  {
    if n == 0 then [] else Serve(orders, known, n - 1) + [GatewayReceives(orders[n - 1], known[n - 1])]
  }

  ghost predicate AllEnumerate(orders: seq<seq<Id>>, devices: map<Id, Device>)
  {
    forall i :: 0 <= i < |orders| ==> Enumerates(orders[i], devices)
  }

  predicate Connected(w: World)
  {
    w.link == Up || w.link == Broken
  }

  lemma {:induction false} ServeZero(w: World, orders: seq<seq<Id>>, known: seq<bool>)
    requires |orders| == |known|
    ensures Run(w, Serve(orders, known, 0)) == w
  {
  }

  lemma {:induction false} ServeNext(w: World, orders: seq<seq<Id>>, known: seq<bool>, n: nat)
    requires n < |orders| && |orders| == |known|
    requires var u := Run(w, Serve(orders, known, n));
             Connected(u) && u.toGateway != [] && Enumerates(orders[n], u.devices)
    ensures Run(w, Serve(orders, known, n + 1)) ==
            GatewayReceive(Run(w, Serve(orders, known, n)), orders[n], known[n])
  {
    hide Run, GatewayReceive, Enumerates;
    RunAppend(w, Serve(orders, known, n), GatewayReceives(orders[n], known[n]));
  }

  lemma {:induction false} ServeReceives(w: World, orders: seq<seq<Id>>, known: seq<bool>, n: nat)
    requires Connected(w) && n <= |w.toGateway| && n <= |orders| && |orders| == |known|
    requires AllEnumerate(orders, w.devices)
    ensures var v := Run(w, Serve(orders, known, n));
            Connected(v) && v.toGateway == w.toGateway[n..] && v.devices == w.devices
  {
    hide FirewallModel.Step, Run, Serve, Enumerates;
    if n == 0 {
      ServeZero(w, orders, known);
      TakeDrop(w.toGateway);
    } else {
      ServeReceives(w, orders, known, n - 1);
      DropNext(w.toGateway, n - 1);
      ServeNext(w, orders, known, n - 1);
    }
  }

  /** Handling a report does not look at the reports behind it. */
  lemma {:induction false} ReportIgnoresQueue(w: World, c: Tlv, order: seq<Id>, known: bool, ms: seq<ToGateway>)
    ensures HandleReport(w.(toGateway := ms), c, order, known) == HandleReport(w, c, order, known).(toGateway := ms)
  {
    hide DecodeReport, Installs, AddStats;
    var d := DecodeReport(c);
    if d.Some? && d.value.PutStat? { AddIgnoresQueue(w, d.value.id, d.value.counts, known, ms); }
  }

  lemma {:induction false} AddIgnoresQueue(w: World, id: Id, c: Counts, known: bool, ms: seq<ToGateway>)
    ensures AddStats(w.(toGateway := ms), id, c, known) == AddStats(w, id, c, known).(toGateway := ms)
  {
    hide Plus, Wrap, TotalOf;
  }

  ghost predicate AllReportsDeliverable(ms: seq<ToGateway>)
  {
    forall i :: 0 <= i < |ms| ==> ReportDeliverable(ms[i])
  }

  lemma {:induction false} ReportFrameHandled(w: World, order: seq<Id>, known: bool)
    requires w.toGateway != [] && ReportDeliverable(w.toGateway[0])
    ensures var f := Encode(ReportCommand(w.toGateway[0]));
            Complete(f) && HandleReport(w.(toGateway := []), First(f), order, known) ==
                           GatewayReceive(w, order, known).(toGateway := [])
  {
    var m := w.toGateway[0];
    FirstOfEncode(ReportCommand(m), []);
    Empty(Encode(ReportCommand(m)));
    ReportDeliverableExactly(m);
    ReportTaken(w, ReportCommand(m), order, known);
    hide HandleReport, GatewayReceive, ReportCommand, Encode;
    ReportIgnoresQueue(w, ReportCommand(m), order, known, w.toGateway[1..]);
    ReportIgnoresQueue(w, ReportCommand(m), order, known, []);
  }

  lemma {:induction false} ReportTaken(w: World, c: Tlv, order: seq<Id>, known: bool)
    requires w.toGateway != [] && DecodeReport(c) == Some(w.toGateway[0])
    ensures HandleReport(w.(toGateway := w.toGateway[1..]), c, order, known) == GatewayReceive(w, order, known)
  {
    hide DecodeReport, Installs, AddStats;
  }

  lemma {:induction false} NoReportFrames(w: World, orders: seq<seq<Id>>, known: seq<bool>)
    requires |orders| == |known|
    ensures HandleReportFrames(w, [], orders, known) == w
  {
  }

  /** `frames` are the bytes of the reports `ms`, which all can be delivered. */
  ghost predicate FramesOf(frames: seq<Bytes>, ms: seq<ToGateway>)
  {
    && |frames| == |ms|
    && forall i :: 0 <= i < |ms| ==> ReportDeliverable(ms[i]) && frames[i] == Encode(ReportCommand(ms[i]))
  }

  lemma {:induction false} ReportFrames(ms: seq<ToGateway>)
    requires AllReportsDeliverable(ms)
    ensures AllSendable(ms) && FramesOf(Encoded(ReportCommands(ms)), ms)
  {
    hide Encode, ReportCommand;
  }

  lemma {:induction false} ReportFrameAt(frames: seq<Bytes>, ms: seq<ToGateway>, i: nat)
    requires FramesOf(frames, ms) && i < |ms|
    ensures ReportDeliverable(ms[i]) && frames[i] == Encode(ReportCommand(ms[i]))
  {
    hide Encode, ReportCommand;
  }

  lemma {:induction false} EnumeratesAt(orders: seq<seq<Id>>, devices: map<Id, Device>, i: nat)
    requires AllEnumerate(orders, devices) && i < |orders|
    ensures Enumerates(orders[i], devices)
  {
  }

  lemma {:induction false} NextReportFrame(w: World, frames: seq<Bytes>, f: Bytes, orders: seq<seq<Id>>,
                                           known: seq<bool>)
    requires Complete(f) && |frames| < |orders| && |orders| == |known|
    ensures HandleReportFrames(w, frames + [f], orders, known) ==
            HandleReport(HandleReportFrames(w, frames, orders, known), First(f), orders[|frames|], known[|frames|])
  {
    hide HandleReport, First, Complete;
    TakeAppend(frames, f);
  }

  /** The bytes of report `n` do what the report does in its turn. */
  lemma {:induction false} ReportServed(w: World, orders: seq<seq<Id>>, known: seq<bool>, n: nat)
    requires Connected(w) && n < |w.toGateway| && ReportDeliverable(w.toGateway[n])
    requires |orders| == |known| == |w.toGateway| && AllEnumerate(orders, w.devices)
    ensures var f, u := Encode(ReportCommand(w.toGateway[n])), Run(w, Serve(orders, known, n));
            Complete(f) && HandleReport(u.(toGateway := []), First(f), orders[n], known[n]) ==
                           Run(w, Serve(orders, known, n + 1)).(toGateway := [])
  {
    hide FirewallModel.Step, Run, Serve, GatewayReceive, HandleReport, Encode, ReportCommand, ReportDeliverable,
         AllEnumerate, Enumerates, First, Complete;
    var u := Run(w, Serve(orders, known, n));
    ServeReceives(w, orders, known, n);
    DropNext(w.toGateway, n);
    EnumeratesAt(orders, w.devices, n);
    ServeNext(w, orders, known, n);
    ReportFrameHandled(u, orders[n], known[n]);
  }

  /** After `n` commands the gateway is where `n` reports would have brought it. */
  lemma {:induction false} FramesAsReports(w: World, frames: seq<Bytes>, orders: seq<seq<Id>>, known: seq<bool>, n: nat)
    requires Connected(w) && |frames| == |w.toGateway| && FramesOf(frames, w.toGateway)
    requires n <= |frames| && |orders| == |known| == |frames| && AllEnumerate(orders, w.devices)
    ensures HandleReportFrames(w.(toGateway := []), frames[..n], orders, known) ==
            Run(w, Serve(orders, known, n)).(toGateway := [])
  {
    hide FirewallModel.Step, Run, Serve, HandleReport, HandleReportFrames, Encode, ReportCommand, ReportDeliverable,
         FramesOf, AllEnumerate, First, Complete;
    if n == 0 {
      ServeZero(w, orders, known);
      TakeDrop(frames);
      NoReportFrames(w.(toGateway := []), orders, known);
    } else {
      FramesAsReports(w, frames, orders, known, n - 1);
      ReportFrameAt(frames, w.toGateway, n - 1);
      ReportServed(w, orders, known, n - 1);
      TakeNext(frames, n - 1);
      NextReportFrame(w.(toGateway := []), frames[..n - 1], frames[n - 1], orders, known);
    }
  }

  lemma {:induction false} ReportsFit(ms: seq<ToGateway>)
    requires AllReportsDeliverable(ms)
    ensures AllHeadersFit(Encoded(ReportCommands(ms)))
  {
    assert AllSendable(ms);
    hide Encode, ReportCommand, ReportDeliverable, HeaderFits, DecodeReport, Sendable;
    forall i | 0 <= i < |ms| ensures HeaderFits(Encoded(ReportCommands(ms))[i]) { ReportDeliverableExactly(ms[i]); }
  }

  /**
   End to end in the other direction: however the bytes of the reports in flight are split into reads,
   the gateway ends in exactly the state that receiving them one by one leads to, within its buffer.
   */
  lemma {:induction false} BytesActAsReports(w: World, orders: seq<seq<Id>>, known: seq<bool>, chunks: seq<Bytes>)
    requires Connected(w) && AllReportsDeliverable(w.toGateway)
    requires |orders| == |known| == |w.toGateway| && AllEnumerate(orders, w.devices)
    requires ValidReads(chunks) && Concat(chunks) == ReportBytes(w.toGateway)
    ensures |Feed(chunks).1| == |w.toGateway| && AlwaysInBounds(chunks)
    ensures HandleReportFrames(w.(toGateway := []), Feed(chunks).1, orders, known) ==
            Run(w, Serve(orders, known, |w.toGateway|))
  {
    var cs, n := ReportCommands(w.toGateway), |w.toGateway|;
    ChunkingIndependence(chunks);
    FramesOfSerialize(cs);
    ReportsFit(w.toGateway);
    BoundsExact(chunks);
    hide FirewallModel.Step, Run, Serve, HandleReportFrames, Feed, AlwaysInBounds, ReportDeliverable, Enumerates;
    ReportFrames(w.toGateway);
    FramesAsReports(w, Encoded(cs), orders, known, n);
    TakeDrop(Encoded(cs));
    ServeReceives(w, orders, known, n);
    TakeDrop(w.toGateway);
    assert Run(w, Serve(orders, known, n)) == Run(w, Serve(orders, known, n)).(toGateway := []);
  }
}
