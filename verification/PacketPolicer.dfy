/**
 The policer of one firewall rule: a fixed-window rate limit with QoS and payload-length limits.
 */
module PacketPolicer {
  import opened Machine

  datatype Policer = Policer(windowPpm: u32, maxQos: u8, ppm: u16, maxPayloadLen: u16, dropped: u32, passed: u32)

  /** The policer of a rule just installed; the QoS limit is narrowed to 8 bits. */
  function NewPolicer(maxQos: u16, ppm: u16, maxPayloadLen: u16): Policer
  {
    Policer(0, maxQos % 256, ppm, maxPayloadLen, 0, 0)
  }

  datatype Packet = Packet(qos: u8, payloadLen: u16)

  /** The increment of a 32-bit counter, which wraps. */
  function Inc(n: u32): u32
  {
    if n == 0xFFFF_FFFF then 0 else n + 1
  }

  lemma IncMod(n: int)
    ensures Inc(n % 0x1_0000_0000) == (n + 1) % 0x1_0000_0000
  {
  }

  predicate Conforms(p: Policer, pkt: Packet)
  {
    pkt.qos <= p.maxQos && pkt.payloadLen <= p.maxPayloadLen
  }

  /** filter: count the packet against the window, then pass or drop it. */
  function FilterPacket(p: Policer, pkt: Packet): (Policer, bool)
  {
    var q := p.(windowPpm := Inc(p.windowPpm));
    if Conforms(p, pkt) && q.windowPpm <= p.ppm then (q.(passed := Inc(p.passed)), true)
    else (q.(dropped := Inc(p.dropped)), false)
  }

  function StartWindow(p: Policer): Policer
  {
    p.(windowPpm := 0)
  }

  // ---------------------------------------------------------------- traces

  datatype PolicerEvent = Arrives(pkt: Packet) | NewWindow

  function PolicerStep(p: Policer, e: PolicerEvent): Policer
  {
    match e
    case Arrives(pkt) => FilterPacket(p, pkt).0
    case NewWindow => StartWindow(p)
  }

  function PolicerRun(p: Policer, es: seq<PolicerEvent>): Policer
  {
    if es == [] then p else PolicerStep(PolicerRun(p, es[..|es| - 1]), es[|es| - 1])
  }

  /** Whether the last event of the trace is a packet that passes. */
  predicate LastPasses(p: Policer, es: seq<PolicerEvent>)
  {
    es != [] && es[|es| - 1].Arrives? && FilterPacket(PolicerRun(p, es[..|es| - 1]), es[|es| - 1].pkt).1
  }

  /** The number of packets since the window started: the position of the last one in its window. */
  function Position(es: seq<PolicerEvent>): nat
  {
    if es == [] || es[|es| - 1].NewWindow? then 0 else Position(es[..|es| - 1]) + 1
  }

  /** The number of packets passed since the window started. */
  function PassedInWindow(p: Policer, es: seq<PolicerEvent>): nat
  {
    if es == [] || es[|es| - 1].NewWindow? then 0
    else PassedInWindow(p, es[..|es| - 1]) + if LastPasses(p, es) then 1 else 0
  }

  function Arrivals(es: seq<PolicerEvent>): nat
  {
    if es == [] then 0 else Arrivals(es[..|es| - 1]) + if es[|es| - 1].Arrives? then 1 else 0
  }

  /** The window counter is the position, modulo 2^32; the limits never change. */
  lemma {:induction false} WindowCounter(p: Policer, es: seq<PolicerEvent>)
    requires p.windowPpm == 0
    ensures var q := PolicerRun(p, es);
            && q.windowPpm == Position(es) % 0x1_0000_0000
            && q.ppm == p.ppm && q.maxQos == p.maxQos && q.maxPayloadLen == p.maxPayloadLen
  {
    if es != [] {
      WindowCounter(p, es[..|es| - 1]);
      IncMod(Position(es[..|es| - 1]));
    }
  }

  /**
   Exact verdict: after any trace, a packet passes if and only if it conforms and its position in the
   window, taken modulo 2^32, is at most the limit.
   */
  lemma {:induction false} VerdictExact(p: Policer, es: seq<PolicerEvent>)
    requires p.windowPpm == 0 && es != [] && es[|es| - 1].Arrives?
    ensures LastPasses(p, es) <==> Conforms(p, es[|es| - 1].pkt) && Position(es) % 0x1_0000_0000 <= p.ppm
  {
    NextVerdict(p, es[..|es| - 1], es[|es| - 1].pkt);
  }

  /** The same, for the next packet after the trace. */
  lemma {:induction false} NextVerdict(p: Policer, es: seq<PolicerEvent>, pkt: Packet)
    requires p.windowPpm == 0
    ensures FilterPacket(PolicerRun(p, es), pkt).1 <==> Conforms(p, pkt) && (Position(es) + 1) % 0x1_0000_0000 <= p.ppm
  {
    WindowCounter(p, es);
    IncMod(Position(es));
  }

  /** Rate limit: a window of fewer than 2^32 packets passes at most `ppm` of them. */
  lemma {:induction false} RateLimit(p: Policer, es: seq<PolicerEvent>)
    requires p.windowPpm == 0 && Position(es) < 0x1_0000_0000
    ensures PassedInWindow(p, es) <= p.ppm
    ensures PassedInWindow(p, es) <= Position(es)
  {
    if es != [] && es[|es| - 1].Arrives? {
      RateLimit(p, es[..|es| - 1]);
      VerdictExact(p, es);
    }
  }

  /** A window in which every packet conforms passes the first `ppm` packets, no more and no fewer. */
  lemma {:induction false} RateLimitTight(p: Policer, es: seq<PolicerEvent>)
    requires p.windowPpm == 0 && Position(es) < 0x1_0000_0000
    requires forall e :: e in es && e.Arrives? ==> Conforms(p, e.pkt)
    ensures PassedInWindow(p, es) == if Position(es) <= p.ppm then Position(es) else p.ppm
  {
    if es != [] && es[|es| - 1].Arrives? {
      var init := es[..|es| - 1];
      assert forall e :: e in init ==> e in es;
      RateLimitTight(p, init);
      assert es[|es| - 1] in es;
      VerdictExact(p, es);
    }
  }

  lemma SumMod(a: u32, b: u32)
    ensures (Inc(a) + b) % 0x1_0000_0000 == (a + b + 1) % 0x1_0000_0000
  {
  }

  /** Every packet is counted exactly once, as passed or as dropped, modulo 2^32. */
  lemma {:induction false} EveryPacketCounted(p: Policer, es: seq<PolicerEvent>)
    requires p.passed == 0 && p.dropped == 0
    ensures (PolicerRun(p, es).passed + PolicerRun(p, es).dropped) % 0x1_0000_0000 == Arrivals(es) % 0x1_0000_0000
  {
    if es != [] {
      var q := PolicerRun(p, es[..|es| - 1]);
      EveryPacketCounted(p, es[..|es| - 1]);
      IncMod(q.passed + q.dropped);
      IncMod(Arrivals(es[..|es| - 1]));
      SumMod(q.passed, q.dropped);
      SumMod(q.dropped, q.passed);
    }
  }

  // ---------------------------------------------------------------- the object

  class AtlasPacketPolicer {
    var windowPpm: u32
    var maxQos: u8
    var ppm: u16
    var maxPayloadLen: u16
    var statPktDrop: u32
    var statPktPass: u32

    ghost function Abs(): Policer
      reads this
    {
      Policer(windowPpm, maxQos, ppm, maxPayloadLen, statPktDrop, statPktPass)
    }

    constructor (maxQos: u16, ppm: u16, maxPayloadLen: u16)
      ensures Abs() == NewPolicer(maxQos, ppm, maxPayloadLen)
    {
      windowPpm, statPktDrop, statPktPass := 0, 0, 0;
      this.maxQos := maxQos % 256;
      this.ppm := ppm;
      this.maxPayloadLen := maxPayloadLen;
    }

    method Filter(pkt: Packet) returns (pass: bool)
      modifies this
      ensures (Abs(), pass) == FilterPacket(old(Abs()), pkt)
    {
      windowPpm := Inc(windowPpm);
      if pkt.qos > maxQos || pkt.payloadLen > maxPayloadLen || windowPpm > ppm {
        statPktDrop := Inc(statPktDrop);
        return false;
      }
      statPktPass := Inc(statPktPass);
      return true;
    }

    method RateLimitWindowStart()
      modifies this
      ensures Abs() == StartWindow(old(Abs()))
    {
      windowPpm := 0;
    }
  }
}
