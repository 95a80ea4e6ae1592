/**
 No packet count is lost or invented between the plug-in and the gateway.
 */
module FirewallConservation {
  import opened Machine
  import opened Sequences
  import opened PacketPolicer
  import opened FirewallModel
  import opened FirewallAgreement

  /** The sum of five accounts. */
  function Sum(total: Counts, flight: Counts, rule: Counts, tx: Counts, discarded: Counts): Counts
  {
    Counts(total.ruleDropped + flight.ruleDropped + rule.ruleDropped + tx.ruleDropped + discarded.ruleDropped,
           total.rulePassed + flight.rulePassed + rule.rulePassed + tx.rulePassed + discarded.rulePassed,
           total.txDropped + flight.txDropped + rule.txDropped + tx.txDropped + discarded.txDropped,
           total.txPassed + flight.txPassed + rule.txPassed + tx.txPassed + discarded.txPassed)
  }

  /** Where the counts of the watched client are: at the gateway, on the way, in the plug-in, or given up. */
  function Accounted(w: World): Counts
  {
    Sum(TotalOf(w.totals, w.watch), InFlight(w.toGateway, w.watch),
        RuleCounts(w.rules, w.watch), TxCounts(w.tx, w.watch), w.discarded)
  }

  /** Where they come from: packets filtered, and whatever an uninitialized policer contained. */
  function Sources(w: World): Counts
  {
    Plus(w.filtered, w.injected)
  }

  predicate Congruent(a: int, b: int)
  {
    (a - b) % 0x1_0000_0000 == 0
  }

  predicate SameCounts(a: Counts, b: Counts)
  {
    && Congruent(a.ruleDropped, b.ruleDropped) && Congruent(a.rulePassed, b.rulePassed)
    && Congruent(a.txDropped, b.txDropped) && Congruent(a.txPassed, b.txPassed)
  }

  /** Conservation, for each of the four counts, modulo 2^32. */
  predicate Conserved(w: World)
  {
    SameCounts(Accounted(w), Sources(w))
  }

  // ---------------------------------------------------------------- arithmetic

  lemma CongruentWrap(a: int, b: int)
    ensures Congruent(a % 0x1_0000_0000 + b, a + b)
  {
  }

  lemma CongruentTrans(a: int, b: int, c: int)
    requires Congruent(a, b) && Congruent(b, c)
    ensures Congruent(a, c)
  {
  }

  lemma {:induction false} SameTrans(a: Counts, b: Counts, c: Counts)
    requires SameCounts(a, b) && SameCounts(b, c)
    ensures SameCounts(a, c)
  {
    CongruentTrans(a.ruleDropped, b.ruleDropped, c.ruleDropped);
    CongruentTrans(a.rulePassed, b.rulePassed, c.rulePassed);
    CongruentTrans(a.txDropped, b.txDropped, c.txDropped);
    CongruentTrans(a.txPassed, b.txPassed, c.txPassed);
  }

  lemma {:induction false} SamePlus(a: Counts, b: Counts, c: Counts)
    requires SameCounts(a, b)
    ensures SameCounts(Plus(a, c), Plus(b, c))
  {
  }

  lemma {:induction false} WrapSame(a: Counts, b: Counts)
    ensures SameCounts(Plus(Wrap(a), b), Plus(a, b))
  {
    CongruentWrap(a.ruleDropped, b.ruleDropped);
    CongruentWrap(a.rulePassed, b.rulePassed);
    CongruentWrap(a.txDropped, b.txDropped);
    CongruentWrap(a.txPassed, b.txPassed);
  }

  // ---------------------------------------------------------------- messages in flight

  lemma {:induction false} PlusAssoc(a: Counts, b: Counts, c: Counts)
    ensures Plus(Plus(a, b), c) == Plus(a, Plus(b, c)) && Plus(a, ZERO) == a == Plus(ZERO, a)
  {
  }

  lemma {:induction false} InFlightOne(m: ToGateway, id: Id)
    ensures InFlight([m], id) == Weight(m, id)
  {
    assert [m][1..] == [];
    PlusAssoc(Weight(m, id), ZERO, ZERO);
  }

  lemma {:induction false} InFlightAppend(ms: seq<ToGateway>, m: ToGateway, id: Id)
    ensures InFlight(ms + [m], id) == Plus(InFlight(ms, id), Weight(m, id))
  {
    if ms == [] {
      assert ms + [m] == [m];
      InFlightOne(m, id);
      PlusAssoc(Weight(m, id), ZERO, ZERO);
    } else {
      InFlightAppend(ms[1..], m, id);
      DropAppend(ms, m);
      PlusAssoc(Weight(ms[0], id), InFlight(ms[1..], id), Weight(m, id));
    }
  }

  // ---------------------------------------------------------------- the plug-in

  /** The counts of the watched client in the two processes and on the way are where they were. */
  predicate SameAccount(w: World, v: World)
  {
    Accounted(v) == Accounted(w) && Sources(v) == Sources(w)
  }

  /** Nothing about the watched client changes. */
  lemma {:induction false} Quiet(w: World, v: World)
    requires v.totals == w.totals && v.toGateway == w.toGateway && v.watch == w.watch && v.discarded == w.discarded
    requires RuleCounts(v.rules, w.watch) == RuleCounts(w.rules, w.watch)
    requires TxCounts(v.tx, w.watch) == TxCounts(w.tx, w.watch)
    requires v.filtered == w.filtered && v.injected == w.injected
    ensures SameAccount(w, v)
  {
  }

  /** The counts of a rule are given up. */
  lemma {:induction false} GivenUp(w: World, v: World)
    requires v.totals == w.totals && v.toGateway == w.toGateway && v.watch == w.watch
    requires RuleCounts(v.rules, w.watch) == ZERO && TxCounts(v.tx, w.watch) == ZERO
    requires v.discarded == Plus(w.discarded, Plus(RuleCounts(w.rules, w.watch), TxCounts(w.tx, w.watch)))
    requires v.filtered == w.filtered && v.injected == w.injected
    ensures SameAccount(w, v)
  {
  }

  /** The counts of a rule are sent. */
  lemma {:induction false} Sent(w: World, v: World)
    requires v.totals == w.totals && v.watch == w.watch && v.discarded == w.discarded
    requires RuleCounts(v.rules, w.watch) == ZERO && TxCounts(v.tx, w.watch) == ZERO
    requires InFlight(v.toGateway, w.watch) ==
             Plus(InFlight(w.toGateway, w.watch), Plus(RuleCounts(w.rules, w.watch), TxCounts(w.tx, w.watch)))
    requires v.filtered == w.filtered && v.injected == w.injected
    ensures SameAccount(w, v)
  {
  }

  lemma {:induction false} InstallBalance(w: World, p: Policy)
    ensures SameAccount(w, InstallRule(w, p))
  {
    var v := InstallRule(w, p);
    if p.clientId.name != [] {
      if p.clientId == w.watch { GivenUp(w, v); } else { Quiet(w, v); }
    }
  }

  lemma {:induction false} Erased(rules: map<Id, Policer>, tx: map<Id, TxStats>, id: Id, watch: Id)
    ensures RuleCounts(rules - {id}, watch) == if watch == id then ZERO else RuleCounts(rules, watch)
    ensures TxCounts(tx - {id}, watch) == if watch == id then ZERO else TxCounts(tx, watch)
  {
    if watch == id { assert id !in rules - {id} && id !in tx - {id}; }
  }

  lemma {:induction false} RemoveBalance(w: World, id: Id)
    ensures SameAccount(w, RemoveRule(w, id))
  {
    var v := RemoveRule(w, id);
    if id.name != [] {
      Erased(w.rules, w.tx, id, w.watch);
      if id == w.watch { GivenUp(w, v); } else { Quiet(w, v); }
    }
  }

  /** Counts that appear with an uninitialized policer appear on both sides. */
  lemma {:induction false} TouchBalance(w: World, id: Id, garbage: Policer)
    requires Conserved(w)
    ensures Conserved(TouchRule(w, id, garbage))
  {
    if id !in w.rules {
      var v := TouchRule(w, id, garbage);
      if id == w.watch { Injected(w, v, Counts(garbage.dropped, garbage.passed, 0, 0)); } else { Quiet(w, v); }
    }
  }

  lemma {:induction false} Injected(w: World, v: World, c: Counts)
    requires Conserved(w)
    requires v.totals == w.totals && v.toGateway == w.toGateway && v.watch == w.watch && v.discarded == w.discarded
    requires RuleCounts(w.rules, w.watch) == ZERO && RuleCounts(v.rules, w.watch) == c && v.tx == w.tx
    requires v.filtered == w.filtered && v.injected == Plus(w.injected, c)
    ensures Conserved(v)
  {
    assert Accounted(v) == Plus(Accounted(w), c) && Sources(v) == Plus(Sources(w), c);
    SamePlus(Accounted(w), Sources(w), c);
  }

  /** Counts that move from the plug-in to the stream, or are lost with a broken connection. */
  lemma {:induction false} WriteBalance(w: World, id: Id)
    requires id in w.rules
    ensures var c := Plus(RuleCounts(w.rules, id), TxCounts(w.tx, id));
            SameAccount(w, WriteStats(ClearStats(w, id), id, c))
  {
    var c := Plus(RuleCounts(w.rules, id), TxCounts(w.tx, id));
    var v := WriteStats(ClearStats(w, id), id, c);
    if id == w.watch {
      if w.link == Up {
        InFlightAppend(w.toGateway, PutStat(id, c), w.watch);
        Sent(w, v);
      } else {
        GivenUp(w, v);
      }
    } else {
      WriteOther(w, id, c);
    }
  }

  lemma {:induction false} WriteOther(w: World, id: Id, c: Counts)
    requires id in w.rules && id != w.watch
    ensures SameAccount(w, WriteStats(ClearStats(w, id), id, c))
  {
    var u := ClearStats(w, id);
    Quiet(w, u);
    if w.link == Up {
      InFlightAppend(w.toGateway, PutStat(id, c), w.watch);
      PlusAssoc(InFlight(w.toGateway, w.watch), ZERO, ZERO);
    }
  }

  lemma {:induction false} PluginReceiveConserved(w: World)
    requires Conserved(w) && w.toPlugin != []
    ensures Conserved(PluginReceive(w))
  {
    var v := w.(toPlugin := w.toPlugin[1..]);
    Quiet(w, v);
    match w.toPlugin[0]
    case Install(p) => InstallBalance(v, p);
    case Remove(id) => RemoveBalance(v, id);
    case GetStat(id, garbage, _) =>
      if id.name != [] {
        TouchBalance(v, id, garbage);
        WriteBalance(TouchRule(v, id, garbage), id);
      }
  }

  // ---------------------------------------------------------------- packets

  lemma IncCongruent(n: u32, a: int, b: int)
    requires Congruent(a, b)
    ensures Congruent(a - n + Inc(n), b + 1)
  {
  }

  /** One packet more, on a 32-bit counter that stood at `n`. */
  function Counted(a: Counts, rule: bool, pass: bool, n: u32): Counts
  {
    if rule then
      (if pass then a.(rulePassed := a.rulePassed - n + Inc(n)) else a.(ruleDropped := a.ruleDropped - n + Inc(n)))
    else
      (if pass then a.(txPassed := a.txPassed - n + Inc(n)) else a.(txDropped := a.txDropped - n + Inc(n)))
  }

  lemma {:induction false} CountedSame(a: Counts, s: Counts, rule: bool, pass: bool, n: u32)
    requires SameCounts(a, s)
    ensures SameCounts(Counted(a, rule, pass, n), Count(s, rule, pass))
  {
    IncCongruent(n, a.rulePassed, s.rulePassed);
    IncCongruent(n, a.ruleDropped, s.ruleDropped);
    IncCongruent(n, a.txPassed, s.txPassed);
    IncCongruent(n, a.txDropped, s.txDropped);
  }

  /** A packet counted on both sides. */
  lemma {:induction false} PacketCounted(w: World, v: World, rule: bool, pass: bool, n: u32)
    requires Conserved(w)
    requires Accounted(v) == Counted(Accounted(w), rule, pass, n)
    requires v.filtered == Count(w.filtered, rule, pass) && v.injected == w.injected
    ensures Conserved(v)
  {
    CountedSame(Accounted(w), Sources(w), rule, pass, n);
    assert Sources(v) == Count(Sources(w), rule, pass);
  }

  lemma {:induction false} FilterDstConserved(w: World, dst: Id, pkt: Packet)
    requires Conserved(w)
    ensures Conserved(FilterDst(w, dst, pkt))
  {
    if dst in w.rules {
      var v := FilterDst(w, dst, pkt);
      if dst == w.watch {
        var p, pass := w.rules[dst], FilterPacket(w.rules[dst], pkt).1;
        assert RuleCounts(v.rules, dst) ==
               if pass then Counts(p.dropped, Inc(p.passed), 0, 0) else Counts(Inc(p.dropped), p.passed, 0, 0);
        PacketCounted(w, v, true, pass, if pass then p.passed else p.dropped);
      } else {
        Quiet(w, v);
      }
    }
  }

  lemma {:induction false} CountSrcConserved(w: World, src: Id, pass: bool)
    requires Conserved(w)
    ensures Conserved(CountSrc(w, src, pass))
  {
    if src in w.tx {
      var v := CountSrc(w, src, pass);
      if src == w.watch {
        var t := w.tx[src];
        assert TxCounts(v.tx, src) ==
               if pass then Counts(0, 0, t.dropped, Inc(t.passed)) else Counts(0, 0, Inc(t.dropped), t.passed);
        PacketCounted(w, v, false, pass, if pass then t.passed else t.dropped);
      } else {
        Quiet(w, v);
      }
    }
  }

  // ---------------------------------------------------------------- the gateway

  lemma {:induction false} GatewayReceiveConserved(w: World, order: seq<Id>, known: bool)
    requires Conserved(w) && w.toGateway != []
    ensures Conserved(GatewayReceive(w, order, known))
  {
    hide SameCounts, Accounted, Sources, RuleCounts, TxCounts, Wrap, Installs;
    var m, v := w.toGateway[0], GatewayReceive(w, order, known);
    if m.GetAll? || m.id != w.watch || m.counts == ZERO {
      Unweighted(w, v);
    } else if known {
      StatsAdded(w, v, m.counts);
    } else {
      StatsDropped(w, v, m.counts);
    }
  }

  /** A message without counts of the watched client. */
  lemma {:induction false} Unweighted(w: World, v: World)
    requires v.watch == w.watch && v.rules == w.rules && v.tx == w.tx && v.discarded == w.discarded
    requires w.toGateway != [] && v.toGateway == w.toGateway[1..] && Weight(w.toGateway[0], w.watch) == ZERO
    requires TotalOf(v.totals, w.watch) == TotalOf(w.totals, w.watch)
    requires v.filtered == w.filtered && v.injected == w.injected
    ensures SameAccount(w, v)
  {
  }

  lemma SumSplit(a: Counts, flight: Counts, rule: Counts, tx: Counts, discarded: Counts)
    ensures Sum(a, flight, rule, tx, discarded) == Plus(a, Sum(ZERO, flight, rule, tx, discarded))
  {
  }

  /** Counts on the way may as well be counted with the totals. */
  lemma SumMove(total: Counts, c: Counts, flight: Counts, rule: Counts, tx: Counts, discarded: Counts)
    ensures Sum(total, Plus(c, flight), rule, tx, discarded) ==
            Plus(Plus(total, c), Sum(ZERO, flight, rule, tx, discarded))
  {
  }

  lemma {:induction false} StatsAdded(w: World, v: World, c: Counts)
    requires Conserved(w)
    requires v.watch == w.watch && v.rules == w.rules && v.tx == w.tx && v.discarded == w.discarded
    requires InFlight(w.toGateway, w.watch) == Plus(c, InFlight(v.toGateway, w.watch))
    requires TotalOf(v.totals, w.watch) == Wrap(Plus(TotalOf(w.totals, w.watch), c))
    requires v.filtered == w.filtered && v.injected == w.injected
    ensures Conserved(v)
  {
    hide SameCounts, Plus, Wrap, Sum, InFlight, RuleCounts, TxCounts, TotalOf;
    var total, flight := TotalOf(w.totals, w.watch), InFlight(v.toGateway, v.watch);
    var rule, tx := RuleCounts(v.rules, v.watch), TxCounts(v.tx, v.watch);
    var rest := Sum(ZERO, flight, rule, tx, v.discarded);
    SumSplit(Wrap(Plus(total, c)), flight, rule, tx, v.discarded);
    SumMove(total, c, flight, rule, tx, v.discarded);
    WrapSame(Plus(total, c), rest);
    SameTrans(Accounted(v), Accounted(w), Sources(w));
  }

  lemma {:induction false} StatsDropped(w: World, v: World, c: Counts)
    requires Conserved(w)
    requires v.watch == w.watch && v.rules == w.rules && v.tx == w.tx && v.totals == w.totals
    requires InFlight(w.toGateway, w.watch) == Plus(c, InFlight(v.toGateway, w.watch))
    requires v.discarded == Plus(w.discarded, c)
    requires v.filtered == w.filtered && v.injected == w.injected
    ensures Conserved(v)
  {
    assert SameAccount(w, v);
  }

  /** The reports on the way, and perhaps the rules, are lost. */
  lemma {:induction false} Lost(w: World, v: World)
    requires v.totals == w.totals && v.watch == w.watch && v.tx == w.tx && v.toGateway == []
    requires v.filtered == w.filtered && v.injected == w.injected
    requires
      || (v.rules == w.rules && v.discarded == Plus(w.discarded, InFlight(w.toGateway, w.watch)))
      || (v.rules == map[] &&
          v.discarded == Plus(w.discarded, Plus(RuleCounts(w.rules, w.watch), InFlight(w.toGateway, w.watch))))
    ensures SameAccount(w, v)
  {
  }

  /** Registrations, keep-alives and policies move no counts. */
  lemma {:induction false} DeviceStepQuiet(w: World, e: Event)
    requires e.Register? || e.KeepAlive? || e.KeepAliveExpired? || e.PutPolicy? || e.StatAlarm?
    ensures SameAccount(w, Step(w, e))
  {
    var v := Step(w, e);
    assert v == w.(devices := v.devices, toPlugin := v.toPlugin);
    Quiet(w, v);
  }

  lemma {:induction false} RestartSame(w: World)
    ensures SameAccount(w, RestartPlugin(w))
  {
    var u := w.(tx := map[], discarded := Plus(w.discarded, TxCounts(w.tx, w.watch)));
    TxGivenUp(w, u);
    Lost(u, DropConnection(u));
  }

  lemma {:induction false} TxGivenUp(w: World, v: World)
    requires v.totals == w.totals && v.toGateway == w.toGateway && v.watch == w.watch && v.rules == w.rules
    requires v.tx == map[] && v.discarded == Plus(w.discarded, TxCounts(w.tx, w.watch))
    requires v.filtered == w.filtered && v.injected == w.injected
    ensures SameAccount(w, v)
  {
  }

  lemma {:induction false} ConnectSame(w: World)
    requires w.link == Down && w.toGateway == []
    ensures SameAccount(w, w.(link := Pending, toGateway := [GetAll]))
  {
    InFlightOne(GetAll, w.watch);
  }

  lemma {:induction false} LinkStepQuiet(w: World, e: Event)
    requires e.GatewayAccepts? || e.LinkBreaks?
    ensures SameAccount(w, Step(w, e))
  {
    var v := Step(w, e);
    assert v == w.(link := v.link, synced := v.synced);
    Quiet(w, v);
  }

  lemma {:induction false} FilterConserved(w: World, dst: Id, src: Option<Id>, pkt: Packet)
    requires Conserved(w)
    ensures Conserved(Filter(w, dst, src, pkt))
  {
    FilterDstConserved(w, dst, pkt);
    if src.Some? { CountSrcConserved(FilterDst(w, dst, pkt), src.value, Passes(w, dst, pkt)); }
  }

  lemma {:induction false} WindowsQuiet(w: World)
    ensures SameAccount(w, Step(w, WindowStarts))
  {
    Quiet(w, Step(w, WindowStarts));
  }

  lemma {:induction false} StepConserved(w: World, e: Event)
    requires Conserved(w) && (w.link == Down ==> w.toGateway == [])
    ensures Conserved(Step(w, e))
  {
    hide SameCounts, Accounted, Sources, RuleCounts, TxCounts, Expire, StorePolicy, GatewayReceive, PluginReceive,
         Filter, StartWindows, RestartPlugin, Finds, Enumerates;
    match e
    case GatewayReceives(order, known) => if w.toGateway != [] { GatewayReceiveConserved(w, order, known); }
    case PluginReceives => if w.toPlugin != [] { PluginReceiveConserved(w); }
    case PacketArrives(dst, src, pkt) => FilterConserved(w, dst, src, pkt);
    case WindowStarts => WindowsQuiet(w);
    case GatewayRestarts => Lost(w, Step(w, e));
    case PluginNotices => if w.link == Broken { Lost(w, DropConnection(w)); }
    case PluginRestarts => RestartSame(w);
    case PluginConnects => if w.link == Down { ConnectSame(w); }
    case _ =>
      if e.GatewayAccepts? || e.LinkBreaks? { LinkStepQuiet(w, e); } else { DeviceStepQuiet(w, e); }
  }

  /**
   Conservation in every run, for every client and each of the four counts: gateway totals, reports
   in flight, plug-in counters and discarded counts add up, modulo 2^32, to the packets filtered plus
   what uninitialized policers contained.
   */
  lemma {:induction false} CountsConserved(watch: Id, es: seq<Event>)
    ensures Conserved(Run(Init(watch), es))
  {
    if es != [] {
      var init := es[..|es| - 1];
      CountsConserved(watch, init);
      RunInv(watch, init);
      StepConserved(Run(Init(watch), init), es[|es| - 1]);
    }
  }
}
