/**
 What the firewall does for its devices and what it may not do: packets without a rule pass, counts are given
 up only when a rule or a connection is, reports arrive in the totals, and a device that keeps sending
 keep-alives keeps its policy.
 */
module FirewallEffects {
  import opened Machine
  import opened Sequences
  import opened PacketPolicer
  import opened FirewallModel
  import opened FirewallAgreement
  import opened FirewallConservation
  import opened FirewallTheorems
  import opened FirewallWindow

  // ---------------------------------------------------------------- packets

  /** One more, or not, in a 32-bit counter. */
  function More(n: u32, more: bool): u32
  {
    (n + if more then 1 else 0) % 0x1_0000_0000
  }

  /** A packet is counted once for its source, by the verdict, and for no other client. */
  lemma {:induction false} SourceCounted(w: World, e: Event)
    requires e.PacketArrives?
    ensures var v, pass := Step(w, e), Passes(w, e.dst, e.pkt);
            && v.tx.Keys == w.tx.Keys
            && forall id :: id in w.tx ==>
                 var mine := e.src == Some(id);
                 v.tx[id] == TxStats(More(w.tx[id].passed, mine && pass), More(w.tx[id].dropped, mine && !pass))
  {
    hide FilterPacket, Count, Passes, FilterDst, CountSrc, More;
    var u := FilterDst(w, e.dst, e.pkt);
    assert u.tx == w.tx;
    forall n: u32 ensures More(n, false) == n { NoMore(n); }
    if e.src.Some? { OneCounted(u, e.src.value, Passes(w, e.dst, e.pkt)); }
  }

  lemma NoMore(n: u32)
    ensures More(n, false) == n
  {
  }

  lemma {:induction false} OneCounted(w: World, src: Id, pass: bool)
    ensures var v := CountSrc(w, src, pass);
            if src in w.tx then
              v.tx == w.tx[src := TxStats(More(w.tx[src].passed, pass), More(w.tx[src].dropped, !pass))]
            else v.tx == w.tx
  {
    hide Count;
  }

  /** A packet to a destination without a rule passes, for its source too, and no rule changes. */
  lemma {:induction false} UnruledPasses(w: World, e: Event)
    requires e.PacketArrives? && e.dst !in w.rules
    ensures Passes(w, e.dst, e.pkt) && Step(w, e).rules == w.rules
    ensures forall id :: id in w.tx && e.src == Some(id) ==>
              && id in Step(w, e).tx && Step(w, e).tx[id].dropped == w.tx[id].dropped
              && Step(w, e).tx[id].passed == More(w.tx[id].passed, true)
  {
    SourceCounted(w, e);
    NoRuleNoChange(w, e);
    hide Step, More;
    forall id | id in w.tx { NoMore(w.tx[id].dropped); }
  }

  lemma {:induction false} NoRuleNoChange(w: World, e: Event)
    requires e.PacketArrives? && e.dst !in w.rules
    ensures Step(w, e).rules == w.rules
  {
    hide Count, Passes, More;
  }

  /**
   The verdict in every run, once the plug-in is synchronized and nothing is on its way: a packet to a device
   without a policy passes; one to a device with a policy passes if and only if it conforms to it and the
   window counter, with it, is at most the rate.
   */
  lemma {:induction false} VerdictByPolicy(watch: Id, es: seq<Event>, dst: Id, pkt: Packet)
    ensures var w := Run(Init(watch), es);
            w.link == Up && w.synced && w.toPlugin == [] ==>
              if dst in w.devices && w.devices[dst].policy.Some? then
                var p := w.devices[dst].policy.value;
                && dst in w.rules
                && (Passes(w, dst, pkt) <==> && pkt.qos <= p.qos % 256 && pkt.payloadLen <= p.payloadLen
                                             && (w.rules[dst].windowPpm + 1) % 0x1_0000_0000 <= p.ppm)
              else Passes(w, dst, pkt)
  {
    var w := Run(Init(watch), es);
    RuleAgreement(watch, es);
    hide Run;
    if w.link == Up && w.synced && w.toPlugin == [] {
      assert View(w.rules) == Policies(w.devices);
      assert dst in w.rules <==> dst in View(w.rules);
      if dst in w.rules { assert View(w.rules)[dst] == RuleOfPolicer(w.rules[dst]); }
    }
  }

  // ---------------------------------------------------------------- every client with a rule is counted

  ghost predicate Tracked(w: World)
  {
    forall id :: id in w.rules ==> id in w.tx
  }

  lemma {:induction false} StepTracked(w: World, e: Event)
    requires Tracked(w)
    ensures Tracked(Step(w, e))
  {
    if Delivers(w, e) {
      StepDelivers(w, e);
      hide Step;
      ReceiveTracked(w);
    } else if Clears(w, e) {
      ClearedRules(w, e);
    } else if e.PacketArrives? {
      SourceCounted(w, e);
      hide Step, FilterPacket;
      forall id | id in Step(w, e).rules ensures id in Step(w, e).tx { PacketRule(w, e, id); }
    } else if e.WindowStarts? {
      assert Step(w, e).rules.Keys == w.rules.Keys && Step(w, e).tx == w.tx;
    } else {
      OtherEvents(w, e);
      SameTx(w, e);
    }
  }

  lemma {:induction false} SameTx(w: World, e: Event)
    requires !Delivers(w, e) && !Clears(w, e) && !e.PacketArrives?
    ensures Step(w, e).tx == w.tx
  {
    hide Enumerates, Finds, Installs, StartWindows, SetPolicyInfo, Plus, InFlight, RuleCounts, TxCounts, Expire,
         StorePolicy, AddStats, Filter, PluginReceive;
  }

  lemma {:induction false} ReceiveTracked(w: World)
    requires Tracked(w) && w.toPlugin != []
    ensures Tracked(PluginReceive(w))
  {
    hide RuleCounts, TxCounts, Plus, WriteStats, ReportStats, LoseCounts;
    var v := w.(toPlugin := w.toPlugin[1..]);
    match w.toPlugin[0]
    case Install(p) =>
    case Remove(id) =>
    case GetStat(id, garbage, _) => ReportTracked(v, id, garbage);
  }

  lemma {:induction false} ReportTracked(w: World, id: Id, garbage: Policer)
    requires Tracked(w)
    ensures Tracked(ReportStats(w, id, garbage))
  {
    hide RuleCounts, TxCounts, Plus, WriteStats, TouchRule;
    if id.name != [] { TouchedRules(w, id, garbage); }
  }

  /** In every run, a client with a rule has its own packets counted as well. */
  lemma {:induction false} RulesTracked(watch: Id, es: seq<Event>, id: Id)
    ensures id in Run(Init(watch), es).rules ==> id in Run(Init(watch), es).tx
  {
    AllTracked(watch, es);
  }

  lemma {:induction false} AllTracked(watch: Id, es: seq<Event>)
    ensures Tracked(Run(Init(watch), es))
  {
    hide Step;
    if es != [] {
      AllTracked(watch, es[..|es| - 1]);
      StepTracked(Run(Init(watch), es[..|es| - 1]), es[|es| - 1]);
    }
  }

  // ---------------------------------------------------------------- what is given up

  /** The gateway takes the next message. */
  predicate Takes(w: World, e: Event)
  {
    e.GatewayReceives? && (w.link == Up || w.link == Broken) && w.toGateway != [] && Enumerates(e.order, w.devices)
  }

  /** The counts of the watched client at the plug-in, its rule made up of `garbage` if there is none. */
  function AtPlugin(w: World, garbage: Policer): Counts
  {
    Plus(if w.watch in w.rules then RuleCounts(w.rules, w.watch) else Held(garbage), TxCounts(w.tx, w.watch))
  }

  /**
   The counts of the watched client that a step gives up: those of a rule replaced or removed, those lost with
   a process or a connection, those written without a connection, and those of a device nobody knows.
   */
  function Forgone(w: World, e: Event): Counts
  {
    match e
    case PluginReceives =>
      if !Delivers(w, e) || w.watch.name == [] then ZERO
      else
        (match w.toPlugin[0]
         case Install(p) =>
           if p.clientId == w.watch then Plus(RuleCounts(w.rules, w.watch), TxCounts(w.tx, w.watch)) else ZERO
         case Remove(id) =>
           if id == w.watch then Plus(RuleCounts(w.rules, w.watch), TxCounts(w.tx, w.watch)) else ZERO
         case GetStat(id, garbage, _) => if id == w.watch && w.link != Up then AtPlugin(w, garbage) else ZERO)
    case GatewayReceives(order, known) => if Takes(w, e) && !known then Weight(w.toGateway[0], w.watch) else ZERO
    case GatewayRestarts => InFlight(w.toGateway, w.watch)
    case PluginNotices =>
      if w.link == Broken then Plus(RuleCounts(w.rules, w.watch), InFlight(w.toGateway, w.watch)) else ZERO
    case PluginRestarts =>
      Plus(TxCounts(w.tx, w.watch), Plus(RuleCounts(w.rules, w.watch), InFlight(w.toGateway, w.watch)))
    case _ => ZERO
  }

  /** Exactly these counts are given up, by every event and in every state. */
  lemma {:induction false} ForgoneExactly(w: World, e: Event)
    ensures Step(w, e).discarded == Plus(w.discarded, Forgone(w, e))
  {
    hide Step, InFlight, RuleCounts, TxCounts, Plus, Enumerates;
    PlusZero(w.discarded);
    if Delivers(w, e) {
      StepDelivers(w, e);
      ReceiveForgoes(w, e);
    } else if e.GatewayReceives? {
      if Takes(w, e) { TakenForgoes(w, e); } else { NotTaken(w, e); }
    } else if e.PluginRestarts? || e.PluginNotices? || e.GatewayRestarts? {
      EndForgoes(w, e);
    } else {
      SameDiscarded(w, e);
    }
  }

  lemma {:induction false} NotTaken(w: World, e: Event)
    requires e.GatewayReceives? && !Takes(w, e)
    ensures Step(w, e) == w
  {
    hide Enumerates;
  }

  /** The end of a process or of a connection. */
  lemma {:induction false} EndForgoes(w: World, e: Event)
    requires e.PluginRestarts? || e.PluginNotices? || e.GatewayRestarts?
    ensures Step(w, e).discarded == Plus(w.discarded, Forgone(w, e))
  {
    hide InFlight, RuleCounts, TxCounts, Plus;
    PlusZero(w.discarded);
    PlusAssoc(w.discarded, TxCounts(w.tx, w.watch),
              Plus(RuleCounts(w.rules, w.watch), InFlight(w.toGateway, w.watch)));
  }

  lemma {:induction false} SameDiscarded(w: World, e: Event)
    requires !Delivers(w, e) && !e.GatewayReceives? && !e.PluginRestarts? && !e.PluginNotices? && !e.GatewayRestarts?
    ensures Step(w, e).discarded == w.discarded
  {
    hide Enumerates, Finds, Installs, StartWindows, SetPolicyInfo, Plus, InFlight, RuleCounts, TxCounts, Expire,
         StorePolicy, AddStats, PluginReceive, FilterPacket, Count, Passes;
  }

  lemma {:induction false} TakenForgoes(w: World, e: Event)
    requires Takes(w, e)
    ensures Step(w, e).discarded == Plus(w.discarded, Forgone(w, e))
  {
    hide Step, Enumerates, AddStats, Plus;
    TakeStep(w, e);
    PlusZero(w.discarded);
    if w.toGateway[0].PutStat? {
      AddForgoes(w.(toGateway := w.toGateway[1..]), w.toGateway[0].id, w.toGateway[0].counts, e.known);
    }
  }

  /** What the gateway does with the message it takes. */
  lemma {:induction false} TakeStep(w: World, e: Event)
    requires Takes(w, e)
    ensures var v, m := w.(toGateway := w.toGateway[1..]), w.toGateway[0];
            && (m.PutStat? ==> Step(w, e) == AddStats(v, m.id, m.counts, e.known))
            && (m.GetAll? ==> Step(w, e) == w.(toGateway := w.toGateway[1..], toPlugin := Step(w, e).toPlugin,
                                               synced := Step(w, e).synced))
  {
    hide Enumerates, Installs, AddStats;
  }

  lemma {:induction false} AddForgoes(w: World, id: Id, c: Counts, known: bool)
    ensures AddStats(w, id, c, known).discarded == Plus(w.discarded, if id == w.watch && !known then c else ZERO)
  {
    hide Wrap, TotalOf;
    PlusZero(w.discarded);
  }

  lemma {:induction false} ReceiveForgoes(w: World, e: Event)
    requires Delivers(w, e)
    ensures PluginReceive(w).discarded == Plus(w.discarded, Forgone(w, e))
  {
    hide InstallRule, RemoveRule, ReportStats, RuleCounts, TxCounts, Held;
    var v := w.(toPlugin := w.toPlugin[1..]);
    PlusZero(w.discarded);
    match w.toPlugin[0]
    case Install(p) => InstallForgoes(v, p);
    case Remove(id) => RemoveForgoes(v, id);
    case GetStat(id, garbage, _) => ReportForgoes(v, id, garbage);
  }

  lemma PlusZero(c: Counts)
    ensures Plus(c, ZERO) == c
  {
  }

  lemma {:induction false} InstallForgoes(w: World, p: Policy)
    ensures InstallRule(w, p).discarded ==
            if p.clientId.name != [] && p.clientId == w.watch then
              Plus(w.discarded, Plus(RuleCounts(w.rules, w.watch), TxCounts(w.tx, w.watch)))
            else w.discarded
  {
    hide RuleCounts, TxCounts, Plus;
  }

  lemma {:induction false} RemoveForgoes(w: World, id: Id)
    ensures RemoveRule(w, id).discarded ==
            if id.name != [] && id == w.watch then
              Plus(w.discarded, Plus(RuleCounts(w.rules, w.watch), TxCounts(w.tx, w.watch)))
            else w.discarded
  {
    hide RuleCounts, TxCounts, Plus;
  }

  lemma {:induction false} ReportForgoes(w: World, id: Id, garbage: Policer)
    ensures ReportStats(w, id, garbage).discarded ==
            if id.name != [] && id == w.watch && w.link != Up then Plus(w.discarded, AtPlugin(w, garbage))
            else w.discarded
  {
    if id.name != [] {
      TouchedCounts(w, id, garbage);
      var v := TouchRule(w, id, garbage);
      hide TouchRule, RuleCounts, TxCounts, Plus, Held;
      var u := ClearStats(v, id);
      assert u.discarded == w.discarded && u.watch == w.watch && u.link == w.link;
    }
  }

  lemma {:induction false} TouchedCounts(w: World, id: Id, garbage: Policer)
    ensures var v := TouchRule(w, id, garbage);
            && v.tx == w.tx && v.discarded == w.discarded && v.watch == w.watch && v.link == w.link
            && RuleCounts(v.rules, id) == if id in w.rules then RuleCounts(w.rules, id) else Held(garbage)
  {
    hide Plus;
  }

  function ForgoneIn(w: World, es: seq<Event>): Counts
  {
    if es == [] then ZERO
    else Plus(ForgoneIn(w, es[..|es| - 1]), Forgone(Run(w, es[..|es| - 1]), es[|es| - 1]))
  }

  lemma {:induction false} RunForgoes(w: World, es: seq<Event>)
    ensures Run(w, es).discarded == Plus(w.discarded, ForgoneIn(w, es))
  {
    hide Step, Forgone;
    if es != [] {
      RunForgoes(w, es[..|es| - 1]);
      ForgoneExactly(Run(w, es[..|es| - 1]), es[|es| - 1]);
      PlusAssoc(w.discarded, ForgoneIn(w, es[..|es| - 1]), Forgone(Run(w, es[..|es| - 1]), es[|es| - 1]));
    }
  }

  /** The step can lose counts of the watched client. */
  predicate Loses(w: World, e: Event)
  {
    match e
    case PluginReceives =>
      && Delivers(w, e) && (w.watch in w.rules || w.watch in w.tx || w.toPlugin[0].GetStat?)
      && (Replaces(w.toPlugin[0], w.watch) || (w.toPlugin[0].GetStat? && w.toPlugin[0].id == w.watch && w.link != Up))
    case GatewayReceives(_, known) => Takes(w, e) && !known && w.toGateway[0].PutStat? && w.toGateway[0].id == w.watch
    case GatewayRestarts => true
    case PluginNotices => w.link == Broken
    case PluginRestarts => true
    case _ => false
  }

  ghost predicate NeverLoses(w: World, es: seq<Event>)
  {
    es != [] ==> NeverLoses(w, es[..|es| - 1]) && !Loses(Run(w, es[..|es| - 1]), es[|es| - 1])
  }

  lemma {:induction false} OnlyThereForgone(w: World, e: Event)
    requires !Loses(w, e)
    ensures Forgone(w, e) == ZERO
  {
    NoneThere(w.rules, w.tx, w.watch);
    hide Enumerates, InFlight, RuleCounts, TxCounts, Plus, AtPlugin;
  }

  lemma {:induction false} NoneThere(rules: map<Id, Policer>, tx: map<Id, TxStats>, id: Id)
    ensures id !in rules && id !in tx ==> Plus(RuleCounts(rules, id), TxCounts(tx, id)) == ZERO
  {
  }

  lemma {:induction false} NothingForgone(w: World, es: seq<Event>)
    requires NeverLoses(w, es)
    ensures ForgoneIn(w, es) == ZERO
  {
    hide Step, Forgone, Loses, Run;
    if es != [] {
      NothingForgone(w, es[..|es| - 1]);
      OnlyThereForgone(Run(w, es[..|es| - 1]), es[|es| - 1]);
    }
  }

  /**
   Every packet is accounted for: in a run that keeps to the guard of `PacketCountsExact` and in which no rule of
   the client is replaced or removed, no process or connection is lost and every report is of a known device,
   totals, reports in flight and counters at the plug-in alone equal the packets filtered, modulo 2^32.
   */
  lemma {:induction false} NothingLost(watch: Id, es: seq<Event>)
    requires Promised(Init(watch), es) && NeverLoses(Init(watch), es)
    ensures var w := Run(Init(watch), es);
            SameCounts(Sum(TotalOf(w.totals, watch), InFlight(w.toGateway, watch), RuleCounts(w.rules, watch),
                           TxCounts(w.tx, watch), ZERO), w.filtered)
  {
    hide Step, Run, Sum, SameCounts, TotalOf, InFlight, RuleCounts, TxCounts, ForgoneIn;
    var w := Run(Init(watch), es);
    PacketCountsExact(watch, es);
    assert Exact(w);
    RunForgoes(Init(watch), es);
    NothingForgone(Init(watch), es);
    assert w.discarded == ZERO;
    SameWatch(Init(watch), es);
  }

  lemma {:induction false} SameWatch(w: World, es: seq<Event>)
    ensures Run(w, es).watch == w.watch
  {
    hide Step, Invents, Held, Plus;
    if es != [] {
      SameWatch(w, es[..|es| - 1]);
      InventedExactly(Run(w, es[..|es| - 1]), es[|es| - 1]);
    }
  }

  // ---------------------------------------------------------------- what is filtered

  /** What a packet adds to the account of the watched client: as destination, if it has a rule, and as source. */
  function Packeted(w: World, e: Event): Counts
  {
    if !e.PacketArrives? then ZERO
    else
      var pass := Passes(w, e.dst, e.pkt);
      var dst, src := e.dst == w.watch && w.watch in w.rules, e.src == Some(w.watch) && w.watch in w.tx;
      Counts(if dst && !pass then 1 else 0, if dst && pass then 1 else 0,
             if src && !pass then 1 else 0, if src && pass then 1 else 0)
  }

  /** The account `filtered` is what its name says: every packet, once for each side, by the verdict. */
  lemma {:induction false} FilteredExactly(w: World, e: Event)
    ensures Step(w, e).filtered == Plus(w.filtered, Packeted(w, e))
  {
    if e.PacketArrives? {
      hide FilterDst, CountSrc, Passes;
      DstFiltered(w, e.dst, e.pkt);
      if e.src.Some? { SrcFiltered(FilterDst(w, e.dst, e.pkt), e.src.value, Passes(w, e.dst, e.pkt)); }
    } else {
      PlusZero(w.filtered);
      NotFiltered(w, e);
    }
  }

  lemma {:induction false} NotFiltered(w: World, e: Event)
    requires !e.PacketArrives?
    ensures Step(w, e).filtered == w.filtered
  {
    hide Enumerates, Finds, Installs, StartWindows, SetPolicyInfo, InFlight, RuleCounts, TxCounts, Expire, Plus,
         StorePolicy, AddStats, PluginReceive, Filter;
  }

  lemma {:induction false} DstFiltered(w: World, dst: Id, pkt: Packet)
    ensures var v, pass := FilterDst(w, dst, pkt), Passes(w, dst, pkt);
            && v.tx == w.tx && v.watch == w.watch
            && v.filtered == if dst == w.watch && dst in w.rules then
                               (if pass then w.filtered.(rulePassed := w.filtered.rulePassed + 1)
                                else w.filtered.(ruleDropped := w.filtered.ruleDropped + 1))
                             else w.filtered
  {
    hide FilterPacket;
  }

  lemma {:induction false} SrcFiltered(w: World, src: Id, pass: bool)
    ensures CountSrc(w, src, pass).filtered ==
            if src == w.watch && src in w.tx then
              (if pass then w.filtered.(txPassed := w.filtered.txPassed + 1)
               else w.filtered.(txDropped := w.filtered.txDropped + 1))
            else w.filtered
  {
    hide Inc;
  }

  // ---------------------------------------------------------------- reports and totals

  predicate Narrow(c: Counts)
  {
    && 0 <= c.ruleDropped < 0x1_0000_0000 && 0 <= c.rulePassed < 0x1_0000_0000
    && 0 <= c.txDropped < 0x1_0000_0000 && 0 <= c.txPassed < 0x1_0000_0000
  }

  /** The sum of the four counts, each in 32 bits. */
  function Added(a: Counts, b: Counts): Counts
  {
    Counts((a.ruleDropped + b.ruleDropped) % 0x1_0000_0000, (a.rulePassed + b.rulePassed) % 0x1_0000_0000,
           (a.txDropped + b.txDropped) % 0x1_0000_0000, (a.txPassed + b.txPassed) % 0x1_0000_0000)
  }

  /** A report of a known device raises its four totals by exactly its counts, and no other totals. */
  lemma {:induction false} ReportAdds(w: World, e: Event, id: Id)
    requires Takes(w, e) && e.known && w.toGateway[0].PutStat? && Narrow(TotalOf(w.totals, id))
    ensures var v, m := Step(w, e), w.toGateway[0];
            && v.toGateway == w.toGateway[1..] && v.discarded == w.discarded
            && TotalOf(v.totals, id) == if id == m.id then Added(TotalOf(w.totals, id), m.counts)
                                        else TotalOf(w.totals, id)
  {
    hide Step, Enumerates, AddStats, TotalOf, Narrow;
    TakeStep(w, e);
    StatsAdd(w.(toGateway := w.toGateway[1..]), w.toGateway[0].id, w.toGateway[0].counts, id);
  }

  lemma {:induction false} StatsAdd(w: World, x: Id, c: Counts, id: Id)
    requires Narrow(TotalOf(w.totals, id))
    ensures var v := AddStats(w, x, c, true);
            && v == w.(totals := v.totals)
            && TotalOf(v.totals, id) == if id == x then Added(TotalOf(w.totals, id), c) else TotalOf(w.totals, id)
  {
    if c == ZERO { NarrowStays(TotalOf(w.totals, id)); }
    hide Narrow;
  }

  lemma NarrowStays(c: Counts)
    requires Narrow(c)
    ensures Added(c, ZERO) == c
  {
  }

  /** Nothing else changes the totals, a restart of either process included. */
  lemma {:induction false} TotalsOnlyByReports(w: World, e: Event)
    requires !(Takes(w, e) && e.known && w.toGateway[0].PutStat?)
    ensures Step(w, e).totals == w.totals
  {
    if e.GatewayReceives? {
      hide Step, Enumerates, Plus, Wrap, TotalOf;
      if Takes(w, e) { TakeStep(w, e); } else { NotTaken(w, e); }
    } else if e.PacketArrives? {
      PacketFrame(w, e);
    } else {
      SameTotals(w, e);
    }
  }

  lemma {:induction false} SameTotals(w: World, e: Event)
    requires !e.GatewayReceives? && !e.PacketArrives?
    ensures Step(w, e).totals == w.totals
  {
    hide Enumerates, Finds, Installs, StartWindows, SetPolicyInfo, Plus, InFlight, RuleCounts, TxCounts, Expire,
         StorePolicy, Filter, PluginReceive, GatewayReceive;
  }

  lemma {:induction false} TotalsNarrow(watch: Id, es: seq<Event>, id: Id)
    ensures Narrow(TotalOf(Run(Init(watch), es).totals, id))
  {
    if es != [] {
      var w, e := Run(Init(watch), es[..|es| - 1]), es[|es| - 1];
      TotalsNarrow(watch, es[..|es| - 1], id);
      hide Run, Step, Narrow, TotalOf, Enumerates;
      if Takes(w, e) && e.known && w.toGateway[0].PutStat? {
        ReportAdds(w, e, id);
        AddedNarrow(TotalOf(w.totals, id), w.toGateway[0].counts);
      } else {
        TotalsOnlyByReports(w, e);
      }
      RunLast(Init(watch), es);
    }
  }

  lemma {:induction false} RunLast(w: World, es: seq<Event>)
    requires es != []
    ensures Run(w, es) == Step(Run(w, es[..|es| - 1]), es[|es| - 1])
  {
    hide Step;
  }

  lemma AddedNarrow(a: Counts, b: Counts)
    ensures Narrow(Added(a, b))
  {
  }

  /**
   The statistics alarm does its work, from every reachable state that is synchronized with nothing on its way:
   the request, the report and its reception bring the counters of the device from the plug-in into the
   totals, lose nothing, and leave the limits and the window of its rule alone.
   */
  lemma {:induction false} StatisticsArrive(watch: Id, es: seq<Event>, id: Id, garbage: Policer, order: seq<Id>)
    requires var w := Run(Init(watch), es);
             && w.link == Up && w.synced && w.toPlugin == [] && w.toGateway == [] && Enumerates(order, w.devices)
             && id in w.devices && w.devices[id].policy.Some?
    ensures var w := Run(Init(watch), es);
            var v := Step(Step(Step(w, StatAlarm(id, garbage)), PluginReceives), GatewayReceives(order, true));
            && id in w.rules && id in w.tx
            && TotalOf(v.totals, id) == Added(TotalOf(w.totals, id), Counts(w.rules[id].dropped, w.rules[id].passed,
                                                                            w.tx[id].dropped, w.tx[id].passed))
            && v.rules == w.rules[id := w.rules[id].(dropped := 0, passed := 0)]
            && v.tx == w.tx[id := TxStats(0, 0)]
            && v.toPlugin == [] && v.toGateway == [] && v.discarded == w.discarded && v.devices == w.devices
  {
    var w := Run(Init(watch), es);
    RunInv(watch, es);
    assert DeviceOk(w.devices, id);
    SyncedFinds(watch, es, id);
    AllTracked(watch, es);
    TotalsNarrow(watch, es, id);
    assert id in w.rules by { assert ApplyAll([], View(w.rules)) == View(w.rules); }
    hide Run, FirewallAgreement.Inv;
    var u := w.(toPlugin := [GetStat(id, garbage, Finds(w, id))]);
    assert Step(w, StatAlarm(id, garbage)) == u by { OneRequest(w, id, garbage); }
    StepDelivers(u, PluginReceives);
    OneReport(u, id, garbage);
    var t := Step(u, PluginReceives);
    hide Step, Finds;
    ReportAdds(t, GatewayReceives(order, true), id);
    TakenFrame(t, GatewayReceives(order, true));
  }

  lemma {:induction false} OneRequest(w: World, id: Id, garbage: Policer)
    requires w.link == Up && w.toPlugin == [] && id.name != []
    requires id in w.devices && w.devices[id].policy.Some? && w.devices[id].policy.value.clientId == id
    ensures Step(w, StatAlarm(id, garbage)) == w.(toPlugin := [GetStat(id, garbage, Finds(w, id))])
  {
    hide Finds;
    assert [] + [GetStat(id, garbage, Finds(w, id))] == [GetStat(id, garbage, Finds(w, id))];
  }

  /** The plug-in answers with the counters of a rule it has, and clears them. */
  lemma {:induction false} OneReport(w: World, id: Id, garbage: Policer)
    requires w.link == Up && |w.toPlugin| == 1 && w.toPlugin[0].GetStat? && w.toPlugin[0].id == id
    requires w.toGateway == [] && id.name != [] && id in w.rules && id in w.tx
    ensures PluginReceive(w) ==
            w.(toPlugin := [], rules := w.rules[id := w.rules[id].(dropped := 0, passed := 0)],
               tx := w.tx[id := TxStats(0, 0)],
               toGateway := [PutStat(id, Counts(w.rules[id].dropped, w.rules[id].passed,
                                                w.tx[id].dropped, w.tx[id].passed))])
  {
    var v := w.(toPlugin := []);
    assert w.toPlugin[1..] == [] && TouchRule(v, id, w.toPlugin[0].garbage) == v;
    var c := Counts(w.rules[id].dropped, w.rules[id].passed, w.tx[id].dropped, w.tx[id].passed);
    assert Plus(RuleCounts(v.rules, id), TxCounts(v.tx, id)) == c;
    assert [] + [PutStat(id, c)] == [PutStat(id, c)];
  }

  lemma {:induction false} TakenFrame(w: World, e: Event)
    requires Takes(w, e) && w.toGateway[0].PutStat?
    ensures var v := Step(w, e);
            v.rules == w.rules && v.tx == w.tx && v.toPlugin == w.toPlugin && v.devices == w.devices
  {
    hide Enumerates, Installs, AddStats;
  }

  // ---------------------------------------------------------------- keep-alives

  /** How often the keep-alive of the device has expired since the last one came. */
  function Silence(es: seq<Event>, id: Id): nat
  {
    if es == [] then 0
    else
      var e, before := es[|es| - 1], Silence(es[..|es| - 1], id);
      if e == KeepAlive(id) then 0 else if e == KeepAliveExpired(id) then before + 1 else before
  }

  /** At some moment the device was silent for four expirations. */
  ghost predicate FellSilent(es: seq<Event>, id: Id)
  {
    es != [] && (FellSilent(es[..|es| - 1], id) || Silence(es, id) >= 4)
  }

  /** The policy the device asked for last. */
  function LastPut(es: seq<Event>, id: Id, first: Option<Policy>): Option<Policy>
  {
    if es == [] then first
    else
      match es[|es| - 1]
      case PutPolicy(x, qos, ppm, len) =>
        if x == id then Some(Policy(id, qos, ppm, len)) else LastPut(es[..|es| - 1], id, first)
      case _ => LastPut(es[..|es| - 1], id, first)
  }

  /** The device does not register again and the gateway is not restarted. */
  ghost predicate Steady(es: seq<Event>, id: Id)
  {
    forall i :: 0 <= i < |es| ==> !es[i].GatewayRestarts? && !(es[i].Register? && es[i].id == id)
  }

  predicate Concerns(e: Event, id: Id)
  {
    match e
    case Register(x, _) => x == id
    case KeepAlive(x) => x == id
    case KeepAliveExpired(x) => x == id
    case PutPolicy(x, _, _, _) => x == id
    case GatewayRestarts => true
    case _ => false
  }

  lemma {:induction false} Unconcerned(w: World, e: Event, id: Id)
    requires id in w.devices && !Concerns(e, id)
    ensures id in Step(w, e).devices && Step(w, e).devices[id] == w.devices[id]
  {
    hide Enumerates, Finds, Installs, StartWindows, Plus, InFlight, RuleCounts, TxCounts, AddStats, PluginReceive,
         Filter, Expire, StorePolicy;
    if e.PacketArrives? {
      PacketFrame(w, e);
    } else if e.KeepAliveExpired? && e.id in w.devices {
      OtherDevice(w, e.id, id, Policy(id, 0, 0, 0));
    } else if e.PutPolicy? && e.id in w.devices {
      OtherDevice(w, e.id, id, Policy(e.id, e.qos, e.ppm, e.payloadLen));
    }
  }

  lemma {:induction false} OtherDevice(w: World, x: Id, id: Id, p: Policy)
    requires x in w.devices && id in w.devices && x != id
    ensures id in Expire(w, x).devices && Expire(w, x).devices[id] == w.devices[id]
    ensures id in StorePolicy(w, x, p).devices && StorePolicy(w, x, p).devices[id] == w.devices[id]
  {
    hide SetPolicyInfo;
  }

  /** One event of the device: a keep-alive fills the counter, an expiry takes one, a request stores its policy. */
  lemma {:induction false} DeviceStep(w: World, e: Event, id: Id)
    requires id in w.devices && (e == KeepAlive(id) || e == KeepAliveExpired(id) || (e.PutPolicy? && e.id == id))
    ensures var v, d := Step(w, e), w.devices[id];
            && id in v.devices
            && (!d.registered && d.kaCtr == 0 ==> v.devices[id] == d)
            && (d.registered && d.kaCtr > 0 ==>
                  v.devices[id] == match e {
                    case KeepAlive(_) => d.(kaCtr := 4)
                    case KeepAliveExpired(_) =>
                      if d.kaCtr == 1 then Device(false, 0, None) else d.(kaCtr := d.kaCtr - 1)
                    case PutPolicy(_, qos, ppm, len) => d.(policy := Some(Policy(id, qos, ppm, len)))
                    case _ => d
                  })
  {
    if e.PutPolicy? { SetPolicyStores(w.devices[id].policy, Policy(id, e.qos, e.ppm, e.payloadLen)); }
    hide SetPolicyInfo;
  }

  /**
   A device that registered is unregistered, and its policy withdrawn, if and only if it was silent for four
   expirations; until then it has the policy it asked for last.  Whatever else happens does not matter.
   */
  lemma {:induction false} KeptAlive(w: World, es: seq<Event>, id: Id)
    requires id in w.devices && w.devices[id].registered && w.devices[id].kaCtr == 4 && Steady(es, id)
    ensures var v := Run(w, es);
            && id in v.devices
            && if FellSilent(es, id) then v.devices[id] == Device(false, 0, None)
               else
                 && Silence(es, id) < 4
                 && v.devices[id] == Device(true, 4 - Silence(es, id), LastPut(es, id, w.devices[id].policy))
  {
    hide Step;
    if es != [] {
      var init, e := es[..|es| - 1], es[|es| - 1];
      assert Steady(init, id);
      KeptAlive(w, init, id);
      var u := Run(w, init);
      if Concerns(e, id) { DeviceStep(u, e, id); } else { Unconcerned(u, e, id); }
    }
  }

  /** A registration starts the count anew and keeps the policy; a restart of the gateway forgets every device. */
  lemma {:induction false} RegistrationFills(w: World, id: Id, counter: u8)
    requires id.name != []
    ensures var v := Step(w, Register(id, counter));
            && v.devices == w.devices[id := Device(true, 4, if id in w.devices then w.devices[id].policy else None)]
            && Step(w, GatewayRestarts).devices == map[]
  {
  }

  /** Over a connection that is not accepted, nothing is sent to the plug-in. */
  lemma {:induction false} SilentUnlessUp(w: World, e: Event)
    requires w.link != Up
    ensures |Step(w, e).toPlugin| <= |w.toPlugin|
  {
    hide Enumerates, Finds, Installs, StartWindows, SetPolicyInfo, Plus, InFlight, RuleCounts, TxCounts, AddStats,
         Filter, Expire, PluginReceive;
    if e.PacketArrives? {
      PacketFrame(w, e);
    } else if e.KeepAliveExpired? && e.id in w.devices {
      ExpireSilent(w, e.id);
    }
  }

  lemma {:induction false} ExpireSilent(w: World, id: Id)
    requires w.link != Up && id in w.devices
    ensures Expire(w, id).toPlugin == w.toPlugin
  {
  }
}
