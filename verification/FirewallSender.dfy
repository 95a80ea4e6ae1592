/**
 What the gateway can tell about the rules of the plug-in from the messages it has sent.
 */
module FirewallSender {
  import opened Machine
  import opened Sequences
  import opened PacketPolicer
  import opened FirewallModel
  import opened FirewallAgreement
  import opened FirewallTheorems
  import opened FirewallWindow

  /** What a step sends to the plug-in. */
  function Sends(w: World, e: Event): seq<ToPlugin>
  {
    var v := Step(w, e);
    if w.toPlugin <= v.toPlugin then v.toPlugin[|w.toPlugin|..] else []
  }

  predicate Unconnected(w: World)
  {
    w.link == Down || w.link == Pending
  }

  /** The messages sent over the present connection. */
  function Sent(w: World, es: seq<Event>): seq<ToPlugin>
  {
    if es == [] || Unconnected(Run(w, es)) then []
    else Sent(w, es[..|es| - 1]) + Sends(Run(w, es[..|es| - 1]), es[|es| - 1])
  }

  /** The messages `ms`, applied to no rules at all, give what the plug-in will have. */
  ghost predicate Tells(ms: seq<ToPlugin>, w: World)
  {
    if Unconnected(w) then ms == [] else ApplyAll(w.toPlugin, View(w.rules)) == ApplyAll(ms, map[])
  }

  lemma {:induction false} SentMore(ms: seq<ToPlugin>, w: World, v: World)
    requires ApplyAll(w.toPlugin, View(w.rules)) == ApplyAll(ms, map[])
    requires View(v.rules) == View(w.rules) && w.toPlugin <= v.toPlugin
    ensures ApplyAll(v.toPlugin, View(v.rules)) == ApplyAll(ms + v.toPlugin[|w.toPlugin|..], map[])
  {
    hide ApplyAll, View;
    var more := v.toPlugin[|w.toPlugin|..];
    Rejoin(v.toPlugin, |w.toPlugin|);
    assert v.toPlugin[..|w.toPlugin|] == w.toPlugin;
    ApplyConcat(w.toPlugin, more, View(w.rules));
    ApplyConcat(ms, more, map[]);
  }

  /** An event that neither delivers nor clears only appends to the stream. */
  lemma {:induction false} Appends(w: World, e: Event)
    requires !Delivers(w, e) && !Clears(w, e)
    ensures w.toPlugin <= Step(w, e).toPlugin
    ensures !Unconnected(w) ==> !Unconnected(Step(w, e))
  {
    hide Enumerates, Finds, Installs, Filter, StartWindows, RestartPlugin, DropConnection, PluginReceive, AddStats,
         SetPolicyInfo, Plus, InFlight, Expire;
    if e.PacketArrives? {
      PacketFrame(w, e);
    } else if e.KeepAliveExpired? && e.id in w.devices {
      ExpireAppends(w, e.id);
    }
  }

  lemma {:induction false} ExpireAppends(w: World, id: Id)
    requires id in w.devices
    ensures w.toPlugin <= Expire(w, id).toPlugin
  {
  }

  lemma {:induction false} SameView(w: World, e: Event)
    requires !Delivers(w, e) && !Clears(w, e)
    ensures View(Step(w, e).rules) == View(w.rules)
  {
    if e.WindowStarts? {
      assert View(StartWindows(w.rules)) == View(w.rules);
    } else if e.PacketArrives? {
      PacketView(w, e);
    } else {
      OtherEvents(w, e);
    }
  }

  lemma {:induction false} PacketView(w: World, e: Event)
    requires e.PacketArrives?
    ensures View(Step(w, e).rules) == View(w.rules)
  {
    var v := Step(w, e);
    hide Step, FilterPacket;
    forall id ensures id in View(v.rules) <==> id in View(w.rules) {
      PacketRule(w, e, id);
    }
    forall id | id in View(w.rules) ensures View(v.rules)[id] == View(w.rules)[id] {
      PacketRule(w, e, id);
      FilterRule(w.rules[id], e.pkt);
    }
  }

  lemma {:induction false} DeliverTells(ms: seq<ToPlugin>, w: World, e: Event)
    requires Delivers(w, e) && Tells(ms, w)
    ensures !Unconnected(Step(w, e)) && Tells(ms + Sends(w, e), Step(w, e))
  {
    hide Step, View, Apply, ApplyAll;
    StepDelivers(w, e);
    PluginApplies(w);
    ApplyFirst(w.toPlugin, View(w.rules));
    assert Sends(w, e) == [];
    Empty(ms);
  }

  lemma {:induction false} NoRules()
    ensures ApplyAll([], View(map[])) == ApplyAll([], map[])
  {
    assert View(map[]) == map[];
  }

  lemma {:induction false} AppendTells(ms: seq<ToPlugin>, w: World, e: Event)
    requires Inv(w) && Tells(ms, w) && !Delivers(w, e) && !Clears(w, e) && !Unconnected(Step(w, e))
    ensures Tells(ms + Sends(w, e), Step(w, e))
  {
    assert Unconnected(w) ==> w.rules == map[] && w.toPlugin == [];
    hide Step, Inv, View, ApplyAll;
    NoRules();
    Appends(w, e);
    SameView(w, e);
    SentMore(ms, w, Step(w, e));
  }

  lemma {:induction false} StepTells(ms: seq<ToPlugin>, w: World, e: Event)
    requires Inv(w) && Tells(ms, w)
    ensures Tells(if Unconnected(Step(w, e)) then [] else ms + Sends(w, e), Step(w, e))
  {
    hide Inv, View, ApplyAll, Sends;
    if Delivers(w, e) {
      DeliverTells(ms, w, e);
    } else if Clears(w, e) {
      assert Step(w, e).link == Down;
    } else if !Unconnected(Step(w, e)) {
      AppendTells(ms, w, e);
    }
  }

  lemma {:induction false} SentTells(watch: Id, es: seq<Event>)
    ensures Tells(Sent(Init(watch), es), Run(Init(watch), es))
  {
    hide Step, Inv, ApplyAll, View, Sends;
    if es != [] {
      var init := es[..|es| - 1];
      SentTells(watch, init);
      RunInv(watch, init);
      StepTells(Sent(Init(watch), init), Run(Init(watch), init), es[|es| - 1]);
    }
  }

  /**
   The gateway need not see the plug-in's rules to know whether a request will find its rule: in every
   run, that is decided by the messages it has sent over the present connection.
   */
  lemma {:induction false} KnownToSender(watch: Id, es: seq<Event>, id: Id)
    requires Run(Init(watch), es).link == Up
    ensures Finds(Run(Init(watch), es), id) <==> id in ApplyAll(Sent(Init(watch), es), map[])
  {
    hide Run, Sent, ApplyAll, View;
    SentTells(watch, es);
  }
}
