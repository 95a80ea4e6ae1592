/**
 The exact conditions of `ReputationExact` hold of histories as well: the states that show them to be
 necessary are reached by features, thresholds and feedback without duplicates.
 */
module ReputationHistory {
  import opened Machine
  import opened Sequences
  import opened Reputation
  import opened ReputationExact

  /** The features of `fs`, one after the other. */
  function NewFeatures(fs: seq<Feature>): (es: seq<Event>)
    ensures |es| == |fs|
    ensures forall i :: 0 <= i < |es| ==> !es[i].Feedback?
  {
    seq(|fs|, i requires 0 <= i < |fs| => NewFeature(fs[i].typ, fs[i].weight))
  }

  /** The features of `fs` without successes. */
  function Zeroed(fs: seq<Feature>): (gs: seq<Feature>)
    ensures |gs| == |fs|
    ensures forall i :: 0 <= i < |fs| ==> gs[i] == fs[i].(succ := 0)
  {
    seq(|fs|, i requires 0 <= i < |fs| => fs[i].(succ := 0))
  }

  lemma {:induction false} FindAbsent(fs: seq<Feature>, typ: int)
    requires forall i :: 0 <= i < |fs| ==> fs[i].typ != typ
    ensures Find(fs, typ) == |fs|
  {
  }

  lemma {:induction false} FeaturesAdded(fs: seq<Feature>)
    requires Distinct(fs)
    ensures Run(NewFeatures(fs)) == NEW.(features := Zeroed(fs))
  {
    if fs == [] {
      assert NewFeatures(fs) == [] && Zeroed(fs) == [];
    } else {
      var init, f := fs[..|fs| - 1], fs[|fs| - 1];
      FeaturesAdded(init);
      assert NewFeatures(fs) == NewFeatures(init) + [NewFeature(f.typ, f.weight)];
      assert Zeroed(fs) == Zeroed(init) + [f.(succ := 0)];
      hide Run, NewFeatures, Zeroed;
      RunAppend(NewFeatures(init), NewFeature(f.typ, f.weight));
      FindAbsent(Zeroed(init), f.typ);
    }
  }

  /** A history that ends with the features and the threshold of `m` and no transaction. */
  function Untouched(m: Manager): seq<Event>
  {
    NewFeatures(m.features) + [NewThreshold(m.threshold)]
  }

  lemma {:induction false} UntouchedRun(m: Manager)
    requires Distinct(m.features)
    ensures Proper(Untouched(m)) && Run(Untouched(m)) == Level(m, 0).(reputation := 0.0)
  {
    hide Run;
    FeaturesAdded(m.features);
    RunAppend(NewFeatures(m.features), NewThreshold(m.threshold));
    assert Zeroed(m.features) == Level(m, 0).features;
  }

  lemma {:induction false} ProperAppend(es: seq<Event>, e: Event)
    requires Proper(es) && (e.Feedback? ==> NoDuplicates(e.entries) && Named(Run(es).features, e.entries))
    ensures Proper(es + [e])
  {
    hide Run, NoDuplicates, Named;
    var all := es + [e];
    forall i | 0 <= i < |all| && all[i].Feedback?
      ensures NoDuplicates(all[i].entries) && Named(Run(all[..i]).features, all[i].entries)
    {
      if i < |es| { assert all[..i] == es[..i] && all[i] == es[i]; } else { TakeAppend(es, e); }
    }
  }

  /** One transaction that credits every feature, with the threshold at 0 for as long as it takes. */
  function OneSuccessful(m: Manager): seq<Event>
  {
    Untouched(m.(threshold := 0.0)) + [Feedback(AllAt(m.features, 0.0))] + [NewThreshold(m.threshold)]
  }

  lemma {:induction false} ZeroEntry(fs: seq<Feature>, e: Entry)
    requires e.value == 0.0
    ensures Weighted(fs, e) == 0.0 && Credited(fs, 0.0, e)
  {
  }

  lemma {:induction false} ZeroScore(fs: seq<Feature>, fb: seq<Entry>)
    requires forall k :: 0 <= k < |fb| ==> fb[k].value == 0.0
    ensures Score(fs, fb) == 0.0
  {
    hide Weighted;
    if fb != [] {
      ZeroScore(fs, fb[..|fb| - 1]);
      ZeroEntry(fs, fb[|fb| - 1]);
    }
  }

  /** Feedback of zeros against a threshold of zero credits each feature it names. */
  lemma {:induction false} ZeroCredits(fs: seq<Feature>, fb: seq<Entry>, typ: int)
    requires NoDuplicates(fb) && forall k :: 0 <= k < |fb| ==> fb[k].value == 0.0
    ensures Credits(fs, 0.0, fb, typ) == if Names(fb, typ) then 1 else 0
  {
    hide Credited;
    if fb != [] {
      var init, e := fb[..|fb| - 1], fb[|fb| - 1];
      ZeroEntry(fs, e);
      ZeroCredits(fs, init, typ);
      if e.typ == typ {
        CreditsAbsent(fs, 0.0, init, typ);
        assert fb[|fb| - 1].typ == typ;
      } else if Names(init, typ) {
        var k :| 0 <= k < |init| && init[k].typ == typ;
        assert fb[k].typ == typ;
      }
    }
  }

  /** After one transaction with all counters at zero, all of them are at one. */
  lemma {:induction false} FirstSuccess(m: Manager)
    requires Distinct(m.features) && m.threshold == 0.0
    ensures Counted(Level(m, 0), AllAt(m.features, 0.0)) == Level(m, 1)
  {
    var fb, v, u := AllAt(m.features, 0.0), Level(m, 0), Level(m, 1);
    ZeroScore(v.features, fb);
    hide Score, Credits;
    var c := Credit(v.features, 0.0, fb);
    forall i | 0 <= i < |v.features| ensures c[i] == u.features[i] {
      assert v.features[i].typ == m.features[i].typ == fb[i].typ;
      ZeroCredits(v.features, fb, v.features[i].typ);
    }
    assert c == u.features;
  }

  lemma {:induction false} AllNamed(fs: seq<Feature>, gs: seq<Feature>, x: real)
    requires Distinct(fs) && SameFeatures(fs, gs)
    ensures NoDuplicates(AllAt(fs, x)) && Named(gs, AllAt(fs, x))
  {
    var fb := AllAt(fs, x);
    forall k | 0 <= k < |fb| ensures Find(gs, fb[k].typ) < |gs| { assert gs[k].typ == fb[k].typ; }
  }

  lemma {:induction false} OneSuccessfulRun(m: Manager)
    requires Distinct(m.features)
    ensures Proper(OneSuccessful(m)) && Run(OneSuccessful(m)) == Level(m, 1).(reputation := 1.0)
  {
    var z, fb := m.(threshold := 0.0), AllAt(m.features, 0.0);
    var es := Untouched(z);
    var v := Level(z, 0).(reputation := 0.0);
    UntouchedRun(z);
    LevelShape(z, 0);
    AllNamed(m.features, v.features, 0.0);
    FirstSuccess(z.(reputation := 0.0));
    LevelValue(z.(reputation := 0.0));
    OneRecomputed(z, v, fb);
    hide Run, Proper, NoDuplicates, Named, Level, Transaction, Value, Untouched, AllAt;
    ProperAppend(es, Feedback(fb));
    RunAppend(es, Feedback(fb));
    ProperAppend(es + [Feedback(fb)], NewThreshold(m.threshold));
    RunAppend(es + [Feedback(fb)], NewThreshold(m.threshold));
    LevelThreshold(m);
  }

  lemma {:induction false} OneRecomputed(z: Manager, v: Manager, fb: seq<Entry>)
    requires v == Level(z, 0).(reputation := 0.0) && Value(Level(z.(reputation := 0.0), 1)) == 1.0
    requires Counted(Level(z.(reputation := 0.0), 0), fb) == Level(z.(reputation := 0.0), 1)
    ensures Transaction(v, fb) == Level(z, 1).(reputation := 1.0)
  {
    hide Value, Counted;
    assert v == Level(z.(reputation := 0.0), 0);
  }

  lemma {:induction false} LevelThreshold(m: Manager)
    ensures Level(m.(threshold := 0.0), 1).(reputation := 1.0, threshold := m.threshold) ==
            Level(m, 1).(reputation := 1.0)
  {
  }

  // ---------------------------------------------------------------- the conditions over histories

  /** Histories that end with the features, weights and threshold of `m`. */
  ghost predicate Leads(es: seq<Event>, m: Manager)
  {
    Proper(es) && SameShape(m, Run(es))
  }

  lemma {:induction false} LevelsReached(m: Manager)
    requires Distinct(m.features)
    ensures Leads(Untouched(m), m) && Leads(OneSuccessful(m), m)
  {
    UntouchedRun(m);
    OneSuccessfulRun(m);
    LevelShape(m, 0);
    LevelShape(m, 1);
  }

  lemma {:induction false} LeadsBounded(es: seq<Event>, m: Manager)
    requires Leads(es, m)
    ensures Bounded(Run(es))
  {
    hide Run;
    HistoryBounded(es);
  }

  ghost predicate KeepsBoundAlways(m: Manager, fb: seq<Entry>)
  {
    forall es :: Leads(es, m) ==> Bounded(Counted(Run(es), fb))
  }

  /**
   A feedback keeps successes of a feature <= successes <= transactions after every history that leads to
   these features, weights and threshold if and only if it misses the threshold or credits no feature
   more than once.
   */
  lemma {:induction false} BoundExactAlways(m: Manager, fb: seq<Entry>)
    requires Distinct(m.features)
    ensures KeepsBoundAlways(m, fb) <==> !Satisfied(m, fb) || EachAtMostOnce(m, fb)
  {
    hide Run, Satisfied, Counted, Bounded, Level, Untouched, OneSuccessful;
    if !Satisfied(m, fb) || EachAtMostOnce(m, fb) {
      forall es | Leads(es, m) ensures Bounded(Counted(Run(es), fb)) {
        LeadsBounded(es, m);
        OnceKeepsBound(m, Run(es), fb);
      }
    } else {
      var i :| 0 <= i < |m.features| && Credits(m.features, m.threshold, fb, m.features[i].typ) > 1;
      LevelsReached(m);
      UntouchedRun(m);
      TwiceBreaks(m, fb, i, 0.0);
    }
  }

  lemma {:induction false} TwiceBreaks(m: Manager, fb: seq<Entry>, i: nat, r: real)
    requires Satisfied(m, fb) && i < |m.features| && Credits(m.features, m.threshold, fb, m.features[i].typ) > 1
    ensures !Bounded(Counted(Level(m, 0).(reputation := r), fb))
  {
    LevelCounted(m.(reputation := r), 0, fb, i);
    assert Level(m.(reputation := r), 0) == Level(m, 0).(reputation := r);
  }

  ghost predicate NeverLowersAlways(m: Manager, fb: seq<Entry>)
  {
    forall es :: Leads(es, m) ==> Value(Transaction(Run(es), fb)) >= Value(Run(es))
  }

  /** A successful feedback without duplicates lowers the reputation after no history iff it credits every feature. */
  lemma {:induction false} SuccessNeverLowersAlways(m: Manager, fb: seq<Entry>)
    requires Distinct(m.features) && Satisfied(m, fb) && NoDuplicates(fb)
    ensures NeverLowersAlways(m, fb) <==> EachOnce(m, fb)
  {
    hide Run, Satisfied, Transaction, Value, Bounded, Level, Untouched, OneSuccessful, NoDuplicates;
    if EachOnce(m, fb) {
      forall es | Leads(es, m) ensures Value(Transaction(Run(es), fb)) >= Value(Run(es)) {
        LeadsBounded(es, m);
        OnceRaises(m, Run(es), fb);
      }
    } else {
      var i :| 0 <= i < |m.features| && Credits(m.features, m.threshold, fb, m.features[i].typ) != 1;
      LevelsReached(m);
      OneSuccessfulRun(m);
      MissLowersRun(m, fb, i);
    }
  }

  lemma {:induction false} MissLowersRun(m: Manager, fb: seq<Entry>, i: nat)
    requires Satisfied(m, fb) && NoDuplicates(fb)
    requires i < |m.features| && Credits(m.features, m.threshold, fb, m.features[i].typ) != 1
    ensures var v := Level(m, 1).(reputation := 1.0);
            Value(v) == 1.0 && Value(Transaction(v, fb)) <= 0.5
  {
    hide Value, Transaction, Credits, Score;
    MissLowers(m.(reputation := 1.0), fb, i);
    assert Level(m.(reputation := 1.0), 1) == Level(m, 1).(reputation := 1.0);
  }

  ghost predicate FullNeverLowersAlways(m: Manager)
  {
    forall es, fb :: Leads(es, m) && FullySatisfied(Run(es), fb) ==> Value(Transaction(Run(es), fb)) >= Value(Run(es))
  }

  /** For non-negative weights, fully satisfied feedback lowers the reputation after no history iff `Reachable`. */
  lemma {:induction false} FullNeverLowersExactAlways(m: Manager)
    requires Distinct(m.features) && NonNegative(m.features)
    ensures FullNeverLowersAlways(m) <==> Reachable(m)
  {
    hide Run, Transaction, Value, Bounded, Level, Untouched, OneSuccessful, FullySatisfied, Reachable;
    if Reachable(m) {
      FullNeverLowersExact(m);
      forall es, fb | Leads(es, m) && FullySatisfied(Run(es), fb)
        ensures Value(Transaction(Run(es), fb)) >= Value(Run(es))
      {
        LeadsBounded(es, m);
      }
    } else {
      LevelsReached(m);
      OneSuccessfulRun(m);
      UnreachableLowersRun(m);
    }
  }

  lemma {:induction false} UnreachableLowersRun(m: Manager)
    requires Distinct(m.features) && !Reachable(m)
    ensures var v, fb := Level(m, 1).(reputation := 1.0), AllAt(m.features, m.threshold);
            FullySatisfied(v, fb) && Value(v) == 1.0 && Value(Transaction(v, fb)) == 0.5
  {
    hide Value, Transaction, FullySatisfied, WeightSum;
    UnreachableLowers(m.(reputation := 1.0));
    assert Level(m.(reputation := 1.0), 1) == Level(m, 1).(reputation := 1.0);
  }

  // ---------------------------------------------------------------- what a history amounts to

  function Transactions(es: seq<Event>): nat
  {
    if es == [] then 0 else Transactions(es[..|es| - 1]) + if es[|es| - 1].Feedback? then 1 else 0
  }

  /** The transactions whose weighted score reached the threshold of their time. */
  function Successes(es: seq<Event>): nat
  {
    if es == [] then 0
    else
      var e, m := es[|es| - 1], Run(es[..|es| - 1]);
      Successes(es[..|es| - 1]) + if e.Feedback? && Score(m.features, e.entries) >= m.threshold then 1 else 0
  }

  /** The successes among them that credit the feature of a type. */
  function SuccessesOf(es: seq<Event>, typ: int): nat
  {
    if es == [] then 0
    else
      var e, m := es[|es| - 1], Run(es[..|es| - 1]);
      SuccessesOf(es[..|es| - 1], typ) +
      if e.Feedback? && Score(m.features, e.entries) >= m.threshold then
        Credits(m.features, m.threshold, e.entries, typ)
      else 0
  }

  /** The weight a type was given last. */
  function LastWeight(es: seq<Event>, typ: int): Option<real>
  {
    if es == [] then None
    else
      match es[|es| - 1]
      case NewFeature(t, weight) => if t == typ then Some(weight) else LastWeight(es[..|es| - 1], typ)
      case _ => LastWeight(es[..|es| - 1], typ)
  }

  function LastThreshold(es: seq<Event>): real
  {
    if es == [] then 0.8
    else
      match es[|es| - 1]
      case NewThreshold(t) => t
      case _ => LastThreshold(es[..|es| - 1])
  }

  /** The features are those of the types given a weight, with the last weight and the successes counted. */
  ghost predicate Describes(fs: seq<Feature>, es: seq<Event>, typ: int)
  {
    var i := Find(fs, typ);
    && (i < |fs| <==> LastWeight(es, typ).Some?)
    && (i < |fs| ==> fs[i].weight == LastWeight(es, typ).value && fs[i].succ == SuccessesOf(es, typ))
    && (i == |fs| ==> SuccessesOf(es, typ) == 0)
  }

  lemma {:induction false} FindAppend(fs: seq<Feature>, f: Feature, typ: int)
    ensures Find(fs + [f], typ) == if Find(fs, typ) < |fs| then Find(fs, typ)
                                   else if f.typ == typ then |fs| else |fs| + 1
  {
    var i, j := Find(fs, typ), Find(fs + [f], typ);
    if i < |fs| {
      assert (fs + [f])[i].typ == typ;
      assert j <= |fs| ==> (fs + [f])[j].typ == typ;
    } else {
      assert forall k :: 0 <= k < |fs| ==> (fs + [f])[k].typ == fs[k].typ != typ;
      assert (fs + [f])[|fs|] == f;
    }
  }

  lemma {:induction false} FindUpdate(fs: seq<Feature>, i: nat, w: real, typ: int)
    requires i < |fs|
    ensures Find(fs[i := fs[i].(weight := w)], typ) == Find(fs, typ)
  {
    var gs := fs[i := fs[i].(weight := w)];
    assert forall k :: 0 <= k < |fs| ==> gs[k].typ == fs[k].typ;
  }

  lemma {:induction false} AddDescribes(fs: seq<Feature>, t: int, w: real, typ: int)
    ensures var gs, i := AddFeature(fs, t, w), Find(fs, typ);
            var j := Find(gs, typ);
            && (j < |gs| <==> i < |fs| || t == typ)
            && (i < |fs| ==> j == i && gs[j].succ == fs[i].succ && gs[j].weight == if t == typ then w else fs[i].weight)
            && (i == |fs| && t == typ ==> gs[j] == Feature(typ, w, 0))
  {
    var k := Find(fs, t);
    if k < |fs| { FindUpdate(fs, k, w, typ); } else { FindAppend(fs, Feature(t, w, 0), typ); }
  }

  lemma {:induction false} CreditDescribes(m: Manager, fb: seq<Entry>, typ: int)
    requires NoDuplicates(fb) && Named(m.features, fb)
    ensures var gs, i := Credit(m.features, m.threshold, fb), Find(m.features, typ);
            && Find(gs, typ) == i
            && (i < |m.features| ==> gs[i].weight == m.features[i].weight &&
                                     gs[i].succ == m.features[i].succ + Credits(m.features, m.threshold, fb, typ))
            && (i == |m.features| ==> Credits(m.features, m.threshold, fb, typ) == 0)
  {
    var gs, i := Credit(m.features, m.threshold, fb), Find(m.features, typ);
    assert SameFeatures(m.features, gs);
    ShapeFind(m.features, gs, typ);
    if i == |m.features| {
      forall k | 0 <= k < |fb| ensures fb[k].typ != typ { assert Find(m.features, fb[k].typ) < |m.features|; }
      CreditsAbsent(m.features, m.threshold, fb, typ);
    }
  }

  /**
   The state after a history in terms of the history alone: the transactions and the successful ones are counted,
   each feature has the weight given last and the successes credited to its type, whenever it was reweighted, and
   the threshold is the last one set.
   */
  lemma {:induction false} HistoryDetermines(es: seq<Event>, typ: int)
    requires Proper(es)
    ensures var m := Run(es);
            && m.total == Transactions(es) && m.totalSucc == Successes(es) && m.threshold == LastThreshold(es)
            && Describes(m.features, es, typ)
  {
    hide Score, Credits, Value, AddFeature, Credit, Find;
    if es == [] {
      NothingFound(typ);
    } else {
      var e, m := es[|es| - 1], Run(es[..|es| - 1]);
      ProperPrefix(es);
      HistoryDetermines(es[..|es| - 1], typ);
      match e
      case NewFeature(t, w) => AddDescribes(m.features, t, w, typ);
      case NewThreshold(t) =>
      case Feedback(fb) => CreditDescribes(m, fb, typ);
    }
  }

  lemma {:induction false} NothingFound(typ: int)
    ensures Find([], typ) == 0
  {
  }

  /** The reputation stored after a feedback is the one the counters stand for; before the first it is 0. */
  lemma {:induction false} ReputationStored(es: seq<Event>, fb: seq<Entry>)
    ensures Run(es + [Feedback(fb)]).reputation == Value(Run(es + [Feedback(fb)]))
    ensures Transactions(es) == 0 ==> Run(es).reputation == 0.0
  {
    RunAppend(es, Feedback(fb));
    ValueStored(Counted(Run(es), fb));
    Untold(es);
  }

  lemma {:induction false} Untold(es: seq<Event>)
    ensures Transactions(es) == 0 ==> Run(es).reputation == 0.0
  {
    hide AddFeature, Transaction;
    if es != [] { Untold(es[..|es| - 1]); }
  }

  // ---------------------------------------------------------------- the formula

  function Pow(x: real, n: nat): real
  {
    if n == 0 then 1.0 else Pow(x, n - 1) * x
  }

  /** The product of the successes of all features. */
  function SuccProduct(fs: seq<Feature>): real
  {
    if fs == [] then 1.0 else SuccProduct(fs[..|fs| - 1]) * fs[|fs| - 1].succ as real
  }

  /** Products under a name, so that proofs need not look inside them. */
  function Times(a: real, b: real): real
  {
    a * b
  }

  lemma Fraction(a: real, b: real)
    requires b != 0.0
    ensures Times(a / b, b) == a
  {
  }

  lemma Regroup(a: real, b: real, c: real, d: real)
    ensures Times(Times(a, b), Times(c, d)) == Times(Times(a, c), Times(b, d))
  {
    assert (a * b) * (c * d) == a * (b * (c * d)) == a * (c * (b * d)) == (a * c) * (b * d);
  }

  lemma {:induction false} ProbTimes(totalSucc: nat, f: Feature)
    requires totalSucc > 0
    ensures Times(FeatureProb(totalSucc, f), totalSucc as real) == f.succ as real
  {
    if f.succ != 0 { Fraction(f.succ as real, totalSucc as real); }
  }

  lemma {:induction false} LastFactors(totalSucc: nat, fs: seq<Feature>)
    requires fs != []
    ensures var init, f, t := fs[..|fs| - 1], fs[|fs| - 1], totalSucc as real;
            && Product(totalSucc, fs) == Times(Product(totalSucc, init), FeatureProb(totalSucc, f))
            && Pow(t, |fs|) == Times(Pow(t, |init|), t)
            && SuccProduct(fs) == Times(SuccProduct(init), f.succ as real)
  {
    hide FeatureProb;
  }

  lemma {:induction false} ProductFormula(totalSucc: nat, fs: seq<Feature>)
    requires totalSucc > 0
    ensures Times(Product(totalSucc, fs), Pow(totalSucc as real, |fs|)) == SuccProduct(fs)
  {
    if fs == [] {
      assert Times(1.0, 1.0) == 1.0;
    } else {
      hide Times, Product, Pow, SuccProduct, FeatureProb;
      var init, f, t := fs[..|fs| - 1], fs[|fs| - 1], totalSucc as real;
      ProductFormula(totalSucc, init);
      LastFactors(totalSucc, fs);
      ProbTimes(totalSucc, f);
      Regroup(Product(totalSucc, init), FeatureProb(totalSucc, f), Pow(t, |init|), t);
    }
  }

  /**
   The reputation is the naive Bayes product: with S successes of T transactions, and s successes of each of the n
   features, it is (S / T) times the product of all s / S; here without divisions.
   */
  lemma {:induction false} ReputationFormula(m: Manager)
    requires m.total > 0 && m.totalSucc > 0
    ensures var s, t := m.totalSucc as real, m.total as real;
            Times(Value(m), Times(t, Pow(s, |m.features|))) == Times(s, SuccProduct(m.features))
  {
    var s, t := m.totalSucc as real, m.total as real;
    var ratio, p := s / t, Product(m.totalSucc, m.features);
    ValueFactors(m, ratio);
    Fraction(s, t);
    assert Times(ratio, t) == s;
    hide Times, Product, Pow, SuccProduct, Value;
    ProductFormula(m.totalSucc, m.features);
    Regroup(ratio, p, t, Pow(s, |m.features|));
  }

  lemma {:induction false} ValueFactors(m: Manager, ratio: real)
    requires m.total > 0 && ratio == m.totalSucc as real / m.total as real
    ensures Value(m) == Times(ratio, Product(m.totalSucc, m.features))
  {
    hide Product;
  }
}
