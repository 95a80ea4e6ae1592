/**
 How far the guarantees of the reputation go: for each, the exact condition on the features and the
 feedback, and a history outside it.

 The counters are left open: "every state" means every bounded state with the same features, weights
 and threshold.
 */
module ReputationExact {
  import opened Reputation

  ghost predicate SameShape(m: Manager, v: Manager)
  {
    SameFeatures(m.features, v.features) && v.threshold == m.threshold
  }

  lemma {:induction false} ShapeEntry(m: Manager, v: Manager, e: Entry)
    requires SameShape(m, v)
    ensures Weighted(v.features, e) == Weighted(m.features, e)
    ensures Bar(v.features, v.threshold, e) == Bar(m.features, m.threshold, e)
  {
    ShapeFind(m.features, v.features, e.typ);
  }

  lemma {:induction false} ShapeScores(m: Manager, v: Manager, fb: seq<Entry>, typ: int)
    requires SameShape(m, v)
    ensures Score(v.features, fb) == Score(m.features, fb)
    ensures Credits(v.features, v.threshold, fb, typ) == Credits(m.features, m.threshold, fb, typ)
  {
    hide Weighted, Bar;
    if fb != [] {
      ShapeScores(m, v, fb[..|fb| - 1], typ);
      ShapeEntry(m, v, fb[|fb| - 1]);
    }
  }

  /** All counters at `n`. */
  function Level(m: Manager, n: nat): (v: Manager)
    ensures |v.features| == |m.features| && v.totalSucc == n && v.total == n
    ensures forall i :: 0 <= i < |m.features| ==> v.features[i].succ == n
  {
    m.(totalSucc := n, total := n,
       features := seq(|m.features|, i requires 0 <= i < |m.features| => m.features[i].(succ := n)))
  }

  lemma {:induction false} LevelShape(m: Manager, n: nat)
    ensures SameShape(m, Level(m, n)) && Bounded(Level(m, n))
  {
  }

  lemma {:induction false} LevelCounted(m: Manager, n: nat, fb: seq<Entry>, i: nat)
    requires Satisfied(m, fb) && i < |m.features|
    ensures var v := Counted(Level(m, n), fb);
            && v.total == n + 1 && v.totalSucc == n + 1 && |v.features| == |m.features|
            && v.features[i].succ == n + Credits(m.features, m.threshold, fb, m.features[i].typ)
  {
    LevelShape(m, n);
    ShapeScores(m, Level(m, n), fb, m.features[i].typ);
  }

  // ---------------------------------------------------------------- the bound

  ghost predicate EachAtMostOnce(m: Manager, fb: seq<Entry>)
  {
    forall i :: 0 <= i < |m.features| ==> Credits(m.features, m.threshold, fb, m.features[i].typ) <= 1
  }

  ghost predicate KeepsBound(m: Manager, fb: seq<Entry>)
  {
    forall v :: SameShape(m, v) && Bounded(v) ==> Bounded(Counted(v, fb))
  }

  /**
   A feedback keeps successes of a feature <= successes <= transactions in every state if and only if it
   misses the threshold or credits no feature more than once.
   */
  lemma {:induction false} BoundExact(m: Manager, fb: seq<Entry>)
    ensures KeepsBound(m, fb) <==> !Satisfied(m, fb) || EachAtMostOnce(m, fb)
  {
    if !Satisfied(m, fb) || EachAtMostOnce(m, fb) {
      forall v | SameShape(m, v) && Bounded(v) ensures Bounded(Counted(v, fb)) { OnceKeepsBound(m, v, fb); }
    } else {
      var i :| 0 <= i < |m.features| && Credits(m.features, m.threshold, fb, m.features[i].typ) > 1;
      LevelShape(m, 0);
      LevelCounted(m, 0, fb, i);
      assert !Bounded(Counted(Level(m, 0), fb));
    }
  }

  lemma {:induction false} OnceKeepsBound(m: Manager, v: Manager, fb: seq<Entry>)
    requires SameShape(m, v) && Bounded(v) && (!Satisfied(m, fb) || EachAtMostOnce(m, fb))
    ensures Bounded(Counted(v, fb))
  {
    ShapeScores(m, v, fb, 0);
    var w := Counted(v, fb);
    forall i | 0 <= i < |w.features| ensures w.features[i].succ <= w.totalSucc {
      ShapeScores(m, v, fb, m.features[i].typ);
    }
  }

  // ---------------------------------------------------------------- success never lowers

  ghost predicate EachOnce(m: Manager, fb: seq<Entry>)
  {
    forall i :: 0 <= i < |m.features| ==> Credits(m.features, m.threshold, fb, m.features[i].typ) == 1
  }

  ghost predicate NeverLowers(m: Manager, fb: seq<Entry>)
  {
    forall v :: SameShape(m, v) && Bounded(v) ==> Value(Transaction(v, fb)) >= Value(v)
  }

  /**
   A successful feedback without duplicates lowers the reputation in no state if and only if it credits
   every feature.
   */
  lemma {:induction false} SuccessNeverLowersExact(m: Manager, fb: seq<Entry>)
    requires Satisfied(m, fb) && NoDuplicates(fb)
    ensures NeverLowers(m, fb) <==> EachOnce(m, fb)
  {
    if EachOnce(m, fb) {
      forall v | SameShape(m, v) && Bounded(v) ensures Value(Transaction(v, fb)) >= Value(v) { OnceRaises(m, v, fb); }
    } else {
      var i :| 0 <= i < |m.features| && Credits(m.features, m.threshold, fb, m.features[i].typ) != 1;
      LevelShape(m, 1);
      MissLowers(m, fb, i);
    }
  }

  lemma {:induction false} OnceRaises(m: Manager, v: Manager, fb: seq<Entry>)
    requires SameShape(m, v) && Bounded(v) && Satisfied(m, fb) && EachOnce(m, fb)
    ensures Value(Transaction(v, fb)) >= Value(v)
  {
    ShapeScores(m, v, fb, 0);
    var w := Counted(v, fb);
    forall i | 0 <= i < |v.features| ensures w.features[i].succ == v.features[i].succ + 1 {
      ShapeScores(m, v, fb, m.features[i].typ);
    }
    hide Value, Counted;
    ValueGrows(v, w);
    ValueStored(w);
  }

  /** With all counters at 1 the reputation is 1; a success that misses a feature leaves at most a half. */
  lemma {:induction false} MissLowers(m: Manager, fb: seq<Entry>, i: nat)
    requires Satisfied(m, fb) && NoDuplicates(fb)
    requires i < |m.features| && Credits(m.features, m.threshold, fb, m.features[i].typ) != 1
    ensures Value(Level(m, 1)) == 1.0 && Value(Transaction(Level(m, 1), fb)) <= 0.5
  {
    LevelValue(m);
    var v := Counted(Level(m, 1), fb);
    forall j | 0 <= j < |m.features| ensures v.features[j].succ <= 2 {
      LevelCounted(m, 1, fb, j);
      CreditsAtMostOne(m.features, m.threshold, fb, m.features[j].typ);
    }
    LevelCounted(m, 1, fb, i);
    CreditsAtMostOne(m.features, m.threshold, fb, m.features[i].typ);
    ProductHalf(v.features, i);
    ValueStored(v);
    ValueAtTwo(v);
  }

  lemma {:induction false} ValueAtTwo(v: Manager)
    requires v.total == 2 && v.totalSucc == 2
    ensures Value(v) == Product(2, v.features)
  {
    assert 2 as real / 2 as real == 1.0;
    TimesOne(Product(2, v.features));
  }

  lemma TimesOne(x: real)
    ensures 1.0 * x == x == x * 1.0
  {
  }

  lemma {:induction false} LevelValue(m: Manager)
    ensures Value(Level(m, 1)) == 1.0
  {
    ProductOnes(Level(m, 1).features);
    assert 1 as real / 1 as real == 1.0;
    TimesOne(Product(1, Level(m, 1).features));
  }

  lemma {:induction false} ProductOnes(fs: seq<Feature>)
    requires forall i :: 0 <= i < |fs| ==> fs[i].succ == 1
    ensures Product(1, fs) == 1.0
  {
    if fs != [] {
      ProductOnes(fs[..|fs| - 1]);
      assert FeatureProb(1, fs[|fs| - 1]) == 1.0;
      TimesOne(1.0);
    }
  }

  lemma {:induction false} ProductHalf(fs: seq<Feature>, i: nat)
    requires i < |fs| && fs[i].succ <= 1 && forall j :: 0 <= j < |fs| ==> fs[j].succ <= 2
    ensures Product(2, fs) <= 0.5
  {
    var init, last := fs[..|fs| - 1], fs[|fs| - 1];
    ProductBound(2, init);
    RatioBound(last.succ, 2);
    if i < |fs| - 1 {
      ProductHalf(init, i);
      TimesAtMost(FeatureProb(2, last), Product(2, init));
      Commute(FeatureProb(2, last), Product(2, init));
    } else {
      assert FeatureProb(2, last) <= 0.5;
      TimesAtMost(Product(2, init), FeatureProb(2, last));
    }
  }

  lemma Commute(x: real, y: real)
    ensures x * y == y * x
  {
  }

  // ---------------------------------------------------------------- full satisfaction

  ghost predicate FullNeverLowersAny(m: Manager)
  {
    forall v, fb :: SameShape(m, v) && Bounded(v) && FullySatisfied(v, fb) ==> Value(Transaction(v, fb)) >= Value(v)
  }

  /**
   For non-negative weights, fully satisfied feedback lowers the reputation in no state if and only if
   the threshold times the sum of the weights is at least the threshold.
   */
  lemma {:induction false} FullNeverLowersExact(m: Manager)
    requires Distinct(m.features) && NonNegative(m.features)
    ensures FullNeverLowersAny(m) <==> Reachable(m)
  {
    if Reachable(m) {
      forall v, fb | SameShape(m, v) && Bounded(v) && FullySatisfied(v, fb)
        ensures Value(Transaction(v, fb)) >= Value(v)
      {
        ShapeSum(m.features, v.features);
        FullNeverLowers(v, fb);
      }
    } else {
      LevelShape(m, 1);
      UnreachableLowers(m);
      assert FullySatisfied(Level(m, 1), AllAt(m.features, m.threshold));
    }
  }

  lemma {:induction false} ShapeSum(fs: seq<Feature>, gs: seq<Feature>)
    requires SameFeatures(fs, gs)
    ensures WeightSum(gs) == WeightSum(fs)
  {
    if fs != [] { ShapeSum(fs[..|fs| - 1], gs[..|gs| - 1]); }
  }

  /** Every feature once, each with the value `x`. */
  function AllAt(fs: seq<Feature>, x: real): (fb: seq<Entry>)
    ensures |fb| == |fs|
  {
    seq(|fs|, i requires 0 <= i < |fs| => Entry(fs[i].typ, x))
  }

  lemma {:induction false} AllAtFull(m: Manager)
    requires Distinct(m.features)
    ensures FullySatisfied(m, AllAt(m.features, m.threshold))
    ensures Score(m.features, AllAt(m.features, m.threshold)) == m.threshold * WeightSum(m.features)
  {
    hide Score, WeightSum;
    var fs, fb := m.features, AllAt(m.features, m.threshold);
    forall i | 0 <= i < |fs| ensures Names(fb, fs[i].typ) { assert fb[i].typ == fs[i].typ; }
    AllAtScore(fs, m.threshold);
  }

  lemma {:induction false} AllAtScore(fs: seq<Feature>, x: real)
    requires Distinct(fs)
    ensures Score(fs, AllAt(fs, x)) == x * WeightSum(fs)
  {
    hide Score, ScoreAt, NamedWeight, CoveredWeight, WeightSum;
    var fb := AllAt(fs, x);
    forall i | 0 <= i < |fs| ensures Names(fb, fs[i].typ) { assert fb[i].typ == fs[i].typ; }
    NamedIsCovered(fs, fb);
    CoveredAll(fs, fb);
    ConstantScore(fs, fb, x);
    ScoreAtFactors(fs, x, fb);
    SameFactor(x, NamedWeight(fs, fb), WeightSum(fs));
  }

  lemma {:induction false} ConstantScore(fs: seq<Feature>, fb: seq<Entry>, x: real)
    requires forall k :: 0 <= k < |fb| ==> fb[k].value == x
    ensures Score(fs, fb) == ScoreAt(fs, x, fb)
  {
    if fb != [] { ConstantScore(fs, fb[..|fb| - 1], x); }
  }

  lemma MissesThreshold(score: real, threshold: real, a: real, b: real)
    requires score == threshold * a && a == b && !(threshold * b >= threshold)
    ensures score < threshold
  {
    SameFactor(threshold, a, b);
  }

  lemma {:induction false} AtThresholdMisses(m: Manager, v: Manager)
    requires Distinct(m.features) && !Reachable(m) && SameShape(m, v)
    ensures var fb := AllAt(m.features, m.threshold);
            FullySatisfied(v, fb) && !Satisfied(v, fb)
  {
    hide Score, WeightSum, FullySatisfied;
    var fb := AllAt(m.features, m.threshold);
    assert AllAt(v.features, v.threshold) == fb;
    ShapeSum(m.features, v.features);
    AllAtFull(v);
    MissesThreshold(Score(v.features, fb), m.threshold, WeightSum(v.features), WeightSum(m.features));
  }

  lemma {:induction false} UnreachableLowers(m: Manager)
    requires Distinct(m.features) && !Reachable(m)
    ensures var v, fb := Level(m, 1), AllAt(m.features, m.threshold);
            FullySatisfied(v, fb) && Value(v) == 1.0 && Value(Transaction(v, fb)) == 0.5
  {
    hide Value, Transaction, FullySatisfied, Satisfied, Reachable;
    LevelShape(m, 1);
    AtThresholdMisses(m, Level(m, 1));
    LevelValue(m);
    HalfTheTransactions(Level(m, 1), AllAt(m.features, m.threshold));
  }

  lemma {:induction false} HalfTheTransactions(v: Manager, fb: seq<Entry>)
    requires !Satisfied(v, fb) && v.total == 1 && v.totalSucc == 1 && Value(v) == 1.0
    ensures Value(Transaction(v, fb)) == 0.5
  {
    assert 1 as real / 1 as real == 1.0;
    TimesOne(Product(1, v.features));
    assert Product(1, v.features) == 1.0;
    assert 1 as real / 2 as real == 0.5;
    TimesOne(0.5);
  }

  // ---------------------------------------------------------------- every success credits a feature

  ghost predicate SuccessAlwaysCredits(m: Manager)
  {
    forall fb :: NoDuplicates(fb) && Named(m.features, fb) && Satisfied(m, fb) ==> SomeCredited(m, fb)
  }

  predicate SomeCredited(m: Manager, fb: seq<Entry>)
  {
    exists k :: 0 <= k < |fb| && Credited(m.features, m.threshold, fb[k])
  }

  /**
   For non-negative weights, every successful feedback without duplicates credits a feature if and only
   if the weights sum to at most 1 and the threshold is positive.
   */
  lemma {:induction false} SuccessCreditsExact(m: Manager)
    requires Distinct(m.features) && NonNegative(m.features)
    ensures SuccessAlwaysCredits(m) <==> WeightSum(m.features) <= 1.0 && m.threshold > 0.0
  {
    if WeightSum(m.features) <= 1.0 && m.threshold > 0.0 {
      forall fb | NoDuplicates(fb) && Named(m.features, fb) && Satisfied(m, fb) ensures SomeCredited(m, fb) {
        var k := SuccessCredits(m, fb);
      }
    } else if m.threshold <= 0.0 {
      assert Satisfied(m, []) && !SomeCredited(m, []);
    } else {
      UncreditedSuccess(m);
    }
  }

  /** Every feature of positive weight once, each with the value `x`. */
  function WeightyAt(fs: seq<Feature>, x: real): seq<Entry>
  {
    if fs == [] then []
    else
      var f := fs[|fs| - 1];
      WeightyAt(fs[..|fs| - 1], x) + if f.weight > 0.0 then [Entry(f.typ, x)] else []
  }

  lemma {:induction false} WeightyValues(fs: seq<Feature>, x: real)
    ensures forall k :: 0 <= k < |WeightyAt(fs, x)| ==> WeightyAt(fs, x)[k].value == x
  {
    if fs != [] { WeightyValues(fs[..|fs| - 1], x); }
  }

  ghost predicate Weighty(fs: seq<Feature>, typ: int)
  {
    exists i :: 0 <= i < |fs| && fs[i].typ == typ && fs[i].weight > 0.0
  }

  lemma {:induction false} WeightyIn(fs: seq<Feature>, x: real, k: nat)
    requires k < |WeightyAt(fs, x)|
    ensures Weighty(fs, WeightyAt(fs, x)[k].typ)
  {
    var init, typ := fs[..|fs| - 1], WeightyAt(fs, x)[k].typ;
    if k < |WeightyAt(init, x)| {
      WeightyIn(init, x, k);
      var i :| 0 <= i < |init| && init[i].typ == typ && init[i].weight > 0.0;
      assert fs[i] == init[i];
    } else {
      assert fs[|fs| - 1].typ == typ;
    }
  }

  lemma {:induction false} WeightyNoDuplicates(fs: seq<Feature>, x: real)
    requires Distinct(fs)
    ensures NoDuplicates(WeightyAt(fs, x))
  {
    if fs != [] {
      var init := fs[..|fs| - 1];
      WeightyNoDuplicates(init, x);
      var fb := WeightyAt(init, x);
      forall k | 0 <= k < |fb| ensures fb[k].typ != fs[|fs| - 1].typ {
        WeightyIn(init, x, k);
        var i :| 0 <= i < |init| && init[i].typ == fb[k].typ && init[i].weight > 0.0;
        assert fs[i] == init[i];
      }
    }
  }

  lemma {:induction false} WeightyCovers(fs: seq<Feature>, all: seq<Feature>, x: real)
    requires NonNegative(fs) && fs <= all
    ensures CoveredWeight(fs, WeightyAt(all, x)) == WeightSum(fs)
  {
    if fs != [] {
      var n := |fs| - 1;
      WeightyCovers(fs[..n], all, x);
      if fs[n].weight > 0.0 { WeightyNames(all, x, n); }
    }
  }

  lemma {:induction false} WeightyNames(fs: seq<Feature>, x: real, i: nat)
    requires i < |fs| && fs[i].weight > 0.0
    ensures Names(WeightyAt(fs, x), fs[i].typ)
  {
    var init, fb := fs[..|fs| - 1], WeightyAt(fs, x);
    if i < |fs| - 1 {
      WeightyNames(init, x, i);
      var k :| 0 <= k < |WeightyAt(init, x)| && WeightyAt(init, x)[k].typ == fs[i].typ;
      assert fb[k].typ == fs[i].typ;
    } else {
      assert fb[|fb| - 1].typ == fs[i].typ;
    }
  }

  lemma {:induction false} WeightyNamed(fs: seq<Feature>, x: real, k: nat)
    requires Distinct(fs) && k < |WeightyAt(fs, x)|
    ensures Find(fs, WeightyAt(fs, x)[k].typ) < |fs| && WeightOf(fs, WeightyAt(fs, x)[k].typ) > 0.0
  {
    var typ := WeightyAt(fs, x)[k].typ;
    WeightyIn(fs, x, k);
    var i :| 0 <= i < |fs| && fs[i].typ == typ && fs[i].weight > 0.0;
    assert Find(fs, typ) == i;
  }

  lemma {:induction false} WeightyScore(fs: seq<Feature>, x: real)
    requires Distinct(fs) && NonNegative(fs)
    ensures Named(fs, WeightyAt(fs, x)) && NoDuplicates(WeightyAt(fs, x))
    ensures Score(fs, WeightyAt(fs, x)) == x * WeightSum(fs)
  {
    hide Score, ScoreAt, WeightyAt, NamedWeight, CoveredWeight, WeightSum, Distinct, NonNegative, NoDuplicates,
         WeightOf;
    var fb := WeightyAt(fs, x);
    forall k | 0 <= k < |fb| ensures Find(fs, fb[k].typ) < |fs| { WeightyNamed(fs, x, k); }
    WeightyNoDuplicates(fs, x);
    NamedIsCovered(fs, fb);
    WeightyCovers(fs, fs, x);
    WeightyValues(fs, x);
    ConstantScore(fs, fb, x);
    ScoreAtFactors(fs, x, fb);
    SameFactor(x, NamedWeight(fs, fb), WeightSum(fs));
  }

  lemma {:induction false} BelowBar(fs: seq<Feature>, threshold: real, e: Entry)
    requires e.value < threshold && WeightOf(fs, e.typ) > 0.0
    ensures !Credited(fs, threshold, e)
  {
    TimesStrictly(threshold, e.value, WeightOf(fs, e.typ));
  }

  /** Just enough for the features to reach the threshold together, not enough for any of them. */
  lemma {:induction false} UncreditedSuccess(m: Manager)
    requires Distinct(m.features) && NonNegative(m.features) && m.threshold > 0.0 && WeightSum(m.features) > 1.0
    ensures !SuccessAlwaysCredits(m)
  {
    hide WeightyAt, Credited, Score, WeightSum;
    var fs, x := m.features, m.threshold / WeightSum(m.features);
    var fb := WeightyAt(fs, x);
    QuotientBelow(m.threshold, WeightSum(fs));
    WeightyScore(fs, x);
    WeightyValues(fs, x);
    forall k | 0 <= k < |fb| ensures !Credited(fs, m.threshold, fb[k]) {
      WeightyNamed(fs, x, k);
      BelowBar(fs, m.threshold, fb[k]);
    }
    assert Satisfied(m, fb) && !SomeCredited(m, fb);
  }

  lemma {:induction false} QuotientBelow(t: real, w: real)
    requires t > 0.0 && w > 1.0
    ensures t / w < t && (t / w) * w == t
  {
    var q := t / w;
    assert q * w == t;
    PositiveQuotient(q, w, t);
  }

  lemma {:induction false} PositiveQuotient(q: real, w: real, t: real)
    requires q * w == t && t > 0.0 && w > 1.0
    ensures q < t
  {
    if q <= 0.0 {
    } else {
      TimesStrictly(w, 1.0, q);
      Commute(w, q);
      TimesOne(q);
    }
  }

  lemma TimesStrictly(a: real, b: real, w: real)
    requires a > b && w > 0.0
    ensures a * w > b * w
  {
  }

  // ---------------------------------------------------------------- histories outside the conditions

  lemma {:induction false} RunAppend(es: seq<Event>, e: Event)
    ensures Run(es + [e]) == Step(Run(es), e)
  {
    hide Step;
    assert (es + [e])[..|es|] == es;
  }

  lemma {:induction false} OneEntry(f: Feature, threshold: real, e: Entry)
    requires f.typ == e.typ
    ensures Score([f], [e]) == e.value * f.weight
    ensures Credits([f], threshold, [e], f.typ) == if e.value * f.weight >= threshold * f.weight then 1 else 0
  {
    assert [] + [e] == [e];
    OneMore(f, threshold, [], e);
  }

  lemma {:induction false} OnlyFeature(f: Feature, threshold: real, e: Entry)
    requires f.typ == e.typ
    ensures Weighted([f], e) == e.value * f.weight && Bar([f], threshold, e) == threshold * f.weight
  {
    assert Find([f], f.typ) == 0;
  }

  lemma {:induction false} OneMore(f: Feature, threshold: real, fb: seq<Entry>, e: Entry)
    requires f.typ == e.typ
    ensures Score([f], fb + [e]) == Score([f], fb) + e.value * f.weight
    ensures Credits([f], threshold, fb + [e], f.typ) ==
            Credits([f], threshold, fb, f.typ) + if e.value * f.weight >= threshold * f.weight then 1 else 0
  {
    hide Weighted, Bar, Score, Credits;
    OnlyFeature(f, threshold, e);
    OneMoreEntry([f], threshold, fb, e, f.typ);
  }

  lemma {:induction false} ProductOne(totalSucc: nat, f: Feature)
    ensures Product(totalSucc, [f]) == FeatureProb(totalSucc, f)
  {
    assert [f][..0] == [] && Product(totalSucc, []) == 1.0;
    TimesOne(FeatureProb(totalSucc, f));
  }

  /** Naming a feature twice lifts the reputation above 1. */
  lemma {:induction false} DuplicateExample()
    ensures Run([NewFeature(1, 1.0)] + [Feedback([Entry(1, 0.9)] + [Entry(1, 0.9)])]).reputation == 2.0
  {
    var e, f, g := Entry(1, 0.9), Feature(1, 1.0, 0), Feature(1, 1.0, 2);
    var m := Run([NewFeature(1, 1.0)]);
    assert [] + [NewFeature(1, 1.0)] == [NewFeature(1, 1.0)];
    RunAppend([], NewFeature(1, 1.0));
    assert m == NEW.(features := [f]);
    RunAppend([NewFeature(1, 1.0)], Feedback([e] + [e]));
    OneEntry(f, 0.8, e);
    OneMore(f, 0.8, [e], e);
    assert Counted(m, [e] + [e]) == m.(total := 1, totalSucc := 1, features := [g]);
    ProductOne(1, g);
  }

  /** One feature, one success: the reputation is 1. */
  lemma {:induction false} OneSuccess(weight: real)
    requires weight >= 0.8
    ensures Run([NewFeature(1, weight)] + [Feedback([Entry(1, 1.0)])]) ==
            Manager([Feature(1, weight, 1)], 1, 1, 1.0, 0.8)
  {
    var e, f, g := Entry(1, 1.0), Feature(1, weight, 0), Feature(1, weight, 1);
    assert [] + [NewFeature(1, weight)] == [NewFeature(1, weight)];
    RunAppend([], NewFeature(1, weight));
    var m := Run([NewFeature(1, weight)]);
    assert m == NEW.(features := [f]);
    RunAppend([NewFeature(1, weight)], Feedback([e]));
    OneEntry(f, 0.8, e);
    assert Counted(m, [e]) == m.(total := 1, totalSucc := 1, features := [g]);
    ProductOne(1, g);
  }

  /** With a weight above 1 and a negative threshold, fully satisfied feedback halves the reputation. */
  lemma {:induction false} NegativeThresholdExample()
    ensures var es := [NewFeature(1, 2.0)] + [Feedback([Entry(1, 1.0)])] + [NewThreshold(-1.0)];
            && FullySatisfied(Run(es), [Entry(1, -1.0)])
            && Run(es).reputation == 1.0 && Run(es + [Feedback([Entry(1, -1.0)])]).reputation == 0.5
  {
    var before := [NewFeature(1, 2.0)] + [Feedback([Entry(1, 1.0)])];
    var f, e := Feature(1, 2.0, 1), Entry(1, -1.0);
    OneSuccess(2.0);
    RunAppend(before, NewThreshold(-1.0));
    RunAppend(before + [NewThreshold(-1.0)], Feedback([e]));
    var m := Run(before + [NewThreshold(-1.0)]);
    assert m == Manager([f], 1, 1, 1.0, -1.0);
    OneEntry(f, -1.0, e);
    assert Names([e], 1) by { assert [e][0].typ == 1; }
    assert !Satisfied(m, [e]);
    ProductOne(1, f);
    assert Counted(m, [e]) == m.(total := 2);
    assert Value(m.(total := 2)) == 0.5;
  }

  /** The feedback of two entries, for two features of different types. */
  lemma {:induction false} TwoEntries(fs: seq<Feature>, threshold: real, d: Entry, e: Entry)
    requires d.typ != e.typ
    ensures Score(fs, [d, e]) == Weighted(fs, d) + Weighted(fs, e)
    ensures Credits(fs, threshold, [d, e], d.typ) == if Credited(fs, threshold, d) then 1 else 0
    ensures Credits(fs, threshold, [d, e], e.typ) == if Credited(fs, threshold, e) then 1 else 0
  {
    hide Weighted, Bar, Credited;
    assert [] + [d] == [d] && [d] + [e] == [d, e];
    OneMoreEntry(fs, threshold, [], d, d.typ);
    OneMoreEntry(fs, threshold, [d], e, d.typ);
    OneMoreEntry(fs, threshold, [], d, e.typ);
    OneMoreEntry(fs, threshold, [d], e, e.typ);
  }

  lemma {:induction false} EitherFeature(f: Feature, g: Feature, threshold: real, d: Entry, e: Entry)
    requires f.typ == d.typ != e.typ == g.typ
    ensures Weighted([f, g], d) == d.value * f.weight && Bar([f, g], threshold, d) == threshold * f.weight
    ensures Weighted([f, g], e) == e.value * g.weight && Bar([f, g], threshold, e) == threshold * g.weight
  {
    assert Find([f, g], d.typ) == 0 && Find([f, g], e.typ) == 1;
  }

  lemma {:induction false} ProductTwo(totalSucc: nat, f: Feature, g: Feature)
    ensures Product(totalSucc, [f, g]) == FeatureProb(totalSucc, f) * FeatureProb(totalSucc, g)
  {
    assert [f, g][..1] == [f];
    ProductOne(totalSucc, f);
  }

  lemma {:induction false} TwoFeatures(w: real, x: real)
    ensures Run([NewFeature(1, w)] + [NewFeature(2, x)]) == NEW.(features := [Feature(1, w, 0), Feature(2, x, 0)])
  {
    assert [] + [NewFeature(1, w)] == [NewFeature(1, w)];
    RunAppend([], NewFeature(1, w));
    var f := Feature(1, w, 0);
    assert Run([NewFeature(1, w)]) == NEW.(features := [f]);
    RunAppend([NewFeature(1, w)], NewFeature(2, x));
    assert Find([f], 2) == 1 && [f] + [Feature(2, x, 0)] == [f, Feature(2, x, 0)];
  }

  /** A successful transaction on two features with different types. */
  lemma {:induction false} TwoCounted(m: Manager, f: Feature, g: Feature, d: Entry, e: Entry)
    requires m.features == [f, g] && f.typ == d.typ != e.typ == g.typ
    requires Weighted([f, g], d) + Weighted([f, g], e) >= m.threshold
    ensures var c := if Credited([f, g], m.threshold, d) then 1 else 0;
            var k := if Credited([f, g], m.threshold, e) then 1 else 0;
            && Satisfied(m, [d, e])
            && Counted(m, [d, e]) == m.(total := m.total + 1, totalSucc := m.totalSucc + 1,
                                        features := [f.(succ := f.succ + c), g.(succ := g.succ + k)])
  {
    hide Weighted, Bar, Credited, Score, Credits;
    TwoEntries([f, g], m.threshold, d, e);
  }

  /** A successful feedback that misses one of two features halves a reputation of 1. */
  lemma {:induction false} PartialSuccessExample()
    ensures var es := [NewFeature(1, 0.9)] + [NewFeature(2, 0.1)] + [Feedback([Entry(1, 1.0), Entry(2, 1.0)])];
            var fb := [Entry(1, 1.0), Entry(2, 0.0)];
            Satisfied(Run(es), fb) && Run(es).reputation == 1.0 && Run(es + [Feedback(fb)]).reputation == 0.5
  {
    var start := [NewFeature(1, 0.9)] + [NewFeature(2, 0.1)];
    var f, g := Feature(1, 0.9, 0), Feature(2, 0.1, 0);
    var d, e, n := Entry(1, 1.0), Entry(2, 1.0), Entry(2, 0.0);
    TwoFeatures(0.9, 0.1);
    RunAppend(start, Feedback([d, e]));
    EitherFeature(f, g, 0.8, d, e);
    TwoCounted(Run(start), f, g, d, e);
    var f1, g1 := f.(succ := 1), g.(succ := 1);
    ProductTwo(1, f1, g1);
    var m := Run(start + [Feedback([d, e])]);
    assert m == Manager([f1, g1], 1, 1, 1.0, 0.8);
    RunAppend(start + [Feedback([d, e])], Feedback([d, n]));
    EitherFeature(f1, g1, 0.8, d, n);
    TwoCounted(m, f1, g1, d, n);
    ProductTwo(2, f1.(succ := 2), g1);
  }

  /** With weights above 1 a success can credit no feature at all. */
  lemma {:induction false} UncreditedExample()
    ensures var es := [NewFeature(1, 1.0)] + [NewFeature(2, 1.0)] + [Feedback([Entry(1, 0.5), Entry(2, 0.5)])];
            Run(es).totalSucc == 1 && SuccSum(Run(es).features) == 0
  {
    var start := [NewFeature(1, 1.0)] + [NewFeature(2, 1.0)];
    var f, g := Feature(1, 1.0, 0), Feature(2, 1.0, 0);
    TwoFeatures(1.0, 1.0);
    RunAppend(start, Feedback([Entry(1, 0.5), Entry(2, 0.5)]));
    EitherFeature(f, g, 0.8, Entry(1, 0.5), Entry(2, 0.5));
    TwoCounted(Run(start), f, g, Entry(1, 0.5), Entry(2, 0.5));
    assert Counted(Run(start), [Entry(1, 0.5), Entry(2, 0.5)]).features == [f, g];
    assert [f, g][..1] == [f] && [f][..0] == [];
    assert SuccSum([]) == 0 && SuccSum([f]) == 0 && SuccSum([f, g]) == 0;
  }
}
