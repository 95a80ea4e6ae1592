/**
 Device reputation: counters of successful transactions, per feature and in all, combined by a naive
 Bayes product.  The doubles of the program are real numbers here.
 */
module Reputation {

  datatype Feature = Feature(typ: int, weight: real, succ: nat)

  datatype Manager = Manager(features: seq<Feature>, totalSucc: nat, total: nat, reputation: real, threshold: real)

  /** One entry of the feedback matrix. */
  datatype Entry = Entry(typ: int, value: real)

  // ---------------------------------------------------------------- specification

  /** The position of the first feature of a type, or the number of features. */
  function Find(fs: seq<Feature>, typ: int): (i: nat)
    ensures i <= |fs|
    ensures i < |fs| ==> fs[i].typ == typ
    ensures forall j :: 0 <= j < i ==> fs[j].typ != typ
  {
    if fs == [] || fs[0].typ == typ then 0 else 1 + Find(fs[1..], typ)
  }

  ghost predicate Distinct(fs: seq<Feature>)
  {
    forall i, j :: 0 <= i < j < |fs| ==> fs[i].typ != fs[j].typ
  }

  /** Every entry names a feature that exists. */
  ghost predicate Named(fs: seq<Feature>, fb: seq<Entry>)
  {
    forall k :: 0 <= k < |fb| ==> Find(fs, fb[k].typ) < |fs|
  }

  function WeightOf(fs: seq<Feature>, typ: int): real
  {
    if Find(fs, typ) < |fs| then fs[Find(fs, typ)].weight else 0.0
  }

  /** The weighted value of an entry, and what it is measured against. */
  function Weighted(fs: seq<Feature>, e: Entry): real
  {
    e.value * WeightOf(fs, e.typ)
  }

  function Bar(fs: seq<Feature>, threshold: real, e: Entry): real
  {
    threshold * WeightOf(fs, e.typ)
  }

  /** The satisfaction score of a feedback. */
  function Score(fs: seq<Feature>, fb: seq<Entry>): real
  {
    if fb == [] then 0.0
    else Score(fs, fb[..|fb| - 1]) + Weighted(fs, fb[|fb| - 1])
  }

  /** The entry counts as a success for its feature. */
  predicate Credited(fs: seq<Feature>, threshold: real, e: Entry)
  {
    Weighted(fs, e) >= Bar(fs, threshold, e)
  }

  /** The number of successes a feedback brings to the features of a type. */
  function Credits(fs: seq<Feature>, threshold: real, fb: seq<Entry>, typ: int): nat
  {
    if fb == [] then 0
    else
      var e := fb[|fb| - 1];
      Credits(fs, threshold, fb[..|fb| - 1], typ) + if e.typ == typ && Credited(fs, threshold, e) then 1 else 0
  }

  function Credit(fs: seq<Feature>, threshold: real, fb: seq<Entry>): (r: seq<Feature>)
    ensures |r| == |fs|
  {
    seq(|fs|, i requires 0 <= i < |fs| => fs[i].(succ := fs[i].succ + Credits(fs, threshold, fb, fs[i].typ)))
  }

  predicate Satisfied(m: Manager, fb: seq<Entry>)
  {
    Score(m.features, fb) >= m.threshold
  }

  /** The counters after a transaction. */
  function Counted(m: Manager, fb: seq<Entry>): Manager
  {
    if Satisfied(m, fb) then
      m.(total := m.total + 1, totalSucc := m.totalSucc + 1, features := Credit(m.features, m.threshold, fb))
    else m.(total := m.total + 1)
  }

  function FeatureProb(totalSucc: nat, f: Feature): real
  {
    if totalSucc == 0 || f.succ == 0 then 0.0 else f.succ as real / totalSucc as real
  }

  function Product(totalSucc: nat, fs: seq<Feature>): real
  {
    if fs == [] then 1.0 else Product(totalSucc, fs[..|fs| - 1]) * FeatureProb(totalSucc, fs[|fs| - 1])
  }

  /** The reputation the counters stand for. */
  function Value(m: Manager): real
  {
    if m.total == 0 then 0.0
    else (m.totalSucc as real / m.total as real) * Product(m.totalSucc, m.features)
  }

  /** The reputation is stored unless there was no transaction yet. */
  function Recompute(m: Manager): Manager
  {
    if m.total == 0 then m else m.(reputation := Value(m))
  }

  function Transaction(m: Manager, fb: seq<Entry>): Manager
  {
    Recompute(Counted(m, fb))
  }

  function AddFeature(fs: seq<Feature>, typ: int, weight: real): seq<Feature>
  {
    var i := Find(fs, typ);
    if i < |fs| then fs[i := fs[i].(weight := weight)] else fs + [Feature(typ, weight, 0)]
  }

  lemma {:induction false} OneMoreEntry(fs: seq<Feature>, threshold: real, fb: seq<Entry>, e: Entry, typ: int)
    ensures Score(fs, fb + [e]) == Score(fs, fb) + Weighted(fs, e)
    ensures Credits(fs, threshold, fb + [e], typ) ==
            Credits(fs, threshold, fb, typ) + if e.typ == typ && Credited(fs, threshold, e) then 1 else 0
  {
    hide Weighted, Bar;
    assert (fb + [e])[..|fb|] == fb;
  }

  /** The same types and weights; only the successes may differ. */
  ghost predicate SameFeatures(fs: seq<Feature>, gs: seq<Feature>)
  {
    |gs| == |fs| && forall i :: 0 <= i < |fs| ==> gs[i].typ == fs[i].typ && gs[i].weight == fs[i].weight
  }

  lemma {:induction false} ShapeFind(fs: seq<Feature>, gs: seq<Feature>, typ: int)
    requires SameFeatures(fs, gs)
    ensures Find(gs, typ) == Find(fs, typ) && WeightOf(gs, typ) == WeightOf(fs, typ)
  {
    if fs != [] && fs[0].typ != typ { ShapeFind(fs[1..], gs[1..], typ); }
  }

  // ---------------------------------------------------------------- histories

  datatype Event = NewFeature(typ: int, weight: real) | NewThreshold(threshold: real) | Feedback(entries: seq<Entry>)

  function Step(m: Manager, e: Event): Manager
  {
    match e
    case NewFeature(typ, weight) => m.(features := AddFeature(m.features, typ, weight))
    case NewThreshold(threshold) => m.(threshold := threshold)
    case Feedback(fb) => Transaction(m, fb)
  }

  const NEW := Manager([], 0, 0, 0.0, 0.8)

  function Run(es: seq<Event>): Manager
  {
    if es == [] then NEW else Step(Run(es[..|es| - 1]), es[|es| - 1])
  }

  ghost predicate NoDuplicates(fb: seq<Entry>)
  {
    forall i, j :: 0 <= i < j < |fb| ==> fb[i].typ != fb[j].typ
  }

  /** Every feedback names existing features, each at most once. */
  ghost predicate Proper(es: seq<Event>)
  {
    forall i :: 0 <= i < |es| && es[i].Feedback? ==>
      NoDuplicates(es[i].entries) && Named(Run(es[..i]).features, es[i].entries)
  }

  /** Successes of a feature <= successes <= transactions. */
  ghost predicate Bounded(m: Manager)
  {
    && m.totalSucc <= m.total
    && forall i :: 0 <= i < |m.features| ==> m.features[i].succ <= m.totalSucc
  }

  // ---------------------------------------------------------------- bounds

  lemma {:induction false} CreditsAbsent(fs: seq<Feature>, threshold: real, fb: seq<Entry>, typ: int)
    requires forall k :: 0 <= k < |fb| ==> fb[k].typ != typ
    ensures Credits(fs, threshold, fb, typ) == 0
  {
    if fb != [] { CreditsAbsent(fs, threshold, fb[..|fb| - 1], typ); }
  }

  /** Without duplicates a feature gains at most one success. */
  lemma {:induction false} CreditsAtMostOne(fs: seq<Feature>, threshold: real, fb: seq<Entry>, typ: int)
    requires NoDuplicates(fb)
    ensures Credits(fs, threshold, fb, typ) <= 1
  {
    if fb != [] {
      var init, e := fb[..|fb| - 1], fb[|fb| - 1];
      if e.typ == typ { CreditsAbsent(fs, threshold, init, typ); } else { CreditsAtMostOne(fs, threshold, init, typ); }
    }
  }

  lemma {:induction false} CountedBounded(m: Manager, fb: seq<Entry>)
    requires Bounded(m) && NoDuplicates(fb)
    ensures Bounded(Counted(m, fb))
  {
    forall i | 0 <= i < |m.features|
      ensures m.features[i].succ + Credits(m.features, m.threshold, fb, m.features[i].typ) <= m.totalSucc + 1
    {
      CreditsAtMostOne(m.features, m.threshold, fb, m.features[i].typ);
    }
  }

  lemma RatioBound(a: nat, b: nat)
    requires a <= b && b > 0
    ensures 0.0 <= a as real / b as real <= 1.0
  {
  }

  lemma TimesMono(a: real, b: real, w: real)
    requires a >= b && w >= 0.0
    ensures a * w >= b * w
  {
  }

  lemma Distribute(t: real, a: real, b: real)
    ensures t * (a + b) == t * a + t * b
  {
  }

  lemma SameFactor(t: real, a: real, b: real)
    requires a == b
    ensures t * a == t * b
  {
  }

  lemma TimesNonNegative(x: real, y: real)
    requires x >= 0.0 && y >= 0.0
    ensures x * y >= 0.0
  {
  }

  lemma TimesAtMost(x: real, y: real)
    requires x <= 1.0 && y >= 0.0
    ensures x * y <= y
  {
    TimesNonNegative(1.0 - x, y);
    Complement(x, y);
  }

  lemma Complement(x: real, y: real)
    ensures (1.0 - x) * y == y - x * y
  {
  }

  lemma TimesBound(x: real, y: real)
    requires 0.0 <= x <= 1.0 && 0.0 <= y <= 1.0
    ensures 0.0 <= x * y <= 1.0
  {
    TimesNonNegative(x, y);
    TimesAtMost(x, y);
  }

  lemma {:induction false} ProductBound(totalSucc: nat, fs: seq<Feature>)
    requires forall i :: 0 <= i < |fs| ==> fs[i].succ <= totalSucc
    ensures 0.0 <= Product(totalSucc, fs) <= 1.0
  {
    if fs != [] {
      var f := fs[|fs| - 1];
      ProductBound(totalSucc, fs[..|fs| - 1]);
      if totalSucc > 0 { RatioBound(f.succ, totalSucc); }
      TimesBound(Product(totalSucc, fs[..|fs| - 1]), FeatureProb(totalSucc, f));
    }
  }

  lemma {:induction false} ValueBound(m: Manager)
    requires Bounded(m)
    ensures 0.0 <= Value(m) <= 1.0
  {
    if m.total > 0 {
      RatioBound(m.totalSucc, m.total);
      ProductBound(m.totalSucc, m.features);
      TimesBound(m.totalSucc as real / m.total as real, Product(m.totalSucc, m.features));
    }
  }

  lemma {:induction false} ProperPrefix(es: seq<Event>)
    requires Proper(es) && es != []
    ensures Proper(es[..|es| - 1])
    ensures var e, m := es[|es| - 1], Run(es[..|es| - 1]);
            e.Feedback? ==> NoDuplicates(e.entries) && Named(m.features, e.entries)
  {
    var init := es[..|es| - 1];
    forall i | 0 <= i < |init| && init[i].Feedback?
      ensures NoDuplicates(init[i].entries) && Named(Run(init[..i]).features, init[i].entries)
    {
      assert init[..i] == es[..i] && init[i] == es[i];
    }
  }

  /**
   The bound over histories: whatever features, weights, thresholds and duplicate-free feedback a
   device has seen, successes of a feature <= successes <= transactions, and the reputation, stored
   or recomputed, is between 0 and 1.
   */
  lemma {:induction false} HistoryBounded(es: seq<Event>)
    requires Proper(es)
    ensures Bounded(Run(es)) && Distinct(Run(es).features)
    ensures 0.0 <= Value(Run(es)) <= 1.0 && 0.0 <= Run(es).reputation <= 1.0
  {
    hide Value, Proper, Score, Named;
    if es != [] {
      var e, m := es[|es| - 1], Run(es[..|es| - 1]);
      ProperPrefix(es);
      HistoryBounded(es[..|es| - 1]);
      match e
      case NewFeature(typ, weight) =>
      case NewThreshold(threshold) =>
      case Feedback(fb) =>
        CountedBounded(m, fb);
        ValueBound(Counted(m, fb));
    }
    ValueBound(Run(es));
  }

  // ---------------------------------------------------------------- weights

  function WeightSum(fs: seq<Feature>): real
  {
    if fs == [] then 0.0 else WeightSum(fs[..|fs| - 1]) + fs[|fs| - 1].weight
  }

  /** The weight a feedback names, entry by entry. */
  function NamedWeight(fs: seq<Feature>, fb: seq<Entry>): real
  {
    if fb == [] then 0.0 else NamedWeight(fs, fb[..|fb| - 1]) + WeightOf(fs, fb[|fb| - 1].typ)
  }

  predicate Names(fb: seq<Entry>, typ: int)
  {
    exists k :: 0 <= k < |fb| && fb[k].typ == typ
  }

  /** The weight a feedback names, feature by feature. */
  function CoveredWeight(fs: seq<Feature>, fb: seq<Entry>): real
  {
    if fs == [] then 0.0
    else CoveredWeight(fs[..|fs| - 1], fb) + if Names(fb, fs[|fs| - 1].typ) then fs[|fs| - 1].weight else 0.0
  }

  lemma {:induction false} CoveredSame(fs: seq<Feature>, fb: seq<Entry>, e: Entry)
    requires forall i :: 0 <= i < |fs| ==> fs[i].typ != e.typ
    ensures CoveredWeight(fs, fb + [e]) == CoveredWeight(fs, fb)
  {
    if fs != [] {
      CoveredSame(fs[..|fs| - 1], fb, e);
      NamesAppend(fb, e, fs[|fs| - 1].typ);
    }
  }

  lemma {:induction false} NamesAppend(fb: seq<Entry>, e: Entry, typ: int)
    ensures Names(fb + [e], typ) <==> Names(fb, typ) || e.typ == typ
  {
    if e.typ == typ { assert (fb + [e])[|fb|].typ == typ; }
    if Names(fb, typ) {
      var k :| 0 <= k < |fb| && fb[k].typ == typ;
      assert (fb + [e])[k].typ == typ;
    }
  }

  /** One more entry, for a feature not named before, covers that feature's weight in addition. */
  lemma {:induction false} CoveredMore(fs: seq<Feature>, fb: seq<Entry>, e: Entry, j: nat)
    requires Distinct(fs) && j < |fs| && fs[j].typ == e.typ && !Names(fb, e.typ)
    ensures CoveredWeight(fs, fb + [e]) == CoveredWeight(fs, fb) + fs[j].weight
  {
    var n := |fs| - 1;
    NamesAppend(fb, e, fs[n].typ);
    if j == n {
      CoveredSame(fs[..n], fb, e);
    } else {
      CoveredMore(fs[..n], fb, e, j);
    }
  }

  /** Summing by entries and by features is the same when no feature is named twice. */
  lemma {:induction false} NamedIsCovered(fs: seq<Feature>, fb: seq<Entry>)
    requires Distinct(fs) && NoDuplicates(fb) && Named(fs, fb)
    ensures NamedWeight(fs, fb) == CoveredWeight(fs, fb)
  {
    if fb == [] {
      CoveredNothing(fs);
    } else {
      var init, e := fb[..|fb| - 1], fb[|fb| - 1];
      NamedIsCovered(fs, init);
      assert fb == init + [e];
      CoveredMore(fs, init, e, Find(fs, e.typ));
    }
  }

  lemma {:induction false} CoveredNothing(fs: seq<Feature>)
    ensures CoveredWeight(fs, []) == 0.0
  {
    if fs != [] { CoveredNothing(fs[..|fs| - 1]); }
  }

  lemma {:induction false} CoveredAtMostSum(fs: seq<Feature>, fb: seq<Entry>)
    requires forall i :: 0 <= i < |fs| ==> fs[i].weight >= 0.0
    ensures CoveredWeight(fs, fb) <= WeightSum(fs)
  {
    if fs != [] { CoveredAtMostSum(fs[..|fs| - 1], fb); }
  }

  lemma {:induction false} CoveredAll(fs: seq<Feature>, fb: seq<Entry>)
    requires forall i :: 0 <= i < |fs| ==> Names(fb, fs[i].typ)
    ensures CoveredWeight(fs, fb) == WeightSum(fs)
  {
    if fs != [] { CoveredAll(fs[..|fs| - 1], fb); }
  }

  // ---------------------------------------------------------------- monotonicity

  /** Every feature once, each value at or above the threshold. */
  ghost predicate FullySatisfied(m: Manager, fb: seq<Entry>)
  {
    && NoDuplicates(fb) && Named(m.features, fb)
    && (forall i :: 0 <= i < |m.features| ==> Names(fb, m.features[i].typ))
    && (forall k :: 0 <= k < |fb| ==> fb[k].value >= m.threshold)
  }

  ghost predicate NonNegative(fs: seq<Feature>)
  {
    forall i :: 0 <= i < |fs| ==> fs[i].weight >= 0.0
  }

  /** The score of a feedback that is exactly at the threshold. */
  function ScoreAt(fs: seq<Feature>, threshold: real, fb: seq<Entry>): real
  {
    if fb == [] then 0.0 else ScoreAt(fs, threshold, fb[..|fb| - 1]) + Bar(fs, threshold, fb[|fb| - 1])
  }

  lemma {:induction false} ScoreAtFactors(fs: seq<Feature>, threshold: real, fb: seq<Entry>)
    ensures ScoreAt(fs, threshold, fb) == threshold * NamedWeight(fs, fb)
  {
    if fb != [] {
      var init, e := fb[..|fb| - 1], fb[|fb| - 1];
      ScoreAtFactors(fs, threshold, init);
      Distribute(threshold, NamedWeight(fs, init), WeightOf(fs, e.typ));
    }
  }

  lemma {:induction false} EntryAtLeast(fs: seq<Feature>, threshold: real, e: Entry)
    requires NonNegative(fs) && e.value >= threshold
    ensures Credited(fs, threshold, e)
  {
    TimesMono(e.value, threshold, WeightOf(fs, e.typ));
  }

  lemma {:induction false} ScoreAtLeast(fs: seq<Feature>, threshold: real, fb: seq<Entry>)
    requires NonNegative(fs) && forall k :: 0 <= k < |fb| ==> fb[k].value >= threshold
    ensures Score(fs, fb) >= ScoreAt(fs, threshold, fb)
  {
    hide Weighted, Bar;
    if fb != [] {
      ScoreAtLeast(fs, threshold, fb[..|fb| - 1]);
      EntryAtLeast(fs, threshold, fb[|fb| - 1]);
    }
  }

  lemma {:induction false} CreditsExactlyOne(fs: seq<Feature>, threshold: real, fb: seq<Entry>, typ: int)
    requires NonNegative(fs) && NoDuplicates(fb) && Names(fb, typ)
    requires forall k :: 0 <= k < |fb| ==> fb[k].value >= threshold
    ensures Credits(fs, threshold, fb, typ) == 1
  {
    var init, e := fb[..|fb| - 1], fb[|fb| - 1];
    EntryAtLeast(fs, threshold, e);
    if e.typ == typ {
      CreditsAbsent(fs, threshold, init, typ);
    } else {
      assert fb == init + [e];
      NamesAppend(init, e, typ);
      CreditsExactlyOne(fs, threshold, init, typ);
    }
  }

  lemma Reorder(x: real, b: real, d: real)
    ensures (x * b) * d == x * (b * d) == x * (d * b)
  {
  }

  lemma TimesStrict(x: real, y: real, b: real, d: real)
    requires x > y && b > 0.0 && d > 0.0
    ensures x * (b * d) > y * (b * d)
  {
    assert b * d > 0.0;
  }

  lemma {:induction false} DivMono(a: real, b: real, c: real, d: real)
    requires b > 0.0 && d > 0.0 && a * d <= c * b
    ensures a / b <= c / d
  {
    var x, y := a / b, c / d;
    assert a == x * b && c == y * d;
    if x > y {
      Reorder(x, b, d);
      Reorder(y, d, b);
      TimesStrict(x, y, b, d);
      assert false;
    }
  }

  /** One more of both brings a ratio of at most one no further from one. */
  lemma {:induction false} RatioGrows(a: nat, b: nat)
    requires a <= b && b > 0
    ensures a as real / b as real <= (a + 1) as real / (b + 1) as real
  {
    var x, y := a as real, b as real;
    assert x * (y + 1.0) == x * y + x && (x + 1.0) * y == x * y + y;
    DivMono(x, y, x + 1.0, y + 1.0);
  }

  lemma {:induction false} TimesGrow(a: real, b: real, c: real, d: real)
    requires 0.0 <= a <= c && 0.0 <= b <= d
    ensures 0.0 <= a * b <= c * d
  {
    TimesMono(c, a, b);
    TimesMono(d, b, c);
  }

  /** A feature credited along with the total gains. */
  lemma {:induction false} ProbGrows(totalSucc: nat, f: Feature, g: Feature)
    requires f.succ <= totalSucc && g.succ == f.succ + 1
    ensures 0.0 <= FeatureProb(totalSucc, f) <= FeatureProb(totalSucc + 1, g)
  {
    RatioBound(g.succ, totalSucc + 1);
    if totalSucc > 0 {
      RatioGrows(f.succ, totalSucc);
      RatioBound(f.succ, totalSucc);
    }
  }

  lemma {:induction false} ProductGrows(totalSucc: nat, fs: seq<Feature>, gs: seq<Feature>)
    requires |gs| == |fs|
    requires forall i :: 0 <= i < |fs| ==> fs[i].succ <= totalSucc && gs[i].succ == fs[i].succ + 1
    ensures 0.0 <= Product(totalSucc, fs) <= Product(totalSucc + 1, gs)
  {
    hide FeatureProb;
    if fs != [] {
      var n := |fs| - 1;
      ProductGrows(totalSucc, fs[..n], gs[..n]);
      ProbGrows(totalSucc, fs[n], gs[n]);
      TimesGrow(Product(totalSucc, fs[..n]), FeatureProb(totalSucc, fs[n]),
                Product(totalSucc + 1, gs[..n]), FeatureProb(totalSucc + 1, gs[n]));
    }
  }

  /** Feedback exactly at the threshold for every feature reaches it. */
  predicate Reachable(m: Manager)
  {
    m.threshold * WeightSum(m.features) >= m.threshold
  }

  lemma ReachesThreshold(score: real, scoreAt: real, threshold: real, named: real, sum: real)
    requires score >= scoreAt && scoreAt == threshold * named && named == sum && threshold * sum >= threshold
    ensures score >= threshold
  {
    SameFactor(threshold, named, sum);
  }

  lemma {:induction false} FullIsSatisfied(m: Manager, fb: seq<Entry>)
    requires Distinct(m.features) && NonNegative(m.features) && FullySatisfied(m, fb) && Reachable(m)
    ensures Satisfied(m, fb)
  {
    hide NamedWeight, ScoreAt, CoveredWeight;
    NamedIsCovered(m.features, fb);
    CoveredAll(m.features, fb);
    ScoreAtFactors(m.features, m.threshold, fb);
    ScoreAtLeast(m.features, m.threshold, fb);
    ReachesThreshold(Score(m.features, fb), ScoreAt(m.features, m.threshold, fb), m.threshold,
                     NamedWeight(m.features, fb), WeightSum(m.features));
  }

  lemma {:induction false} ValueGrows(m: Manager, v: Manager)
    requires Bounded(m) && v.total == m.total + 1 && v.totalSucc == m.totalSucc + 1
    requires |v.features| == |m.features|
    requires forall i :: 0 <= i < |m.features| ==> v.features[i].succ == m.features[i].succ + 1
    ensures Value(v) >= Value(m)
  {
    ProductGrows(m.totalSucc, m.features, v.features);
    var p, q := Product(m.totalSucc, m.features), Product(v.totalSucc, v.features);
    var r := v.totalSucc as real / v.total as real;
    RatioBound(v.totalSucc, v.total);
    if m.total > 0 {
      RatioGrows(m.totalSucc, m.total);
      RatioBound(m.totalSucc, m.total);
      TimesGrow(m.totalSucc as real / m.total as real, p, r, q);
    } else {
      TimesGrow(0.0, 0.0, r, q);
    }
  }

  /**
   Fully satisfied feedback never lowers the reputation, in any bounded state, and every state of a
   duplicate-free history is bounded.
   */
  lemma {:induction false} FullNeverLowers(m: Manager, fb: seq<Entry>)
    requires Bounded(m) && Distinct(m.features) && NonNegative(m.features) && FullySatisfied(m, fb) && Reachable(m)
    ensures Value(Transaction(m, fb)) >= Value(m)
  {
    FullIsSatisfied(m, fb);
    AllCredited(m, fb);
    ValueGrows(m, Counted(m, fb));
    ValueStored(Counted(m, fb));
  }

  lemma {:induction false} AllCredited(m: Manager, fb: seq<Entry>)
    requires NonNegative(m.features) && FullySatisfied(m, fb) && Satisfied(m, fb)
    ensures forall i :: 0 <= i < |m.features| ==> Counted(m, fb).features[i].succ == m.features[i].succ + 1
  {
    forall i | 0 <= i < |m.features| ensures Counted(m, fb).features[i].succ == m.features[i].succ + 1 {
      CreditsExactlyOne(m.features, m.threshold, fb, m.features[i].typ);
    }
  }

  lemma {:induction false} ValueStored(m: Manager)
    ensures Value(Recompute(m)) == Value(m)
  {
  }

  lemma {:induction false} TransactionsGrow(totalSucc: nat, total: nat)
    requires total > 0
    ensures totalSucc as real / (total + 1) as real <= totalSucc as real / total as real
  {
    var x, y := totalSucc as real, total as real;
    assert x * y <= x * (y + 1.0);
    DivMono(x, y + 1.0, x, y);
  }

  /** A transaction below the threshold never raises the reputation. */
  lemma {:induction false} BelowNeverRaises(m: Manager, fb: seq<Entry>)
    requires Bounded(m) && !Satisfied(m, fb)
    ensures Value(Transaction(m, fb)) <= Value(m)
  {
    hide Product, Score;
    ProductBound(m.totalSucc, m.features);
    if m.total > 0 {
      TransactionsGrow(m.totalSucc, m.total);
      TimesMono(m.totalSucc as real / m.total as real, m.totalSucc as real / (m.total + 1) as real,
                Product(m.totalSucc, m.features));
    }
  }

  /** Both, for the next feedback after any history of duplicate-free feedback. */
  lemma {:induction false} NextFeedback(es: seq<Event>, fb: seq<Entry>)
    requires Proper(es)
    ensures var m := Run(es);
            && (NonNegative(m.features) && FullySatisfied(m, fb) && Reachable(m) ==>
                  Value(Transaction(m, fb)) >= Value(m))
            && (!Satisfied(m, fb) ==> Value(Transaction(m, fb)) <= Value(m))
  {
    var m := Run(es);
    HistoryBounded(es);
    if NonNegative(m.features) && FullySatisfied(m, fb) && Reachable(m) { FullNeverLowers(m, fb); }
    if !Satisfied(m, fb) { BelowNeverRaises(m, fb); }
  }

  // ---------------------------------------------------------------- credits

  function SuccSum(fs: seq<Feature>): nat
  {
    if fs == [] then 0 else SuccSum(fs[..|fs| - 1]) + fs[|fs| - 1].succ
  }

  lemma {:induction false} ScoreBelow(fs: seq<Feature>, threshold: real, fb: seq<Entry>)
    requires forall k :: 0 <= k < |fb| ==> !Credited(fs, threshold, fb[k])
    ensures Score(fs, fb) <= ScoreAt(fs, threshold, fb)
    ensures fb != [] ==> Score(fs, fb) < ScoreAt(fs, threshold, fb)
  {
    hide Weighted, Bar;
    if fb != [] {
      ScoreBelow(fs, threshold, fb[..|fb| - 1]);
      assert !Credited(fs, threshold, fb[|fb| - 1]);
    }
  }

  /** Non-negative weights of at most 1 in all, and a positive threshold. */
  ghost predicate Balanced(m: Manager)
  {
    && NonNegative(m.features) && WeightSum(m.features) <= 1.0 && m.threshold > 0.0
  }

  /** Every successful transaction credits some entry. */
  lemma {:induction false} SuccessCredits(m: Manager, fb: seq<Entry>) returns (k: nat)
    requires Distinct(m.features) && Balanced(m) && NoDuplicates(fb) && Named(m.features, fb) && Satisfied(m, fb)
    ensures k < |fb| && Credited(m.features, m.threshold, fb[k])
  {
    if forall k :: 0 <= k < |fb| ==> !Credited(m.features, m.threshold, fb[k]) {
      ScoreBelow(m.features, m.threshold, fb);
      ScoreAtFactors(m.features, m.threshold, fb);
      NamedIsCovered(m.features, fb);
      CoveredAtMostSum(m.features, fb);
      TimesMono(1.0, NamedWeight(m.features, fb), m.threshold);
      assert false;
    }
    k :| 0 <= k < |fb| && Credited(m.features, m.threshold, fb[k]);
  }

  lemma {:induction false} CreditsPositive(fs: seq<Feature>, threshold: real, fb: seq<Entry>, k: nat)
    requires k < |fb| && Credited(fs, threshold, fb[k])
    ensures Credits(fs, threshold, fb, fb[k].typ) >= 1
  {
    if k < |fb| - 1 { CreditsPositive(fs, threshold, fb[..|fb| - 1], k); }
  }

  lemma {:induction false} SuccSumGrows(fs: seq<Feature>, gs: seq<Feature>, j: int)
    requires |gs| == |fs| && forall i :: 0 <= i < |fs| ==> gs[i].succ >= fs[i].succ
    requires 0 <= j < |fs| ==> gs[j].succ > fs[j].succ
    ensures SuccSum(gs) >= SuccSum(fs) + if 0 <= j < |fs| then 1 else 0
  {
    if fs != [] { SuccSumGrows(fs[..|fs| - 1], gs[..|gs| - 1], j); }
  }

  /** A transaction keeps the feature successes together at or above the successes. */
  lemma {:induction false} TransactionCredits(m: Manager, fb: seq<Entry>)
    requires Distinct(m.features) && Balanced(m) && NoDuplicates(fb) && Named(m.features, fb)
    requires SuccSum(m.features) >= m.totalSucc
    ensures SuccSum(Counted(m, fb).features) >= Counted(m, fb).totalSucc
  {
    if Satisfied(m, fb) {
      var k := SuccessCredits(m, fb);
      CreditsPositive(m.features, m.threshold, fb, k);
      SuccSumGrows(m.features, Counted(m, fb).features, Find(m.features, fb[k].typ));
    }
  }

  /** At every feedback of the history the weights and the threshold are balanced. */
  ghost predicate AlwaysBalanced(es: seq<Event>)
  {
    forall i :: 0 <= i < |es| && es[i].Feedback? ==> Balanced(Run(es[..i]))
  }

  lemma {:induction false} BalancedPrefix(es: seq<Event>)
    requires AlwaysBalanced(es) && es != []
    ensures AlwaysBalanced(es[..|es| - 1])
    ensures es[|es| - 1].Feedback? ==> Balanced(Run(es[..|es| - 1]))
  {
    var init := es[..|es| - 1];
    forall i | 0 <= i < |init| && init[i].Feedback? ensures Balanced(Run(init[..i])) {
      assert init[..i] == es[..i] && init[i] == es[i];
    }
  }

  lemma {:induction false} AddFeatureSum(fs: seq<Feature>, typ: int, weight: real)
    ensures SuccSum(AddFeature(fs, typ, weight)) == SuccSum(fs)
  {
    var i := Find(fs, typ);
    if i < |fs| {
      SuccSumSame(fs, fs[i := fs[i].(weight := weight)]);
    } else {
      assert (fs + [Feature(typ, weight, 0)])[..|fs|] == fs;
    }
  }

  lemma {:induction false} SuccSumSame(fs: seq<Feature>, gs: seq<Feature>)
    requires |gs| == |fs| && forall i :: 0 <= i < |fs| ==> gs[i].succ == fs[i].succ
    ensures SuccSum(gs) == SuccSum(fs)
  {
    if fs != [] { SuccSumSame(fs[..|fs| - 1], gs[..|gs| - 1]); }
  }

  /** Over every such history, the successes are accounted for by the features. */
  lemma {:induction false} SuccessesAccounted(es: seq<Event>)
    requires Proper(es) && AlwaysBalanced(es)
    ensures SuccSum(Run(es).features) >= Run(es).totalSucc
  {
    if es != [] {
      var m := Run(es[..|es| - 1]);
      ProperPrefix(es);
      BalancedPrefix(es);
      HistoryBounded(es[..|es| - 1]);
      SuccessesAccounted(es[..|es| - 1]);
      match es[|es| - 1]
      case NewFeature(typ, weight) => AddFeatureSum(m.features, typ, weight);
      case NewThreshold(threshold) =>
      case Feedback(fb) => TransactionCredits(m, fb);
    }
  }
}
