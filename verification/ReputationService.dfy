/**
 The feature manager of a device and the naive Bayes computation on it.
 */
module ReputationService {
  import opened Reputation

  class FeatureManager {
    var features: seq<Feature>
    var totalSuccessTrans: nat
    var totalTrans: nat
    var deviceReputation: real
    var feedbackThreshold: real

    ghost function Abs(): Manager
      reads this
    {
      Manager(features, totalSuccessTrans, totalTrans, deviceReputation, feedbackThreshold)
    }

    ghost predicate Valid()
      reads this
    {
      Distinct(features)
    }

    constructor ()
      ensures Valid() && Abs() == NEW
    {
      features, totalSuccessTrans, totalTrans := [], 0, 0;
      deviceReputation, feedbackThreshold := 0.0, 0.8;
    }

    /** The position operator[] indexes: the first feature of the type. */
    method Position(typ: int) returns (pos: nat)
      ensures pos == Find(features, typ)
    {
      pos := 0;
      while pos < |features| && features[pos].typ != typ
        invariant pos <= |features|
        invariant pos + Find(features[pos..], typ) == Find(features, typ)
      {
        assert features[pos..][1..] == features[pos + 1..];
        pos := pos + 1;
      }
    }

    /** A new feature, or a new weight for one that is there. */
    method AddFeature(typ: int, weight: real) returns (added: bool)
      requires Valid()
      modifies this`features
      ensures Valid()
      ensures Abs() == Step(old(Abs()), NewFeature(typ, weight))
      ensures added <==> |features| == |old(features)| + 1
    {
      var i := 0;
      while i < |features|
        invariant i <= |features| && features == old(features)
        invariant forall j :: 0 <= j < i ==> features[j].typ != typ
      {
        if features[i].typ == typ {
          assert Find(features, typ) == i;
          features := features[i := features[i].(weight := weight)];
          return false;
        }
        i := i + 1;
      }
      features := features + [Feature(typ, weight, 0)];
      return true;
    }

    method ComputeReputationForFeature(f: Feature) returns (p: real)
      ensures p == if totalTrans == 0 then 0.0 else FeatureProb(totalSuccessTrans, f)
    {
      if totalTrans == 0 || totalSuccessTrans == 0 || f.succ == 0 {
        return 0.0;
      }
      return f.succ as real / totalSuccessTrans as real;
    }

    /** The product over the features; stored unless there was no transaction. */
    method ComputeReputation() returns (repVal: real)
      modifies this`deviceReputation
      ensures repVal == Value(old(Abs())) && Abs() == Recompute(old(Abs()))
    {
      if totalTrans == 0 {
        return 0.0;
      }
      repVal := FeatureProduct();
      deviceReputation := repVal;
    }

    method FeatureProduct() returns (repVal: real)
      requires totalTrans > 0
      ensures repVal == Value(Abs())
    {
      hide FeatureProb;
      var ratio := totalSuccessTrans as real / totalTrans as real;
      repVal := ratio;
      for i := 0 to |features|
        invariant repVal == Accumulated(ratio, totalSuccessTrans, features[..i])
      {
        assert features[..i + 1][..i] == features[..i];
        var p := ComputeReputationForFeature(features[i]);
        repVal := repVal * p;
      }
      assert features[..|features|] == features;
      AccumulatedIsProduct(ratio, totalSuccessTrans, features);
    }

    method SatisfactionScore(feedback: seq<Entry>) returns (score: real)
      requires Named(features, feedback)
      ensures score == Score(features, feedback)
    {
      score := 0.0;
      for k := 0 to |feedback|
        invariant score == Score(features, feedback[..k])
      {
        assert feedback[..k + 1][..k] == feedback[..k];
        assert Find(features, feedback[k].typ) < |features|;
        var pos := Position(feedback[k].typ);
        score := score + feedback[k].value * features[pos].weight;
      }
      assert feedback[..|feedback|] == feedback;
    }

    /** One entry: a success for its feature if it is at or above the weighted threshold. */
    method CreditEntry(e: Entry, ghost fs: seq<Feature>, ghost before: seq<Entry>)
      requires Distinct(fs) && Find(fs, e.typ) < |fs| && features == Credit(fs, feedbackThreshold, before)
      modifies this`features
      ensures features == Credit(fs, feedbackThreshold, before + [e])
    {
      hide Credit, Credits, Weighted, Bar;
      CreditShape(fs, feedbackThreshold, before);
      ShapeFind(fs, features, e.typ);
      CreditNext(fs, feedbackThreshold, before, e);
      var pos := Position(e.typ);
      var credited := IsCredited(e, features[pos].weight, fs);
      if credited {
        features := features[pos := features[pos].(succ := features[pos].succ + 1)];
      }
    }

    /** The weighted feedback against the weighted threshold. */
    method IsCredited(e: Entry, weight: real, ghost fs: seq<Feature>) returns (credited: bool)
      requires weight == WeightOf(fs, e.typ)
      ensures credited == Credited(fs, feedbackThreshold, e)
    {
      var weighted, weightedThreshold := e.value * weight, feedbackThreshold * weight;
      return weighted >= weightedThreshold;
    }

    /** One more success for each entry at or above its weighted threshold. */
    method CreditFeatures(feedback: seq<Entry>)
      requires Valid() && Named(features, feedback)
      modifies this`features
      ensures features == Credit(old(features), feedbackThreshold, feedback)
    {
      ghost var fs := features;
      assert features == Credit(fs, feedbackThreshold, []);
      for k := 0 to |feedback|
        invariant features == Credit(fs, feedbackThreshold, feedback[..k])
      {
        assert feedback[..k] + [feedback[k]] == feedback[..k + 1];
        CreditEntry(feedback[k], fs, feedback[..k]);
      }
      assert feedback[..|feedback|] == feedback;
    }

    /** A transaction: count it, score the feedback, credit the features, compute the reputation. */
    method ComputeReputationFromFeedback(feedback: seq<Entry>) returns (repVal: real)
      requires Valid() && Named(features, feedback)
      modifies this
      ensures Valid()
      ensures Abs() == Transaction(old(Abs()), feedback) && repVal == Abs().reputation
    {
      hide Score, Credits, Value, Named;
      totalTrans := totalTrans + 1;
      var score := SatisfactionScore(feedback);
      if score >= feedbackThreshold {
        totalSuccessTrans := totalSuccessTrans + 1;
        CreditFeatures(feedback);
      }
      repVal := ComputeReputation();
    }
  }

  lemma TimesAssoc(a: real, b: real, c: real)
    ensures (a * b) * c == a * (b * c)
  {
  }

  /** The order in which the loop multiplies. */
  ghost function Accumulated(ratio: real, totalSucc: nat, fs: seq<Feature>): real
  {
    if fs == [] then ratio else Accumulated(ratio, totalSucc, fs[..|fs| - 1]) * FeatureProb(totalSucc, fs[|fs| - 1])
  }

  lemma {:induction false} AccumulatedIsProduct(ratio: real, totalSucc: nat, fs: seq<Feature>)
    ensures Accumulated(ratio, totalSucc, fs) == ratio * Product(totalSucc, fs)
  {
    if fs != [] {
      AccumulatedIsProduct(ratio, totalSucc, fs[..|fs| - 1]);
      TimesAssoc(ratio, Product(totalSucc, fs[..|fs| - 1]), FeatureProb(totalSucc, fs[|fs| - 1]));
    }
  }

  lemma {:induction false} CreditShape(fs: seq<Feature>, threshold: real, fb: seq<Entry>)
    ensures SameFeatures(fs, Credit(fs, threshold, fb))
  {
  }

  /** One more entry credits one feature, or none. */
  lemma {:induction false} CreditNext(fs: seq<Feature>, threshold: real, fb: seq<Entry>, e: Entry)
    requires Distinct(fs) && Find(fs, e.typ) < |fs|
    ensures var i, before := Find(fs, e.typ), Credit(fs, threshold, fb);
            Credit(fs, threshold, fb + [e]) ==
              if Credited(fs, threshold, e) then before[i := before[i].(succ := before[i].succ + 1)] else before
  {
    var i, before, after := Find(fs, e.typ), Credit(fs, threshold, fb), Credit(fs, threshold, fb + [e]);
    forall j | 0 <= j < |fs|
      ensures after[j] == if j == i && Credited(fs, threshold, e) then before[j].(succ := before[j].succ + 1)
                          else before[j]
    {
      OneMoreEntry(fs, threshold, fb, e, fs[j].typ);
    }
  }
}
