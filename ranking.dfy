/** The classifier's output and the ordering both detectors put on it:
    `[...prediction].sort((a, b) => b.probability - a.probability)`, a stable sort of a copy
    by descending probability. */
module Ranking {
  import opened Seqs

  /** One entry of the classifier's output for a frame. */
  datatype Prediction = Prediction(className: string, probability: real)

  /** The confidence both detectors require before they show or accept a class. */
  const CONFIDENCE_THRESHOLD: real := 0.7

  predicate Confident(p: Prediction) {
    p.probability >= CONFIDENCE_THRESHOLD
  }

  predicate SortedByProbability(s: seq<Prediction>) {
    forall i, j :: 0 <= i < j < |s| ==> s[i].probability >= s[j].probability
  }

  /** Puts `p` in front of the first entry that it does not rank below, so `p` goes after
      every entry of strictly higher probability and before all others. */
  function Insert(p: Prediction, s: seq<Prediction>): (r: seq<Prediction>)
    ensures |r| == |s| + 1
    ensures multiset(r) == multiset(s) + multiset{p}
  {
    if s == [] || p.probability >= s[0].probability then [p] + s
    else
      assert s == [s[0]] + s[1..];
      [s[0]] + Insert(p, s[1..])
  }

  lemma {:induction false} InsertKeepsSorted(p: Prediction, s: seq<Prediction>)
    requires SortedByProbability(s)
    ensures SortedByProbability(Insert(p, s))
  {
    if s != [] && p.probability < s[0].probability {
      var rest := Insert(p, s[1..]);
      InsertKeepsSorted(p, s[1..]);
      assert Insert(p, s) == [s[0]] + rest;
      forall x | x in rest ensures x.probability <= s[0].probability {
        assert x in multiset(rest);
        assert x in s[1..] || x == p;
      }
    }
  }

  /** The stable sort by descending probability (insertion sort). */
  function SortByProbability(s: seq<Prediction>): (r: seq<Prediction>)
    ensures |r| == |s|
    ensures multiset(r) == multiset(s)
    ensures SortedByProbability(r)
  {
    if s == [] then []
    else
      assert s == [s[0]] + s[1..];
      InsertKeepsSorted(s[0], SortByProbability(s[1..]));
      Insert(s[0], SortByProbability(s[1..]))
  }

  /** The entries of `s` whose probability is exactly `v`, in order. */
  function WithProbability(s: seq<Prediction>, v: real): seq<Prediction> {
    if s == [] then []
    else (if s[0].probability == v then [s[0]] else []) + WithProbability(s[1..], v)
  }

  lemma WithProbabilityCons(x: Prediction, s: seq<Prediction>, v: real)
    ensures WithProbability([x] + s, v) == (if x.probability == v then [x] else []) + WithProbability(s, v)
  {
    assert ([x] + s)[1..] == s;
  }

  lemma {:induction false} InsertKeepsTiesInOrder(p: Prediction, s: seq<Prediction>, v: real)
    ensures WithProbability(Insert(p, s), v)
         == (if p.probability == v then [p] else []) + WithProbability(s, v)
  {
    if s == [] || p.probability >= s[0].probability {
      WithProbabilityCons(p, s, v);
    } else {
      var rest := Insert(p, s[1..]);
      assert Insert(p, s) == [s[0]] + rest;
      assert s == [s[0]] + s[1..];
      InsertKeepsTiesInOrder(p, s[1..], v);
      WithProbabilityCons(s[0], rest, v);
      WithProbabilityCons(s[0], s[1..], v);
      var head := if s[0].probability == v then [s[0]] else [];
      var mine := if p.probability == v then [p] else [];
      assert p.probability == v ==> head == [];
      assert WithProbability(Insert(p, s), v) == head + (mine + WithProbability(s[1..], v));
      assert WithProbability(s, v) == head + WithProbability(s[1..], v);
    }
  }

  /** The sort is stable: entries of equal probability keep their input order. */
  lemma {:induction false} SortIsStable(s: seq<Prediction>, v: real)
    ensures WithProbability(SortByProbability(s), v) == WithProbability(s, v)
  {
    if s != [] {
      SortIsStable(s[1..], v);
      InsertKeepsTiesInOrder(s[0], SortByProbability(s[1..]), v);
    }
  }

  /** Index of the first entry of maximal probability. */
  function FirstMaximum(s: seq<Prediction>): (k: nat)
    requires s != []
    ensures k < |s|
    ensures forall j :: 0 <= j < |s| ==> s[j].probability <= s[k].probability
    ensures forall j :: 0 <= j < k ==> s[j].probability < s[k].probability
  {
    if |s| == 1 then 0
    else
      var k := FirstMaximum(s[1..]);
      if s[0].probability >= s[k + 1].probability then 0 else k + 1
  }

  /** The detector's `sortedPredictions[0]`: an entry of the frame whose probability no other
      entry exceeds. */
  function Top(s: seq<Prediction>): (r: Prediction)
    requires s != []
    ensures r in s
    ensures forall j :: 0 <= j < |s| ==> s[j].probability <= r.probability
  {
    var sorted := SortByProbability(s);
    assert sorted[0] in multiset(s) by { assert sorted[0] in multiset(sorted); }
    forall j | 0 <= j < |s| ensures s[j].probability <= sorted[0].probability {
      assert s[j] in multiset(sorted);
      var k :| 0 <= k < |sorted| && sorted[k] == s[j];
    }
    sorted[0]
  }

  /** The head of the stable descending sort is the first entry of maximal probability. */
  lemma {:induction false} TopIsFirstMaximum(s: seq<Prediction>)
    requires s != []
    ensures Top(s) == s[FirstMaximum(s)]
  {
    if |s| > 1 {
      TopIsFirstMaximum(s[1..]);
    }
  }
}
