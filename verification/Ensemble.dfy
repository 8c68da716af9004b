/** Fitting the fusion weights of the next-app ensemble: coordinate ascent over a fixed grid. */
module Ensemble {
  import opened Wrappers
  import opened Text

  datatype AppScore = AppScore(app: string, score: real)

  /** A validation example: the app that came next, and how each component ranked its candidates. */
  datatype CachedExample = CachedExample(nextApp: string, rankings: seq<seq<AppScore>>)

  const COMPONENTS := ["naive_bayes", "markov_order2", "markov", "markov_context", "feature_lift", "recency",
                       "user_frequency", "user_recency", "popularity"]

  const START_WEIGHTS := [0.6, 1.2, 0.8, 0.5, 0.3, 0.45, 0.2, 0.2, 0.05]

  const WEIGHT_GRID := [0.0, 0.05, 0.1, 0.2, 0.4, 0.8, 1.2, 1.6, 2.0, 3.0, 4.0, 6.0, 8.0, 12.0]

  const MAX_ASCENT_SWEEPS := 6

  /* ----- The objective ----- */

  /** What one place in one component's ranking is worth. */
  function Contribution(weight: real, rank: nat, score: real): real {
    weight * (1.0 / (1.0 + rank as real) + 0.5 * score)
  }

  function AddTo(combined: map<string, real>, app: string, x: real): map<string, real> {
    combined[app := (if app in combined then combined[app] else 0.0) + x]
  }

  /** The first `n` places of a ranking, fused into `combined`. */
  function FuseRanking(combined: map<string, real>, weight: real, list: seq<AppScore>): map<string, real> {
    if list == [] then combined
    else
      var last := |list| - 1;
      AddTo(FuseRanking(combined, weight, list[..last]), list[last].app, Contribution(weight, last, list[last].score))
  }

  function Fuse(rankings: seq<seq<AppScore>>, weights: seq<real>): map<string, real>
    requires |rankings| <= |weights|
  {
    if rankings == [] then map[]
    else
      var last := |rankings| - 1;
      var combined := Fuse(rankings[..last], weights);
      if weights[last] == 0.0 then combined else FuseRanking(combined, weights[last], rankings[last])
  }

  /** `app` has the highest fused score; among equals the name that sorts first wins. */
  ghost predicate IsTop(combined: map<string, real>, app: string) {
    && app in combined
    && forall other :: other in combined ==>
         combined[other] < combined[app] || (combined[other] == combined[app] && Le(app, other))
  }

  lemma TopIsUnique(combined: map<string, real>, a: string, b: string)
    requires IsTop(combined, a) && IsTop(combined, b)
    ensures a == b
  {
    LeAntisymmetric(a, b);
  }

  ghost function HitCount(cached: seq<CachedExample>, weights: seq<real>): (n: nat)
    requires forall i :: 0 <= i < |cached| ==> |cached[i].rankings| <= |weights|
    ensures n <= |cached|
  {
    if cached == [] then 0
    else
      var last := |cached| - 1;
      HitCount(cached[..last], weights) +
      if IsTop(Fuse(cached[last].rankings, weights), cached[last].nextApp) then 1 else 0
  }

  /** The share of examples whose label comes out on top. */
  ghost function HitRate(cached: seq<CachedExample>, weights: seq<real>): real
    requires forall i :: 0 <= i < |cached| ==> |cached[i].rankings| <= |weights|
  {
    HitCount(cached, weights) as real / (if |cached| == 0 then 1 else |cached|) as real
  }

  method FindTop(combined: map<string, real>) returns (top: Option<string>)
    ensures top.None? <==> combined == map[]
    ensures top.Some? ==> IsTop(combined, top.value)
  {
    top := None;
    var rest := combined.Keys;
    while rest != {}
      invariant rest <= combined.Keys
      invariant top.None? <==> rest == combined.Keys
      invariant top.Some? ==> IsTop(map k | k in combined && k !in rest :: combined[k], top.value)
      decreases rest
    {
      ghost var seen := map k | k in combined && k !in rest :: combined[k];
      var key :| key in rest;
      rest := rest - {key};
      ghost var seen' := map k | k in combined && k !in rest :: combined[k];
      assert forall k :: k in seen' <==> k in seen || k == key;
      LeTotal(key, key);
      if top.None? || combined[top.value] < combined[key] || (combined[top.value] == combined[key] && Le(key, top.value)) {
        if top.Some? {
          BetterTop(seen, seen', top.value, key);
        } else {
          assert seen == map[];
        }
        top := Some(key);
      } else {
        LeTotal(key, top.value);
      }
    }
    assert (map k | k in combined && k !in {} :: combined[k]) == combined;
  }

  lemma BetterTop(seen: map<string, real>, seen': map<string, real>, old_top: string, key: string)
    requires IsTop(seen, old_top) && key in seen' && (forall k :: k in seen' <==> k in seen || k == key)
    requires forall k :: k in seen ==> seen'[k] == seen[k]
    requires seen[old_top] < seen'[key] || (seen[old_top] == seen'[key] && Le(key, old_top))
    ensures IsTop(seen', key)
  {
    LeTotal(key, key);
    forall other | other in seen' && seen'[other] == seen'[key] ensures Le(key, other) {
      if other != key {
        LeTransitive(key, old_top, other);
      }
    }
  }

  method FuseExample(rankings: seq<seq<AppScore>>, weights: seq<real>) returns (combined: map<string, real>)
    requires |rankings| <= |weights|
    ensures combined == Fuse(rankings, weights)
  {
    hide Contribution, AddTo;
    combined := map[];
    for c := 0 to |rankings|
      invariant combined == Fuse(rankings[..c], weights)
    {
      assert rankings[..c + 1][..c] == rankings[..c];
      if weights[c] != 0.0 {
        var list := rankings[c];
        ghost var before := combined;
        for rank := 0 to |list|
          invariant combined == FuseRanking(before, weights[c], list[..rank])
        {
          assert list[..rank + 1][..rank] == list[..rank];
          combined := AddTo(combined, list[rank].app, Contribution(weights[c], rank, list[rank].score));
        }
        assert list[..|list|] == list;
      }
    }
    assert rankings[..|rankings|] == rankings;
  }

  method WeightedHitAt1(cached: seq<CachedExample>, weights: seq<real>) returns (rate: real)
    requires forall i :: 0 <= i < |cached| ==> |cached[i].rankings| <= |weights|
    ensures rate == HitRate(cached, weights)
  {
    hide IsTop, Fuse;
    var hits := 0;
    for i := 0 to |cached|
      invariant hits == HitCount(cached[..i], weights)
    {
      assert cached[..i + 1][..i] == cached[..i];
      var combined := FuseExample(cached[i].rankings, weights);
      var top := FindTop(combined);
      LabelOnTop(combined, top, cached[i].nextApp);
      if top == Some(cached[i].nextApp) {
        hits := hits + 1;
      }
    }
    assert cached[..|cached|] == cached;
    rate := hits as real / (if |cached| == 0 then 1 else |cached|) as real;
  }

  lemma LabelOnTop(combined: map<string, real>, top: Option<string>, nextApp: string)
    requires top.None? <==> combined == map[]
    requires top.Some? ==> IsTop(combined, top.value)
    ensures top == Some(nextApp) <==> IsTop(combined, nextApp)
  {
    if IsTop(combined, nextApp) && top.Some? {
      TopIsUnique(combined, top.value, nextApp);
    }
  }

  /* ----- Coordinate ascent ----- */

  predicate Rankable(cached: seq<CachedExample>, n: nat) {
    forall i :: 0 <= i < |cached| ==> |cached[i].rankings| <= n
  }

  /** No change of this one weight to a grid value scores better than `rate`. */
  ghost predicate BestAt(cached: seq<CachedExample>, weights: seq<real>, c: nat, rate: real)
    requires Rankable(cached, |weights|) && c < |weights|
  {
    forall g :: 0 <= g < |WEIGHT_GRID| ==> HitRate(cached, weights[c := WEIGHT_GRID[g]]) <= rate
  }

  ghost predicate LocallyOptimal(cached: seq<CachedExample>, weights: seq<real>)
    requires Rankable(cached, |weights|)
  {
    forall c :: 0 <= c < |weights| ==> BestAt(cached, weights, c, HitRate(cached, weights))
  }

  ghost predicate AllNonNegative(weights: seq<real>) {
    forall c :: 0 <= c < |weights| ==> weights[c] >= 0.0
  }

  lemma GridIsNonNegative()
    ensures AllNonNegative(WEIGHT_GRID) && AllNonNegative(START_WEIGHTS)
    ensures |START_WEIGHTS| == |COMPONENTS| == 9
  {
  }

  /** A higher rate is at least one more hit. */
  lemma HigherRateMoreHits(cached: seq<CachedExample>, w: seq<real>, v: seq<real>)
    requires Rankable(cached, |w|) && |w| == |v|
    ensures HitRate(cached, w) < HitRate(cached, v) <==> HitCount(cached, w) < HitCount(cached, v)
    ensures HitRate(cached, w) == HitRate(cached, v) <==> HitCount(cached, w) == HitCount(cached, v)
  {
    RateOrder(HitCount(cached, w), HitCount(cached, v), if |cached| == 0 then 1 else |cached|);
  }

  lemma RateOrder(a: nat, b: nat, n: nat)
    requires n > 0
    ensures a as real / n as real < b as real / n as real <==> a < b
    ensures a as real / n as real == b as real / n as real <==> a == b
  {
    var x, y, m := a as real / n as real, b as real / n as real, n as real;
    assert x * m == a as real && y * m == b as real;
    assert x < y ==> (y - x) * m > 0.0;
    assert y < x ==> (x - y) * m > 0.0;
  }

  /** Tries every grid value for weight `c` and leaves the best in place. */
  method AscendCoordinate(cached: seq<CachedExample>, weights: array<real>, c: nat, bestHit0: real)
    returns (bestHit: real, improved: bool)
    requires Rankable(cached, weights.Length) && c < weights.Length
    requires bestHit0 == HitRate(cached, weights[..]) && AllNonNegative(weights[..])
    modifies weights
    ensures weights[..] == old(weights[..])[c := weights[c]] && AllNonNegative(weights[..])
    ensures bestHit == HitRate(cached, weights[..])
    ensures improved <==> bestHit > bestHit0
    ensures !improved ==> weights[..] == old(weights[..]) && bestHit == bestHit0
    ensures BestAt(cached, old(weights[..]), c, bestHit)
  {
    hide HitRate;
    GridIsNonNegative();
    ghost var base := weights[..];
    bestHit, improved := bestHit0, false;
    var original := weights[c];
    assert base[c := original] == base;
    var bestW := original;
    for g := 0 to |WEIGHT_GRID|
      invariant weights[..] == base[c := weights[c]]
      invariant bestHit == HitRate(cached, base[c := bestW])
      invariant bestW >= 0.0
      invariant improved <==> bestHit > bestHit0
      invariant !improved ==> bestW == original && bestHit == bestHit0
      invariant forall h :: 0 <= h < g ==> HitRate(cached, base[c := WEIGHT_GRID[h]]) <= bestHit
    {
      var candidate := WEIGHT_GRID[g];
      if candidate != original {
        weights[c] := candidate;
        assert weights[..] == base[c := candidate];
        var hit := WeightedHitAt1(cached, weights[..]);
        if hit > bestHit {
          bestHit, bestW, improved := hit, candidate, true;
        }
      }
    }
    weights[c] := bestW;
    assert weights[..] == base[c := bestW];
  }

  /** One sweep over all weights.  When it improves nothing, it has shown them locally optimal. */
  method Sweep(cached: seq<CachedExample>, weights: array<real>, bestHit0: real) returns (bestHit: real, improved: bool)
    requires Rankable(cached, weights.Length)
    requires bestHit0 == HitRate(cached, weights[..]) && AllNonNegative(weights[..])
    modifies weights
    ensures bestHit == HitRate(cached, weights[..]) && AllNonNegative(weights[..])
    ensures improved <==> bestHit > bestHit0
    ensures !improved ==> weights[..] == old(weights[..]) && LocallyOptimal(cached, weights[..])
  {
    hide HitRate, BestAt, AllNonNegative;
    bestHit, improved := bestHit0, false;
    for c := 0 to weights.Length
      invariant bestHit == HitRate(cached, weights[..]) && AllNonNegative(weights[..])
      invariant improved <==> bestHit > bestHit0
      invariant !improved ==> bestHit == bestHit0 && weights[..] == old(weights[..])
      invariant !improved ==> forall d :: 0 <= d < c ==> BestAt(cached, weights[..], d, bestHit)
    {
      var better;
      bestHit, better := AscendCoordinate(cached, weights, c, bestHit);
      improved := improved || better;
    }
  }

  /** The fitted weights never score below the starting ones.  Either no single weight can be
      improved on the grid any more, or every sweep that was made gained at least one hit. */
  method FitRrfCombiner(cached: seq<CachedExample>) returns (weights: seq<real>, ghost settled: bool)
    requires Rankable(cached, |COMPONENTS|)
    ensures cached == [] ==> weights == []
    ensures cached != [] ==>
              && |weights| == |COMPONENTS| == |START_WEIGHTS|
              && AllNonNegative(weights)
              && HitRate(cached, weights) >= HitRate(cached, START_WEIGHTS)
              && (settled ==> LocallyOptimal(cached, weights))
              && (!settled ==> HitCount(cached, weights) >= HitCount(cached, START_WEIGHTS) + MAX_ASCENT_SWEEPS)
  {
    hide HitRate, AllNonNegative, LocallyOptimal;
    settled := true;
    if cached == [] {
      return [], true;
    }
    GridIsNonNegative();
    var current := new real[9](i requires 0 <= i < 9 => START_WEIGHTS[i]);
    assert current[..] == START_WEIGHTS;
    var bestHit := WeightedHitAt1(cached, current[..]);
    settled := false;
    var sweep := 0;
    while sweep < MAX_ASCENT_SWEEPS
      invariant 0 <= sweep <= MAX_ASCENT_SWEEPS
      invariant bestHit == HitRate(cached, current[..]) && AllNonNegative(current[..])
      invariant HitCount(cached, current[..]) >= HitCount(cached, START_WEIGHTS) + sweep
      invariant !settled
    {
      ghost var before := current[..];
      var improved;
      bestHit, improved := Sweep(cached, current, bestHit);
      HigherRateMoreHits(cached, before, current[..]);
      if !improved {
        settled := true;
        break;
      }
      sweep := sweep + 1;
    }
    weights := current[..];
    HigherRateMoreHits(cached, START_WEIGHTS, weights);
    HigherRateMoreHits(cached, weights, START_WEIGHTS);
  }
}
