/** What fusing rankings is worth to an app, and that a better place is worth more. */
module FusionOrder {
  import opened Sorting
  import opened Ensemble
  import opened Artifacts
  import opened Ranking
  import Predictor

  /** What a place is worth: the weight times the place's reciprocal, counted from one, and half the score. */
  function Worth(weight: real, place: nat, score: real): real {
    weight * (1.0 / (1 + place) as real + score / 2.0)
  }

  /** What an app gains from one ranking: the sum of what its places are worth. */
  function Gain(list: seq<AppScore>, weight: real, app: string): real {
    if list == [] then 0.0
    else
      var last := |list| - 1;
      Gain(list[..last], weight, app) +
      if list[last].app == app then Worth(weight, last, list[last].score) else 0.0
  }

  /** What an app gains from all of them. */
  function TotalGain(rankings: seq<seq<AppScore>>, weights: seq<real>, app: string): real
    requires |rankings| <= |weights|
  {
    if rankings == [] then 0.0
    else
      var last := |rankings| - 1;
      TotalGain(rankings[..last], weights, app) + Gain(rankings[last], weights[last], app)
  }

  function ScoreIn(combined: map<string, real>, app: string): real {
    if app in combined then combined[app] else 0.0
  }

  lemma SameWorth(weight: real, rank: nat, score: real)
    ensures Contribution(weight, rank, score) == Worth(weight, rank, score)
  {
    assert 1.0 + rank as real == (1 + rank) as real;
    assert 0.5 * score == score / 2.0;
  }

  lemma {:induction false} RankingGain(combined: map<string, real>, weight: real, list: seq<AppScore>, app: string)
    ensures ScoreIn(FuseRanking(combined, weight, list), app) == ScoreIn(combined, app) + Gain(list, weight, app)
    ensures app in FuseRanking(combined, weight, list) <==> app in combined || app in Apps(list)
  {
    hide Contribution, Worth, Apps;
    if list == [] {
      NoApps();
    } else {
      var last := |list| - 1;
      RankingGain(combined, weight, list[..last], app);
      SameWorth(weight, last, list[last].score);
      LastApp(list);
    }
  }

  lemma NoApps()
    ensures Apps([]) == []
  {
  }

  lemma LastApp(list: seq<AppScore>)
    requires list != []
    ensures Apps(list) == Apps(list[..|list| - 1]) + [list[|list| - 1].app]
  {
  }

  lemma {:induction false} NoWeightNoGain(list: seq<AppScore>, app: string)
    ensures Gain(list, 0.0, app) == 0.0
  {
    if list != [] {
      NoWeightNoGain(list[..|list| - 1], app);
    }
  }

  /** A fused score is the sum of what every place is worth, for any rankings and weights; and exactly the apps
      that a component of some weight lists have one. */
  lemma {:induction false} FusedScoreIsTotalGain(rankings: seq<seq<AppScore>>, weights: seq<real>, app: string)
    requires |rankings| <= |weights|
    ensures ScoreIn(Fuse(rankings, weights), app) == TotalGain(rankings, weights, app)
    ensures app in Fuse(rankings, weights) <==>
            exists c :: 0 <= c < |rankings| && weights[c] != 0.0 && app in Apps(rankings[c])
  {
    hide FuseRanking, Gain, Apps;
    if rankings != [] {
      var last := |rankings| - 1;
      var init := rankings[..last];
      FusedScoreIsTotalGain(init, weights, app);
      assert forall c :: 0 <= c < last ==> rankings[c] == init[c];
      if weights[last] == 0.0 {
        NoWeightNoGain(rankings[last], app);
      } else {
        RankingGain(Fuse(init, weights), weights[last], rankings[last], app);
      }
    }
  }

  /* ----- One ranking keeps its order ----- */

  lemma {:induction false} GainOfAbsent(list: seq<AppScore>, weight: real, app: string)
    requires app !in Apps(list)
    ensures Gain(list, weight, app) == 0.0
  {
    if list != [] {
      var last := |list| - 1;
      assert Apps(list) == Apps(list[..last]) + [list[last].app];
      GainOfAbsent(list[..last], weight, app);
    }
  }

  /** In a ranking of distinct apps each app gains what its own place is worth. */
  lemma {:induction false} GainOfListed(list: seq<AppScore>, weight: real, i: nat)
    requires Distinct(Apps(list)) && i < |list|
    ensures Gain(list, weight, list[i].app) == Worth(weight, i, list[i].score)
  {
    hide Worth;
    var last := |list| - 1;
    var init := list[..last];
    assert Apps(list) == Apps(init) + [list[last].app];
    DistinctInit(list);
    if i < last {
      assert Apps(list)[i] != Apps(list)[last];
      GainOfListed(init, weight, i);
    } else {
      GainOfAbsent(init, weight, list[last].app);
    }
  }

  lemma DistinctInit(list: seq<AppScore>)
    requires Distinct(Apps(list)) && list != []
    ensures Distinct(Apps(list[..|list| - 1]))
    ensures list[|list| - 1].app !in Apps(list[..|list| - 1])
  {
    var init := list[..|list| - 1];
    forall i, j | 0 <= i < j < |init| ensures Apps(init)[i] != Apps(init)[j] {
      assert Apps(list)[i] != Apps(list)[j];
    }
    forall i | 0 <= i < |init| ensures Apps(init)[i] != list[|list| - 1].app {
      assert Apps(list)[i] != Apps(list)[|list| - 1];
    }
  }

  lemma ReciprocalFalls(a: nat, b: nat)
    requires 1 <= a < b
    ensures 1.0 / a as real > 1.0 / b as real
  {
    var x, y, p, q := 1.0 / a as real, 1.0 / b as real, a as real, b as real;
    assert x * p == 1.0 && y * q == 1.0;
    Reciprocals(x, y, p, q);
    PositiveFactor(x - y, p * q);
  }

  lemma Reciprocals(x: real, y: real, p: real, q: real)
    requires x * p == 1.0 && y * q == 1.0 && 0.0 < p < q
    ensures p * q > 0.0 && (x - y) * (p * q) > 0.0
  {
    assert (x - y) * (p * q) == (x * p) * q - (y * q) * p;
  }

  lemma PositiveFactor(d: real, m: real)
    requires m > 0.0 && d * m > 0.0
    ensures d > 0.0
  {
  }

  lemma Scaled(weight: real, x: real, y: real)
    requires weight > 0.0 && x > y
    ensures weight * x > weight * y
  {
    assert weight * (x - y) > 0.0;
  }

  /** An earlier place is worth more, as long as scores do not increase. */
  lemma EarlierIsWorthMore(list: seq<AppScore>, weight: real, i: nat, j: nat)
    requires weight > 0.0 && i < j < |list| && list[i].score >= list[j].score
    ensures Worth(weight, i, list[i].score) > Worth(weight, j, list[j].score)
  {
    ReciprocalFalls(1 + i, 1 + j);
    Scaled(weight, 1.0 / (1 + i) as real + list[i].score / 2.0, 1.0 / (1 + j) as real + list[j].score / 2.0);
  }

  /** The places of a ranking with what they are worth instead of their scores. */
  function Reworth(list: seq<AppScore>, weight: real): (r: seq<AppScore>)
    ensures |r| == |list|
    ensures forall i :: 0 <= i < |list| ==> r[i] == AppScore(list[i].app, Worth(weight, i, list[i].score))
  {
    seq(|list|, i requires 0 <= i < |list| => AppScore(list[i].app, Worth(weight, i, list[i].score)))
  }

  /** Fusing a single ranking of distinct apps whose scores never increase leaves it in its order; in
      particular its first app is on top. */
  lemma OneRankingKeepsOrder(list: seq<AppScore>, weight: real)
    requires weight > 0.0 && Distinct(Apps(list))
    requires forall i, j :: 0 <= i < j < |list| ==> list[i].score >= list[j].score
    ensures Apps(RankingOf(Fuse([list], [weight]))) == Apps(list)
    ensures list != [] ==> IsTop(Fuse([list], [weight]), list[0].app)
  {
    hide Worth, FuseRanking, RankingOf, IsTop, Gain, RankLe, Contribution, AddTo;
    var combined, worth := Fuse([list], [weight]), Reworth(list, weight);
    forall i, j | 0 <= i < j < |list| ensures worth[i].score > worth[j].score {
      EarlierIsWorthMore(list, weight, i, j);
    }
    WorthIsSorted(worth);
    forall app ensures app in combined <==> app in Apps(list) {
      FusedScoreIsTotalGain([list], [weight], app);
    }
    forall i | 0 <= i < |list| ensures list[i].app in combined && combined[list[i].app] == worth[i].score {
      assert Apps(list)[i] in Apps(list);
      FusedScoreIsTotalGain([list], [weight], list[i].app);
      OneGain(list, weight, list[i].app);
      GainOfListed(list, weight, i);
    }
    WorthIsRanking(combined, list, worth);
    RankingIsUnique(combined, worth, RankingOf(combined));
    if list != [] {
      assert Apps(list)[0] in Apps(list);
      Predictor.FirstIsTop(combined);
    }
  }

  lemma OneGain(list: seq<AppScore>, weight: real, app: string)
    ensures TotalGain([list], [weight], app) == Gain(list, weight, app)
  {
    assert [list][..0] == [];
  }

  lemma WorthIsSorted(worth: seq<AppScore>)
    requires forall i, j :: 0 <= i < j < |worth| ==> worth[i].score > worth[j].score
    ensures Sorted(RankLe, worth)
  {
  }

  lemma WorthIsRanking(combined: map<string, real>, list: seq<AppScore>, worth: seq<AppScore>)
    requires |worth| == |list| && Sorted(RankLe, worth) && Distinct(Apps(list))
    requires forall i :: 0 <= i < |list| ==> worth[i].app == list[i].app
    requires forall app :: app in combined <==> app in Apps(list)
    requires forall i :: 0 <= i < |list| ==> list[i].app in combined && combined[list[i].app] == worth[i].score
    ensures IsRanking(combined, worth)
  {
    hide RankLe;
    forall i, j | 0 <= i < j < |worth| ensures worth[i] != worth[j] {
      assert Apps(list)[i] != Apps(list)[j];
    }
    forall s: AppScore | s.app in combined && combined[s.app] == s.score ensures s in worth {
      var i :| 0 <= i < |list| && Apps(list)[i] == s.app;
      assert worth[i] == s;
    }
  }

  /* ----- Swapping neighbours ----- */

  /** The list with places `i` and `i + 1` exchanged. */
  function Swapped(list: seq<AppScore>, i: nat): (r: seq<AppScore>)
    requires i + 1 < |list|
    ensures |r| == |list|
  {
    list[i := list[i + 1]][i + 1 := list[i]]
  }

  /** What a neighbour gains by moving up to place `i`. */
  function Step(weight: real, i: nat, score: real): real {
    Worth(weight, i, score) - Worth(weight, i + 1, score)
  }

  lemma {:induction false} GainAfterSwap(list: seq<AppScore>, weight: real, i: nat, app: string)
    requires i + 1 < |list| && list[i].score == list[i + 1].score && list[i].app != list[i + 1].app
    ensures Gain(Swapped(list, i), weight, app) - Gain(list, weight, app) ==
            (if app == list[i + 1].app then Step(weight, i, list[i].score)
             else if app == list[i].app then -Step(weight, i, list[i].score)
             else 0.0)
  {
    hide Worth;
    var swapped, last := Swapped(list, i), |list| - 1;
    if i + 1 < last {
      GainAfterSwap(list[..last], weight, i, app);
      assert swapped[..last] == Swapped(list[..last], i);
      assert swapped[last] == list[last];
    } else {
      hide Gain;
      TwoLastGains(list[..i], list[i], list[i + 1], weight, app);
      TwoLastGains(list[..i], list[i + 1], list[i], weight, app);
      assert list == list[..i] + [list[i], list[i + 1]];
      assert swapped == list[..i] + [list[i + 1], list[i]];
    }
  }

  lemma TwoLastGains(init: seq<AppScore>, a: AppScore, b: AppScore, weight: real, app: string)
    ensures Gain(init + [a, b], weight, app) == Gain(init, weight, app) +
            (if a.app == app then Worth(weight, |init|, a.score) else 0.0) +
            (if b.app == app then Worth(weight, |init| + 1, b.score) else 0.0)
  {
    hide Worth;
    var list := init + [a, b];
    assert list[..|init| + 1] == init + [a];
    assert (init + [a])[..|init|] == init;
  }

  lemma {:induction false} TotalAfterChange(rankings: seq<seq<AppScore>>, weights: seq<real>, c: nat, list: seq<AppScore>, app: string)
    requires |rankings| <= |weights| && c < |rankings|
    ensures TotalGain(rankings[c := list], weights, app) - TotalGain(rankings, weights, app) ==
            Gain(list, weights[c], app) - Gain(rankings[c], weights[c], app)
  {
    hide Gain;
    var last := |rankings| - 1;
    if c < last {
      TotalAfterChange(rankings[..last], weights, c, list, app);
      assert rankings[c := list][..last] == rankings[..last][c := list];
    } else {
      assert rankings[c := list][..last] == rankings[..last];
    }
  }

  lemma StepIsPositive(weight: real, i: nat, score: real)
    requires weight > 0.0
    ensures Step(weight, i, score) > 0.0
  {
    ReciprocalFalls(1 + i, 2 + i);
    Scaled(weight, 1.0 / (1 + i) as real + score / 2.0, 1.0 / (2 + i) as real + score / 2.0);
  }

  /** Exchanging two neighbours with equal scores in one component's ranking raises the fused score of the app
      that moves up, lowers the other's by as much, and touches no third. */
  lemma MovingUpPays(rankings: seq<seq<AppScore>>, weights: seq<real>, c: nat, i: nat)
    requires |rankings| <= |weights| && c < |rankings| && weights[c] > 0.0
    requires i + 1 < |rankings[c]|
    requires rankings[c][i].score == rankings[c][i + 1].score && rankings[c][i].app != rankings[c][i + 1].app
    ensures var before, after := Fuse(rankings, weights), Fuse(rankings[c := Swapped(rankings[c], i)], weights);
            var up, down := rankings[c][i + 1].app, rankings[c][i].app;
            && ScoreIn(after, up) > ScoreIn(before, up)
            && ScoreIn(after, down) < ScoreIn(before, down)
            && ScoreIn(after, up) - ScoreIn(before, up) == ScoreIn(before, down) - ScoreIn(after, down)
            && forall app :: app != up && app != down ==> ScoreIn(after, app) == ScoreIn(before, app)
  {
    hide Fuse, TotalGain, Gain, Swapped, Step;
    var list, swapped := rankings[c], Swapped(rankings[c], i);
    StepIsPositive(weights[c], i, list[i].score);
    forall app ensures ScoreIn(Fuse(rankings[c := swapped], weights), app) - ScoreIn(Fuse(rankings, weights), app) ==
                       Gain(swapped, weights[c], app) - Gain(list, weights[c], app)
    {
      FusedScoreIsTotalGain(rankings, weights, app);
      FusedScoreIsTotalGain(rankings[c := swapped], weights, app);
      TotalAfterChange(rankings, weights, c, swapped, app);
    }
    forall app { GainAfterSwap(list, weights[c], i, app); }
    GainAfterSwap(list, weights[c], i, list[i].app);
    GainAfterSwap(list, weights[c], i, list[i + 1].app);
  }
}
