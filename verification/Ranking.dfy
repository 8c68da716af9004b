/** Rankings of scored apps: highest score first, ties by name. */
module Ranking {
  import opened Text
  import opened Sorting
  import opened Ensemble
  import opened Artifacts

  predicate RankLe(a: AppScore, b: AppScore) {
    a.score > b.score || (a.score == b.score && Le(a.app, b.app))
  }

  lemma RankLeIsOrder()
    ensures TotalOrder(RankLe) && Antisymmetric(RankLe)
  {
    hide Le;
    forall a, b ensures RankLe(a, b) || RankLe(b, a) {
      LeTotal(a.app, b.app);
    }
    forall a, b, c | RankLe(a, b) && RankLe(b, c) ensures RankLe(a, c) {
      if a.score == b.score == c.score {
        LeTransitive(a.app, b.app, c.app);
      }
    }
    forall a, b | RankLe(a, b) && RankLe(b, a) ensures a == b {
      LeAntisymmetric(a.app, b.app);
    }
  }

  /* ----- Ranking the entries of a map ----- */

  ghost predicate IsRanking(scored: map<string, real>, ranked: seq<AppScore>) {
    && Sorted(RankLe, ranked) && Distinct(ranked)
    && forall s :: s in ranked <==> s.app in scored && scored[s.app] == s.score
  }

  lemma RankingIsUnique(scored: map<string, real>, a: seq<AppScore>, b: seq<AppScore>)
    requires IsRanking(scored, a) && IsRanking(scored, b)
    ensures a == b
  {
    RankLeIsOrder();
    SortedUnique(RankLe, a, b);
  }

  /** One more entry goes into its place. */
  lemma RankOneMore(scored: map<string, real>, ranked: seq<AppScore>, app: string, score: real)
    requires IsRanking(scored, ranked) && app !in scored
    ensures IsRanking(scored[app := score], Insert(RankLe, AppScore(app, score), ranked))
  {
    hide RankLe, Sorted, Insert;
    RankLeIsOrder();
    InsertSorted(RankLe, AppScore(app, score), ranked);
    InsertElements(RankLe, AppScore(app, score), ranked);
  }

  lemma {:induction false} RankingExists(scored: map<string, real>)
    ensures exists ranked :: IsRanking(scored, ranked)
    decreases scored.Keys
  {
    hide RankLe;
    if scored.Keys == {} {
      assert IsRanking(scored, []);
    } else {
      var app :| app in scored;
      var rest := scored - {app};
      assert rest.Keys < scored.Keys;
      RankingExists(rest);
      var ranked :| IsRanking(rest, ranked);
      RankOneMore(rest, ranked, app, scored[app]);
      assert rest[app := scored[app]] == scored;
    }
  }

  ghost function RankingOf(scored: map<string, real>): (ranked: seq<AppScore>)
    ensures IsRanking(scored, ranked)
  {
    RankingExists(scored);
    var ranked :| IsRanking(scored, ranked);
    ranked
  }

  /** The entries are collected in any order and sorted; the outcome does not depend on that order. */
  method RankEntries(scored: map<string, real>) returns (ranked: seq<AppScore>)
    ensures ranked == RankingOf(scored)
  {
    hide RankLe, Sorted;
    var entries: seq<AppScore> := [];
    var rest := scored.Keys;
    while rest != {}
      invariant rest <= scored.Keys
      invariant Distinct(entries)
      invariant forall s :: s in entries <==> s.app in scored && s.app !in rest && scored[s.app] == s.score
      decreases rest
    {
      var app :| app in rest;
      rest := rest - {app};
      entries := entries + [AppScore(app, scored[app])];
    }
    ranked := Sort(RankLe, entries);
    RankLeIsOrder();
    SortSorted(RankLe, entries);
    SortElements(RankLe, entries);
    RankingIsUnique(scored, ranked, RankingOf(scored));
  }

  /** A map whose keys are vocabulary apps ranks safely. */
  lemma RankingIsSafe(vocab: seq<string>, scored: map<string, real>)
    requires forall app :: app in scored ==> app in vocab
    ensures Safe(vocab, RankingOf(scored))
    ensures forall app :: app in scored <==> app in Apps(RankingOf(scored))
  {
    hide RankLe, RankingOf, Sorted;
    var ranked := RankingOf(scored);
    forall i | 0 <= i < |ranked| ensures ranked[i].app in scored && scored[ranked[i].app] == ranked[i].score {
      assert ranked[i] in ranked;
    }
    forall app | app in scored ensures app in Apps(ranked) {
      var s := AppScore(app, scored[app]);
      assert s in ranked;
      var i :| 0 <= i < |ranked| && ranked[i] == s;
      assert Apps(ranked)[i] == app;
    }
  }

  /* ----- Normalised exponentials ----- */

  /** The two transcendental functions. */
  datatype Numerics = Numerics(exp: real -> real, sigmoid: real -> real)

  function MaxOf(xs: seq<real>): (m: real)
    requires xs != []
  {
    if |xs| == 1 then xs[0]
    else
      var rest := MaxOf(xs[1..]);
      if xs[0] > rest then xs[0] else rest
  }

  function SumOf(xs: seq<real>): real {
    if xs == [] then 0.0 else xs[0] + SumOf(xs[1..])
  }

  function Exponentials(logits: seq<real>, num: Numerics): (r: seq<real>)
    ensures |r| == |logits|
  {
    if logits == [] then []
    else
      var max := MaxOf(logits);
      seq(|logits|, i requires 0 <= i < |logits| => num.exp(logits[i] - max))
  }

  function Shares(vocab: seq<string>, logits: seq<real>, num: Numerics): (r: seq<AppScore>)
    requires |vocab| == |logits|
    ensures |r| == |vocab|
    ensures forall i :: 0 <= i < |vocab| ==> r[i].app == vocab[i]
  {
    var exp := Exponentials(logits, num);
    var sum := SumOf(exp);
    seq(|vocab|, i requires 0 <= i < |vocab| => AppScore(vocab[i], if sum > 0.0 then exp[i] / sum else 0.0))
  }

  function RankFromLogits(vocab: seq<string>, logits: seq<real>, num: Numerics): (r: seq<AppScore>)
    requires |vocab| == |logits|
    ensures |r| == |vocab|
  {
    Sort(RankLe, Shares(vocab, logits, num))
  }

  lemma SharesAreFull(vocab: seq<string>, logits: seq<real>, num: Numerics)
    requires |vocab| == |logits| && Distinct(vocab)
    ensures Full(vocab, RankFromLogits(vocab, logits, num))
    ensures Sorted(RankLe, RankFromLogits(vocab, logits, num))
  {
    hide RankLe, Sorted;
    var shares := Shares(vocab, logits, num);
    var ranked := Sort(RankLe, shares);
    RankLeIsOrder();
    SortSorted(RankLe, shares);
    SortedAppsStayDistinct(shares, vocab);
  }

  lemma SortedAppsStayDistinct(shares: seq<AppScore>, vocab: seq<string>)
    requires |shares| == |vocab| && Distinct(vocab)
    requires forall i :: 0 <= i < |vocab| ==> shares[i].app == vocab[i]
    ensures Safe(vocab, Sort(RankLe, shares))
  {
    hide RankLe, Sort, Safe;
    SortElements(RankLe, shares);
    assert forall i, j :: 0 <= i < j < |shares| ==> shares[i].app != shares[j].app;
    SameElementsSafe(shares, Sort(RankLe, shares), vocab);
  }

  lemma SameElementsSafe(shares: seq<AppScore>, ranked: seq<AppScore>, vocab: seq<string>)
    requires |shares| == |vocab| && (forall i :: 0 <= i < |vocab| ==> shares[i].app == vocab[i])
    requires forall i, j :: 0 <= i < j < |shares| ==> shares[i].app != shares[j].app
    requires Distinct(ranked) && (forall s :: s in ranked <==> s in shares)
    ensures Safe(vocab, ranked)
  {
    forall i | 0 <= i < |ranked| ensures ranked[i] in shares && ranked[i].app in vocab {
      assert ranked[i] in ranked;
    }
    forall i, j | 0 <= i < j < |ranked| ensures ranked[i].app != ranked[j].app {
      assert ranked[i] != ranked[j];
    }
  }

  /** Normalising the scores does not change which app ranks above which. */
  lemma NormalisingKeepsOrder(vocab: seq<string>, logits: seq<real>, num: Numerics, i: nat, j: nat)
    requires |vocab| == |logits| && i < |vocab| && j < |vocab|
    requires forall x :: num.exp(x) > 0.0
    requires forall x, y :: x < y ==> num.exp(x) < num.exp(y)
    ensures Shares(vocab, logits, num)[i].score > Shares(vocab, logits, num)[j].score <==> logits[i] > logits[j]
  {
    var exp := Exponentials(logits, num);
    SumIsPositive(exp);
    var sum := SumOf(exp);
    DivisionKeepsOrder(exp[i], exp[j], sum);
    assert exp[i] > exp[j] <==> logits[i] > logits[j];
  }

  lemma {:induction false} SumIsPositive(xs: seq<real>)
    requires xs != [] && forall i :: 0 <= i < |xs| ==> xs[i] > 0.0
    ensures SumOf(xs) > 0.0
  {
    if |xs| > 1 {
      SumIsPositive(xs[1..]);
    }
  }

  lemma DivisionKeepsOrder(x: real, y: real, sum: real)
    requires sum > 0.0
    ensures x / sum > y / sum <==> x > y
  {
    var a, b := x / sum, y / sum;
    assert a * sum == x && b * sum == y;
    assert a > b ==> (a - b) * sum > 0.0;
    assert a < b ==> (b - a) * sum > 0.0;
  }
}
