/** The next-app predictor: the rankings a loaded artifact gives, and what every ranking keeps to. */
module Predictor {
  import opened Wrappers
  import opened Text
  import opened Sorting
  import opened Ensemble
  import opened Artifacts
  import opened Ranking
  import opened Bridge

  datatype Features = Features(
    userId: Option<string>,
    currentApp: Option<string>,
    history: seq<string>,
    hourBucket: Option<nat>,
    weekday: Option<nat>,
    eventType: Option<string>)

  datatype Algorithm = NaiveBayes | Markov | FeatureLift | Fusion

  datatype Predictor = Predictor(artifact: Artifact, appIndex: map<string, nat>) {
    /** The artifact passed the validator, and the index is its vocabulary turned round. */
    ghost predicate Loaded() {
      && ValidArtifact(artifact)
      && (forall app :: app in appIndex <==> app in artifact.appVocab)
      && (forall i :: 0 <= i < |artifact.appVocab| ==> appIndex[artifact.appVocab[i]] == i)
    }
  }

  method Load(artifact: Artifact) returns (loaded: Option<Predictor>)
    ensures loaded.Some? <==> ValidArtifact(artifact)
    ensures loaded.Some? ==> loaded.value.Loaded() && loaded.value.artifact == artifact
  {
    hide Safe, ValidCombiner, FeatureNames, KeyedByApp, AllSafe, ValidSizes;
    var ok := ValidateArtifact(artifact);
    if !ok {
      return None;
    }
    var vocab := artifact.appVocab;
    var appIndex: map<string, nat> := map[];
    for i := 0 to |vocab|
      invariant forall app :: app in appIndex <==> app in vocab[..i]
      invariant forall j :: 0 <= j < i ==> appIndex[vocab[j]] == j
    {
      appIndex := appIndex[vocab[i] := i];
    }
    assert vocab[..|vocab|] == vocab;
    loaded := Some(Predictor(artifact, appIndex));
  }

  /* ----- Features ----- */

  function Last(s: seq<string>): Option<string> {
    if s == [] then None else Some(s[|s| - 1])
  }

  function OneKey(name: string, value: Option<string>): seq<string> {
    if value.None? then [] else [name + "=" + value.value]
  }

  function Printed(n: Option<nat>): Option<string> {
    if n.None? then None else Some(Decimal(n.value))
  }

  /** The last `n` apps of the history, newest first. */
  function HistoryKeys(history: seq<string>, from: nat): seq<string>
    decreases 3 - from
  {
    if from >= 3 || from >= |history| then []
    else ["hist" + Decimal(from) + "=" + history[|history| - 1 - from]] + HistoryKeys(history, from + 1)
  }

  function FeatureKeys(f: Features): seq<string> {
    OneKey("user", f.userId) + OneKey("current", f.currentApp) + OneKey("prev", Last(f.history)) +
    HistoryKeys(f.history, 0) +
    OneKey("hour", Printed(f.hourBucket)) + OneKey("weekday", Printed(f.weekday)) + OneKey("event", f.eventType)
  }

  function PairKey(first: string, second: string): string {
    first + "\t" + second
  }

  /** The newest app in the history that is not the current one. */
  function PreviousApp(history: seq<string>, current: string): Option<string> {
    if history == [] then None
    else
      var last := |history| - 1;
      if history[last] != current then Some(history[last]) else PreviousApp(history[..last], current)
  }

  /** Entry `i` is not the current app, and all newer ones are. */
  predicate IsNewestOther(history: seq<string>, current: string, i: int) {
    0 <= i < |history| && history[i] != current && forall j :: i < j < |history| ==> history[j] == current
  }

  lemma {:induction false} PreviousAppIsNewest(history: seq<string>, current: string)
    ensures PreviousApp(history, current).None? <==> forall i :: 0 <= i < |history| ==> history[i] == current
    ensures PreviousApp(history, current).Some? ==>
              exists i :: IsNewestOther(history, current, i) && history[i] == PreviousApp(history, current).value
  {
    if history != [] {
      var n := |history| - 1;
      var init := history[..n];
      if history[n] != current {
        assert IsNewestOther(history, current, n);
      } else {
        PreviousAppIsNewest(init, current);
        assert forall i :: 0 <= i < n ==> history[i] == init[i];
        if PreviousApp(init, current).Some? {
          var i :| IsNewestOther(init, current, i) && init[i] == PreviousApp(init, current).value;
          assert IsNewestOther(history, current, i);
        }
      }
    }
  }

  /** The context table files hours and weekdays under keys of the same shape, so that an hour and a
      weekday with the same number share one entry. */
  lemma HourAndWeekdayShareKeys(current: string, hour: nat, weekday: nat)
    ensures PairKey(current, Decimal(hour)) == PairKey(current, Decimal(weekday)) <==> hour == weekday
  {
    hide Decimal, ReadDecimal;
    NumberReadsBack(hour);
    NumberReadsBack(weekday);
    if PairKey(current, Decimal(hour)) == PairKey(current, Decimal(weekday)) {
      SamePrefix(current + "\t", Decimal(hour), Decimal(weekday));
    }
  }

  /* ----- Naive Bayes ----- */

  function LogProbs(a: Artifact, key: string): seq<real> {
    if key in a.featureLogProbs then a.featureLogProbs[key] else a.unknownLogProbs
  }

  ghost function NaiveBayesLogit(a: Artifact, keys: seq<string>, i: nat): real
    requires ValidSizes(a) && i < |a.appVocab|
  {
    if keys == [] then a.classLogPriors[i]
    else NaiveBayesLogit(a, keys[..|keys| - 1], i) + LogProbs(a, keys[|keys| - 1])[i]
  }

  ghost function NaiveBayesLogits(a: Artifact, keys: seq<string>): (r: seq<real>)
    requires ValidSizes(a)
    ensures |r| == |a.appVocab|
  {
    seq(|a.appVocab|, i requires 0 <= i < |a.appVocab| => NaiveBayesLogit(a, keys, i))
  }

  ghost function NaiveBayesRanking(a: Artifact, num: Numerics, f: Features): seq<AppScore>
    requires ValidSizes(a)
  {
    RankFromLogits(a.appVocab, NaiveBayesLogits(a, FeatureKeys(f)), num)
  }

  method AddVec(target: array<real>, values: seq<real>)
    modifies target
    ensures forall i :: 0 <= i < target.Length ==>
              target[i] == old(target[i]) + if i < |values| then values[i] else 0.0
  {
    var n := if target.Length < |values| then target.Length else |values|;
    for i := 0 to n
      invariant forall j :: 0 <= j < i ==> target[j] == old(target[j]) + values[j]
      invariant forall j :: i <= j < target.Length ==> target[j] == old(target[j])
    {
      target[i] := target[i] + values[i];
    }
  }

  method RankNaiveBayes(p: Predictor, num: Numerics, f: Features) returns (ranked: seq<AppScore>)
    requires ValidSizes(p.artifact)
    ensures ranked == NaiveBayesRanking(p.artifact, num, f)
  {
    hide FeatureKeys, RankFromLogits;
    var a, keys := p.artifact, FeatureKeys(f);
    var n := |a.appVocab|;
    var scores := new real[n](i requires 0 <= i < n => a.classLogPriors[i]);
    for k := 0 to |keys|
      invariant forall i :: 0 <= i < n ==> scores[i] == NaiveBayesLogit(a, keys[..k], i)
    {
      assert keys[..k + 1][..k] == keys[..k];
      AddVec(scores, LogProbs(a, keys[k]));
    }
    assert keys[..|keys|] == keys;
    assert scores[..] == NaiveBayesLogits(a, keys);
    ranked := RankFromLogits(a.appVocab, scores[..], num);
  }

  /* ----- Feature lift ----- */

  /** What a list of scores adds for one app. */
  function SumFor(scores: seq<AppScore>, app: string): real {
    if scores == [] then 0.0
    else
      var last := |scores| - 1;
      SumFor(scores[..last], app) + if scores[last].app == app then scores[last].score else 0.0
  }

  /** What the trees with an active feature add for one app. */
  function Lift(trees: seq<Tree>, active: seq<string>, app: string): real {
    if trees == [] then 0.0
    else
      var last := |trees| - 1;
      Lift(trees[..last], active, app) +
      if trees[last].featureKey in active then SumFor(trees[last].yesScores, app) else 0.0
  }

  ghost function FeatureLiftLogits(a: Artifact, active: seq<string>): (r: seq<real>)
    requires ValidSizes(a)
    ensures |r| == |a.appVocab|
  {
    seq(|a.appVocab|, i requires 0 <= i < |a.appVocab| => a.baseScores[i] + Lift(a.trees, active, a.appVocab[i]))
  }

  ghost function FeatureLiftRanking(a: Artifact, num: Numerics, f: Features): seq<AppScore>
    requires ValidSizes(a)
  {
    RankFromLogits(a.appVocab, FeatureLiftLogits(a, FeatureKeys(f)), num)
  }

  /** Adds each score at the place of its app, in place. */
  method AddTree(p: Predictor, scores: array<real>, yes: seq<AppScore>)
    requires p.Loaded() && scores.Length == |p.artifact.appVocab|
    modifies scores
    ensures forall i :: 0 <= i < scores.Length ==> scores[i] == old(scores[i]) + SumFor(yes, p.artifact.appVocab[i])
  {
    hide ValidArtifact;
    var vocab := p.artifact.appVocab;
    for t := 0 to |yes|
      invariant forall i :: 0 <= i < scores.Length ==> scores[i] == old(scores[i]) + SumFor(yes[..t], vocab[i])
    {
      assert yes[..t + 1][..t] == yes[..t];
      var app := yes[t].app;
      if app in p.appIndex {
        var index := p.appIndex[app];
        assert exists i :: 0 <= i < |vocab| && vocab[i] == app;
        scores[index] := scores[index] + yes[t].score;
      }
    }
    assert yes[..|yes|] == yes;
  }

  method RankFeatureLift(p: Predictor, num: Numerics, f: Features) returns (ranked: seq<AppScore>)
    requires p.Loaded()
    ensures ranked == FeatureLiftRanking(p.artifact, num, f)
  {
    hide FeatureKeys, RankFromLogits, SumFor, Full, AllSafe, ValidCombiner, ValidLogistic, KeyedByApp, Distinct;
    var a, active := p.artifact, FeatureKeys(f);
    var n := |a.appVocab|;
    var scores := new real[n](i requires 0 <= i < n => a.baseScores[i]);
    for t := 0 to |a.trees|
      invariant forall i :: 0 <= i < n ==> scores[i] == a.baseScores[i] + Lift(a.trees[..t], active, a.appVocab[i])
    {
      assert a.trees[..t + 1][..t] == a.trees[..t];
      if a.trees[t].featureKey in active {
        AddTree(p, scores, a.trees[t].yesScores);
      }
    }
    assert a.trees[..|a.trees|] == a.trees;
    assert scores[..] == FeatureLiftLogits(a, active);
    ranked := RankFromLogits(a.appVocab, scores[..], num);
  }

  /* ----- Table lookups ----- */

  function Lookup(tables: map<string, seq<AppScore>>, key: Option<string>): Option<seq<AppScore>> {
    if key.Some? && key.value in tables then Some(tables[key.value]) else None
  }

  function UserKey(f: Features): Option<string> {
    if f.userId.Some? && f.currentApp.Some? then Some(PairKey(f.userId.value, f.currentApp.value)) else None
  }

  function Order2Key(f: Features): Option<string> {
    if f.currentApp.None? then None
    else
      var previous := PreviousApp(f.history, f.currentApp.value);
      if previous.None? then None else Some(PairKey(previous.value, f.currentApp.value))
  }

  function ContextKey(f: Features, number: Option<nat>): Option<string> {
    if f.currentApp.Some? && number.Some? then Some(PairKey(f.currentApp.value, Decimal(number.value))) else None
  }

  function OrElse(a: Option<seq<AppScore>>, b: seq<AppScore>): seq<AppScore> {
    if a.Some? then a.value else b
  }

  function MarkovRanking(a: Artifact, f: Features): seq<AppScore> {
    OrElse(Lookup(a.userTransitions, UserKey(f)),
           OrElse(Lookup(a.globalTransitions, f.currentApp),
                  OrElse(Lookup(a.globalTransitions, Last(f.history)), a.globalPopularity)))
  }

  function Order2Ranking(a: Artifact, f: Features): seq<AppScore> {
    OrElse(Lookup(a.order2Transitions, Order2Key(f)), [])
  }

  function RecencyRanking(a: Artifact, f: Features): seq<AppScore> {
    OrElse(Lookup(a.userTransitions, UserKey(f)), [])
  }

  function UserFrequencyRanking(a: Artifact, f: Features): seq<AppScore> {
    OrElse(Lookup(a.userFrequency, f.userId), [])
  }

  function UserRecencyRanking(a: Artifact, f: Features): seq<AppScore> {
    if UserKey(f).Some? && UserKey(f).value in a.userRecency
    then [AppScore(a.userRecency[UserKey(f).value], 1.0)]
    else []
  }

  /* ----- Adding scores by app ----- */

  function Weighted(weight: real, score: real): real {
    weight * score
  }

  function AddScores(combined: map<string, real>, weight: real, scores: seq<AppScore>): map<string, real> {
    if scores == [] then combined
    else
      var last := |scores| - 1;
      AddTo(AddScores(combined, weight, scores[..last]), scores[last].app, Weighted(weight, scores[last].score))
  }

  method Accumulate(combined: map<string, real>, weight: real, scores: seq<AppScore>) returns (r: map<string, real>)
    ensures r == AddScores(combined, weight, scores)
  {
    hide AddTo, Weighted;
    r := combined;
    for i := 0 to |scores|
      invariant r == AddScores(combined, weight, scores[..i])
    {
      assert scores[..i + 1][..i] == scores[..i];
      r := AddTo(r, scores[i].app, Weighted(weight, scores[i].score));
    }
    assert scores[..|scores|] == scores;
  }

  ghost predicate KeysIn(vocab: seq<string>, combined: map<string, real>) {
    forall app :: app in combined ==> app in vocab
  }

  lemma {:induction false} AddScoresKeys(vocab: seq<string>, combined: map<string, real>, weight: real, scores: seq<AppScore>)
    requires KeysIn(vocab, combined) && Safe(vocab, scores)
    ensures KeysIn(vocab, AddScores(combined, weight, scores))
  {
    if scores != [] {
      var last := |scores| - 1;
      SafePrefix(vocab, scores);
      AddScoresKeys(vocab, combined, weight, scores[..last]);
    }
  }

  lemma SafePrefix(vocab: seq<string>, scores: seq<AppScore>)
    requires Safe(vocab, scores) && scores != []
    ensures Safe(vocab, scores[..|scores| - 1]) && scores[|scores| - 1].app in vocab
  {
    var init := scores[..|scores| - 1];
    assert Apps(scores)[|scores| - 1] in Apps(scores);
    assert forall i :: 0 <= i < |init| ==> Apps(init)[i] == Apps(scores)[i] && Apps(scores)[i] in Apps(scores);
  }

  lemma {:induction false} FuseRankingKeys(vocab: seq<string>, combined: map<string, real>, weight: real, list: seq<AppScore>)
    requires KeysIn(vocab, combined) && Safe(vocab, list)
    ensures KeysIn(vocab, FuseRanking(combined, weight, list))
  {
    if list != [] {
      var last := |list| - 1;
      SafePrefix(vocab, list);
      FuseRankingKeys(vocab, combined, weight, list[..last]);
    }
  }

  lemma {:induction false} FuseKeys(vocab: seq<string>, rankings: seq<seq<AppScore>>, weights: seq<real>)
    requires |rankings| <= |weights| && forall c :: 0 <= c < |rankings| ==> Safe(vocab, rankings[c])
    ensures KeysIn(vocab, Fuse(rankings, weights))
  {
    hide Safe, FuseRanking;
    if rankings != [] {
      var last := |rankings| - 1;
      FuseKeys(vocab, rankings[..last], weights);
      FuseRankingKeys(vocab, Fuse(rankings[..last], weights), weights[last], rankings[last]);
    }
  }

  /* ----- Markov by context ----- */

  ghost function ContextRanking(a: Artifact, f: Features): seq<AppScore> {
    var hour := Lookup(a.markovContext, ContextKey(f, f.hourBucket));
    var weekday := Lookup(a.markovContext, ContextKey(f, f.weekday));
    if hour.None? && weekday.None? then []
    else RankingOf(AddScores(AddScores(map[], 1.0, OrElse(hour, [])), 1.0, OrElse(weekday, [])))
  }

  method RankMarkovContext(p: Predictor, f: Features) returns (ranked: seq<AppScore>)
    ensures ranked == ContextRanking(p.artifact, f)
  {
    hide Decimal, RankingOf;
    if f.currentApp.None? {
      return [];
    }
    var combined: map<string, real> := map[];
    var found := false;
    var hour := Lookup(p.artifact.markovContext, ContextKey(f, f.hourBucket));
    if hour.Some? {
      combined := Accumulate(combined, 1.0, hour.value);
      found := true;
    }
    var weekday := Lookup(p.artifact.markovContext, ContextKey(f, f.weekday));
    if weekday.Some? {
      combined := Accumulate(combined, 1.0, weekday.value);
      found := true;
    }
    if !found {
      return [];
    }
    ranked := RankEntries(combined);
  }

  /* ----- The nine components ----- */

  ghost function ComponentRanking(a: Artifact, num: Numerics, f: Features, c: nat): seq<AppScore>
    requires ValidSizes(a) && c < 9
  {
    match c
    case 0 => NaiveBayesRanking(a, num, f)
    case 1 => Order2Ranking(a, f)
    case 2 => MarkovRanking(a, f)
    case 3 => ContextRanking(a, f)
    case 4 => FeatureLiftRanking(a, num, f)
    case 5 => RecencyRanking(a, f)
    case 6 => UserFrequencyRanking(a, f)
    case 7 => UserRecencyRanking(a, f)
    case _ => a.globalPopularity
  }

  ghost function AllRankings(a: Artifact, num: Numerics, f: Features): (r: seq<seq<AppScore>>)
    requires ValidSizes(a)
    ensures |r| == 9
  {
    seq(9, c requires 0 <= c < 9 => ComponentRanking(a, num, f, c))
  }

  method RankComponent(p: Predictor, num: Numerics, f: Features, c: nat) returns (ranked: seq<AppScore>)
    requires p.Loaded() && c < 9
    ensures ranked == ComponentRanking(p.artifact, num, f, c)
  {
    hide NaiveBayesRanking, FeatureLiftRanking, ContextRanking, Safe, AllSafe, Distinct, KeyedByApp, ValidCombiner, ValidLogistic;
    match c
    case 0 => ranked := RankNaiveBayes(p, num, f);
    case 1 => ranked := Order2Ranking(p.artifact, f);
    case 2 => ranked := MarkovRanking(p.artifact, f);
    case 3 => ranked := RankMarkovContext(p, f);
    case 4 => ranked := RankFeatureLift(p, num, f);
    case 5 => ranked := RecencyRanking(p.artifact, f);
    case 6 => ranked := UserFrequencyRanking(p.artifact, f);
    case 7 => ranked := UserRecencyRanking(p.artifact, f);
    case _ => ranked := p.artifact.globalPopularity;
  }

  method ComponentRankings(p: Predictor, num: Numerics, f: Features) returns (rankings: seq<seq<AppScore>>)
    requires p.Loaded()
    ensures rankings == AllRankings(p.artifact, num, f)
  {
    hide ComponentRanking, Safe, AllSafe, Distinct, KeyedByApp, ValidCombiner, ValidLogistic;
    rankings := [];
    for c := 0 to 9
      invariant |rankings| == c
      invariant forall d :: 0 <= d < c ==> rankings[d] == ComponentRanking(p.artifact, num, f, d)
    {
      var ranked := RankComponent(p, num, f, c);
      rankings := rankings + [ranked];
    }
  }

  /* ----- Ensembles ----- */

  ghost function LegacyScores(a: Artifact, num: Numerics, f: Features): map<string, real>
    requires ValidSizes(a)
  {
    AddScores(AddScores(AddScores(map[], 0.3, NaiveBayesRanking(a, num, f)), 0.4, MarkovRanking(a, f)),
              0.3, FeatureLiftRanking(a, num, f))
  }

  method RankEnsembleLegacy(p: Predictor, num: Numerics, f: Features) returns (ranked: seq<AppScore>)
    requires p.Loaded()
    ensures ranked == RankingOf(LegacyScores(p.artifact, num, f))
  {
    hide NaiveBayesRanking, FeatureLiftRanking, MarkovRanking, AddScores, RankingOf;
    hide Safe, AllSafe, Distinct, KeyedByApp, ValidCombiner, ValidLogistic;
    var scores := RankNaiveBayes(p, num, f);
    var combined := Accumulate(map[], 0.3, scores);
    combined := Accumulate(combined, 0.4, MarkovRanking(p.artifact, f));
    scores := RankFeatureLift(p, num, f);
    combined := Accumulate(combined, 0.3, scores);
    ranked := RankEntries(combined);
  }

  /** The weight listed beside a component's first mention. */
  function WeightOf(c: Combiner, component: string): Option<real>
    requires |c.components| <= |c.weights|
    decreases |c.components|
  {
    if c.components == [] then None
    else if c.components[0] == component then Some(c.weights[0])
    else WeightOf(Combiner(c.components[1..], c.weights[1..]), component)
  }

  /** The weight of every component, nothing for those the combiner does not mention. */
  function EffectiveWeights(c: Combiner): (w: seq<real>)
    requires |c.components| <= |c.weights|
    ensures |w| == 9
  {
    seq(9, i requires 0 <= i < 9 =>
      var weight := WeightOf(c, COMPONENTS[i]);
      if weight.None? then 0.0 else weight.value)
  }

  lemma {:induction false} WeightAt(c: Combiner, i: nat)
    requires |c.components| == |c.weights| && Distinct(c.components) && i < |c.components|
    ensures WeightOf(c, c.components[i]) == Some(c.weights[i])
    decreases i
  {
    if i > 0 {
      assert c.components[0] != c.components[i];
      WeightAt(Combiner(c.components[1..], c.weights[1..]), i - 1);
    }
  }

  /** A fitted combiner weighs each component at run time as it did while it was being fitted. */
  lemma FittedWeightsAreUsed(weights: seq<real>)
    requires |weights| == |COMPONENTS|
    ensures EffectiveWeights(Combiner(COMPONENTS, weights)) == weights
  {
    hide WeightOf;
    var c := Combiner(COMPONENTS, weights);
    assert Distinct(c.components);
    forall i | 0 <= i < 9 ensures EffectiveWeights(c)[i] == weights[i] {
      WeightAt(c, i);
    }
  }

  /** The app a fused ranking lists first is the one the fitting objective compares with the label. */
  lemma FirstIsTop(combined: map<string, real>)
    ensures combined == map[] <==> RankingOf(combined) == []
    ensures combined != map[] ==> IsTop(combined, RankingOf(combined)[0].app)
  {
    hide RankingOf, Le;
    var ranked := RankingOf(combined);
    forall app | app in combined
      ensures ranked != []
      ensures combined[app] < ranked[0].score || (combined[app] == ranked[0].score && Le(ranked[0].app, app))
    {
      var s := AppScore(app, combined[app]);
      assert s in ranked;
      LeTotal(app, app);
    }
    if ranked != [] {
      assert ranked[0] in ranked;
    }
  }

  method RankEnsembleRrf(p: Predictor, num: Numerics, f: Features) returns (ranked: seq<AppScore>)
    requires p.Loaded() && !CombinerEmpty(p.artifact.combiner)
    ensures ranked == RankingOf(Fuse(AllRankings(p.artifact, num, f), EffectiveWeights(p.artifact.combiner)))
  {
    hide ComponentRanking, RankingOf, Contribution, AddTo, WeightOf;
    hide Safe, AllSafe, Distinct, KeyedByApp, ValidCombiner, ValidLogistic;
    ghost var rankings := AllRankings(p.artifact, num, f);
    ghost var weights := EffectiveWeights(p.artifact.combiner);
    var combined: map<string, real> := map[];
    for c := 0 to 9
      invariant combined == Fuse(rankings[..c], weights)
    {
      assert rankings[..c + 1][..c] == rankings[..c];
      var weight := WeightOf(p.artifact.combiner, COMPONENTS[c]);
      if weight.Some? && weight.value != 0.0 {
        var list := RankComponent(p, num, f, c);
        assert list == rankings[c];
        ghost var before := combined;
        for rank := 0 to |list|
          invariant combined == FuseRanking(before, weight.value, list[..rank])
        {
          assert list[..rank + 1][..rank] == list[..rank];
          combined := AddTo(combined, list[rank].app, Contribution(weight.value, rank, list[rank].score));
        }
        assert list[..|list|] == list;
      }
    }
    assert rankings[..9] == rankings;
    ranked := RankEntries(combined);
  }

  /* ----- The logistic reranker ----- */

  /** Where a ranking lists `app`; the last place, should it list it twice. */
  function Place(list: seq<AppScore>, app: string): (r: Option<nat>)
    ensures r.Some? ==> r.value < |list| && list[r.value].app == app
  {
    if list == [] then None
    else
      var last := |list| - 1;
      if list[last].app == app then Some(last) else Place(list[..last], app)
  }

  function CellAt(rank: nat, score: real): seq<real> {
    [1.0 / (1.0 + rank as real), score, if rank == 0 then 1.0 else 0.0]
  }

  /** The three features one component contributes for `app`. */
  function Cell(list: seq<AppScore>, app: string): (r: seq<real>)
    ensures |r| == 3
  {
    var place := Place(list, app);
    if place.None? then Zeros(3) else CellAt(place.value, list[place.value].score)
  }

  function Zeros(n: nat): (r: seq<real>)
    ensures |r| == n
  {
    seq(n, _ => 0.0)
  }

  function Row(rankings: seq<seq<AppScore>>, app: string): (r: seq<real>)
    ensures |r| == 3 * |rankings|
  {
    if rankings == [] then []
    else Row(rankings[..|rankings| - 1], app) + Cell(rankings[|rankings| - 1], app)
  }

  function Named(list: seq<AppScore>, current: Option<string>): set<string> {
    set i | 0 <= i < |list| && Some(list[i].app) != current :: list[i].app
  }

  function AllNamed(rankings: seq<seq<AppScore>>, current: Option<string>): set<string> {
    if rankings == [] then {}
    else AllNamed(rankings[..|rankings| - 1], current) + Named(rankings[|rankings| - 1], current)
  }

  ghost function CandidateRows(rankings: seq<seq<AppScore>>, current: Option<string>): map<string, seq<real>> {
    map app | app in AllNamed(rankings, current) :: Row(rankings, app)
  }

  lemma {:induction false} UnnamedHasNoPlace(list: seq<AppScore>, current: Option<string>, app: string)
    requires app !in Named(list, current) && Some(app) != current
    ensures Place(list, app).None? && Cell(list, app) == Zeros(3)
  {
    assert forall i :: 0 <= i < |list| ==> Some(list[i].app) == current || list[i].app in Named(list, current);
  }

  lemma {:induction false} UnnamedHasNoRow(rankings: seq<seq<AppScore>>, current: Option<string>, app: string)
    requires app !in AllNamed(rankings, current) && Some(app) != current
    ensures Row(rankings, app) == Zeros(3 * |rankings|)
  {
    hide Cell, Named;
    if rankings != [] {
      UnnamedHasNoRow(rankings[..|rankings| - 1], current, app);
      UnnamedHasNoPlace(rankings[|rankings| - 1], current, app);
    }
  }

  lemma SetCell(before: seq<real>, cell: seq<real>, after: seq<real>, rank: nat, score: real)
    requires |cell| == 3
    ensures (before + cell + after)[|before| := CellAt(rank, score)[0]][|before| + 1 := CellAt(rank, score)[1]]
              [|before| + 2 := CellAt(rank, score)[2]] == before + CellAt(rank, score) + after
  {
    hide CellAt;
    var x := CellAt(rank, score);
    assert |x| == 3 by { CellLength(rank, score); }
    var row := before + cell + after;
    assert row[|before| := x[0]][|before| + 1 := x[1]][|before| + 2 := x[2]] == before + x + after;
  }

  lemma CellLength(rank: nat, score: real)
    ensures |CellAt(rank, score)| == 3
  {
  }

  lemma OneMorePlace(list: seq<AppScore>, rank: nat, current: Option<string>, app: string)
    requires rank < |list|
    ensures Cell(list[..rank + 1], app) ==
            if list[rank].app == app then CellAt(rank, list[rank].score) else Cell(list[..rank], app)
    ensures Named(list[..rank + 1], current) ==
            Named(list[..rank], current) + if Some(list[rank].app) == current then {} else {list[rank].app}
  {
    hide CellAt;
    assert list[..rank + 1][..rank] == list[..rank];
    var longer, shorter := Named(list[..rank + 1], current), Named(list[..rank], current);
    forall x | x in longer ensures x in shorter || x == list[rank].app {
      var i :| 0 <= i < rank + 1 && list[i].app == x && Some(x) != current;
      assert i < rank ==> list[..rank][i].app == x;
    }
    forall x | x in shorter ensures x in longer {
      var i :| 0 <= i < rank && list[i].app == x && Some(x) != current;
      assert list[..rank + 1][i].app == x;
    }
    if Some(list[rank].app) != current {
      assert list[..rank + 1][rank].app in longer;
    }
  }

  lemma NothingNamed(current: Option<string>, app: string)
    ensures Named([], current) == {} && Cell([], app) == Zeros(3)
  {
  }

  /** Writes one component's features into the rows, each write at a fixed offset of its row. */
  method FillComponent(rows0: map<string, seq<real>>, ghost done: seq<seq<AppScore>>, list: seq<AppScore>,
                       c: nat, current: Option<string>) returns (rows: map<string, seq<real>>)
    requires c == |done| < 9 && rows0.Keys == AllNamed(done, current)
    requires forall app :: app in rows0 ==> rows0[app] == Row(done, app) + Zeros(27 - 3 * c)
    ensures rows.Keys == AllNamed(done + [list], current)
    ensures forall app :: app in rows ==> rows[app] == Row(done + [list], app) + Zeros(24 - 3 * c)
  {
    hide Row, Cell, CellAt, Named, AllNamed;
    rows := rows0;
    var offset := c * 3;
    ghost var rest := Zeros(24 - 3 * c);
    forall app ensures Named(list[..0], current) == {} && Cell(list[..0], app) == Zeros(3) {
      NothingNamed(current, app);
    }
    NothingNamed(current, "");
    assert list[..0] == [];
    assert Zeros(27 - 3 * c) == Zeros(3) + rest;
    for rank := 0 to |list|
      invariant rows.Keys == AllNamed(done, current) + Named(list[..rank], current)
      invariant forall app :: app in rows ==> rows[app] == Row(done, app) + Cell(list[..rank], app) + rest
    {
      var app := list[rank].app;
      OneMorePlace(list, rank, current, app);
      forall other { OneMorePlace(list, rank, current, other); }
      if current == Some(app) {
        CurrentIsNotNamed(done, list[..rank], current);
      } else {
        var row := if app in rows then rows[app] else Zeros(27);
        if app !in rows {
          UnnamedHasNoRow(done, current, app);
          UnnamedHasNoPlace(list[..rank], current, app);
          assert Zeros(27) == Zeros(3 * c) + Zeros(3) + rest;
        }
        SetCell(Row(done, app), Cell(list[..rank], app), rest, rank, list[rank].score);
        CellLength(rank, list[rank].score);
        row := row[offset := CellAt(rank, list[rank].score)[0]];
        row := row[offset + 1 := CellAt(rank, list[rank].score)[1]];
        row := row[offset + 2 := CellAt(rank, list[rank].score)[2]];
        rows := rows[app := row];
      }
    }
    assert list[..|list|] == list;
    OneMoreComponent(done, list, current);
  }

  lemma OneMoreComponent(done: seq<seq<AppScore>>, list: seq<AppScore>, current: Option<string>)
    ensures AllNamed(done + [list], current) == AllNamed(done, current) + Named(list, current)
    ensures forall app :: Row(done + [list], app) == Row(done, app) + Cell(list, app)
  {
    assert (done + [list])[..|done|] == done;
  }

  lemma {:induction false} CurrentIsNotNamed(done: seq<seq<AppScore>>, list: seq<AppScore>, current: Option<string>)
    requires current.Some?
    ensures current.value !in AllNamed(done, current) && current.value !in Named(list, current)
  {
    if done != [] {
      CurrentIsNotNamed(done[..|done| - 1], done[|done| - 1], current);
    }
  }

  /** The feature rows of every candidate.  No write falls outside its row of 27. */
  method CandidateFeatureRows(rankings: seq<seq<AppScore>>, current: Option<string>)
    returns (rows: map<string, seq<real>>)
    requires |rankings| == 9
    ensures rows == CandidateRows(rankings, current)
  {
    hide Row, Named, AllNamed;
    rows := map[];
    assert AllNamed([], current) == {} by { NoCandidates(current); }
    for c := 0 to 9
      invariant rows.Keys == AllNamed(rankings[..c], current)
      invariant forall app :: app in rows ==> rows[app] == Row(rankings[..c], app) + Zeros(27 - 3 * c)
    {
      assert rankings[..c + 1] == rankings[..c] + [rankings[c]];
      rows := FillComponent(rows, rankings[..c], rankings[c], c, current);
    }
    assert rankings[..9] == rankings;
    assert forall app :: app in rows ==> rows[app] == Row(rankings, app);
  }

  lemma NoCandidates(current: Option<string>)
    ensures AllNamed([], current) == {}
  {
  }

  function Dot(weights: seq<real>, row: seq<real>): real {
    if weights == [] || row == [] then 0.0 else weights[0] * row[0] + Dot(weights[1..], row[1..])
  }

  ghost function LogisticScores(a: Artifact, num: Numerics, f: Features): map<string, real>
    requires ValidSizes(a)
  {
    var rows := CandidateRows(AllRankings(a, num, f), f.currentApp);
    map app | app in rows :: num.sigmoid(Dot(a.logistic.weights, rows[app]))
  }

  method RankEnsembleLogistic(p: Predictor, num: Numerics, f: Features) returns (ranked: seq<AppScore>)
    requires p.Loaded()
    ensures ranked == RankingOf(LogisticScores(p.artifact, num, f))
  {
    hide AllRankings, CandidateRows, RankingOf, Dot;
    hide Safe, AllSafe, Distinct, KeyedByApp, ValidCombiner, ValidLogistic;
    var rankings := ComponentRankings(p, num, f);
    var rows := CandidateFeatureRows(rankings, f.currentApp);
    ranked := RankEntries(map app | app in rows :: num.sigmoid(Dot(p.artifact.logistic.weights, rows[app])));
  }

  /* ----- Serving a ranking ----- */

  ghost function FusedScores(a: Artifact, num: Numerics, f: Features): map<string, real>
    requires ValidSizes(a)
  {
    if !LogisticEmpty(a.logistic) then LogisticScores(a, num, f)
    else if CombinerEmpty(a.combiner) then LegacyScores(a, num, f)
    else Fuse(AllRankings(a, num, f), EffectiveWeights(a.combiner))
  }

  ghost function AlgorithmRanking(a: Artifact, num: Numerics, f: Features, algorithm: Algorithm): seq<AppScore>
    requires ValidSizes(a)
  {
    match algorithm
    case NaiveBayes => NaiveBayesRanking(a, num, f)
    case Markov => MarkovRanking(a, f)
    case FeatureLift => FeatureLiftRanking(a, num, f)
    case Fusion => RankingOf(FusedScores(a, num, f))
  }

  function Without(scores: seq<AppScore>, current: Option<string>): seq<AppScore> {
    if scores == [] then []
    else
      var last := scores[|scores| - 1];
      Without(scores[..|scores| - 1], current) + if Some(last.app) == current then [] else [last]
  }

  function First(scores: seq<AppScore>, k: nat): seq<AppScore> {
    if |scores| <= k then scores else scores[..k]
  }

  /** The current app is dropped; when nothing is left the global popularity answers instead. */
  ghost function Served(a: Artifact, num: Numerics, f: Features, algorithm: Algorithm, k: nat): seq<AppScore>
    requires ValidSizes(a)
  {
    var scores := Without(AlgorithmRanking(a, num, f, algorithm), f.currentApp);
    First(if scores == [] then Without(a.globalPopularity, f.currentApp) else scores, k)
  }

  method RankEnsemble(p: Predictor, num: Numerics, f: Features) returns (ranked: seq<AppScore>)
    requires p.Loaded()
    ensures ranked == RankingOf(FusedScores(p.artifact, num, f))
  {
    hide AllRankings, RankingOf, LogisticScores, LegacyScores, Fuse, EffectiveWeights;
    hide Safe, AllSafe, Distinct, KeyedByApp, ValidCombiner, ValidLogistic;
    if !LogisticEmpty(p.artifact.logistic) {
      ranked := RankEnsembleLogistic(p, num, f);
    } else if CombinerEmpty(p.artifact.combiner) {
      ranked := RankEnsembleLegacy(p, num, f);
    } else {
      ranked := RankEnsembleRrf(p, num, f);
    }
  }

  method Rank(p: Predictor, num: Numerics, f: Features, algorithm: Algorithm, k: nat) returns (scores: seq<AppScore>)
    requires p.Loaded()
    ensures scores == Served(p.artifact, num, f, algorithm, k)
  {
    hide NaiveBayesRanking, MarkovRanking, FeatureLiftRanking, FusedScores, RankingOf;
    hide Safe, AllSafe, Distinct, KeyedByApp, ValidCombiner, ValidLogistic, Without;
    match algorithm {
      case NaiveBayes => scores := RankNaiveBayes(p, num, f);
      case Markov => scores := MarkovRanking(p.artifact, f);
      case FeatureLift => scores := RankFeatureLift(p, num, f);
      case Fusion => scores := RankEnsemble(p, num, f);
    }
    scores := Without(scores, f.currentApp);
    if scores == [] {
      scores := Without(p.artifact.globalPopularity, f.currentApp);
    }
    scores := First(scores, k);
  }

  /* ----- What every ranking keeps to ----- */

  lemma LookupIsSafe(vocab: seq<string>, tables: map<string, seq<AppScore>>, key: Option<string>)
    requires AllSafe(vocab, tables)
    ensures Lookup(tables, key).Some? ==> Safe(vocab, Lookup(tables, key).value)
    ensures Safe(vocab, OrElse(Lookup(tables, key), []))
  {
  }

  lemma ContextIsSafe(a: Artifact, f: Features)
    requires AllSafe(a.appVocab, a.markovContext)
    ensures Safe(a.appVocab, ContextRanking(a, f))
  {
    hide RankingOf, ContextKey, AllSafe, Lookup;
    var vocab := a.appVocab;
    var hour := Lookup(a.markovContext, ContextKey(f, f.hourBucket));
    var weekday := Lookup(a.markovContext, ContextKey(f, f.weekday));
    LookupIsSafe(vocab, a.markovContext, ContextKey(f, f.hourBucket));
    LookupIsSafe(vocab, a.markovContext, ContextKey(f, f.weekday));
    var first := AddScores(map[], 1.0, OrElse(hour, []));
    AddScoresKeys(vocab, map[], 1.0, OrElse(hour, []));
    AddScoresKeys(vocab, first, 1.0, OrElse(weekday, []));
    RankingIsSafe(vocab, AddScores(first, 1.0, OrElse(weekday, [])));
  }

  lemma ComponentIsSafe(a: Artifact, num: Numerics, f: Features, c: nat)
    requires ValidArtifact(a) && c < 9
    ensures Safe(a.appVocab, ComponentRanking(a, num, f, c))
  {
    hide ContextRanking, Safe, AllSafe, Lookup, KeyedByApp, ValidCombiner, ValidLogistic, RankFromLogits, UserKey, Order2Key;
    SharesAreFull(a.appVocab, NaiveBayesLogits(a, FeatureKeys(f)), num);
    SharesAreFull(a.appVocab, FeatureLiftLogits(a, FeatureKeys(f)), num);
    LookupIsSafe(a.appVocab, a.userTransitions, UserKey(f));
    LookupIsSafe(a.appVocab, a.globalTransitions, f.currentApp);
    LookupIsSafe(a.appVocab, a.globalTransitions, Last(f.history));
    LookupIsSafe(a.appVocab, a.order2Transitions, Order2Key(f));
    LookupIsSafe(a.appVocab, a.userFrequency, f.userId);
    ContextIsSafe(a, f);
    UserRecencyIsSafe(a, f);
  }

  lemma UserRecencyIsSafe(a: Artifact, f: Features)
    requires forall key :: key in a.userRecency ==> a.userRecency[key] in a.appVocab
    ensures Safe(a.appVocab, UserRecencyRanking(a, f))
  {
  }

  lemma FusedKeys(a: Artifact, num: Numerics, f: Features)
    requires ValidArtifact(a)
    ensures KeysIn(a.appVocab, FusedScores(a, num, f))
  {
    hide Safe, ComponentRanking, RankingOf, AllSafe, Full, KeyedByApp, ValidLogistic, Fuse, EffectiveWeights, AddScores;
    hide NaiveBayesRanking, FeatureLiftRanking, MarkovRanking, LogisticScores;
    var vocab, rankings := a.appVocab, AllRankings(a, num, f);
    forall c | 0 <= c < 9 ensures Safe(vocab, rankings[c]) {
      ComponentIsSafe(a, num, f, c);
    }
    LogisticKeys(vocab, a, num, f);
    LegacyKeys(a, num, f);
    if !CombinerEmpty(a.combiner) {
      FuseKeys(vocab, rankings, EffectiveWeights(a.combiner));
    }
  }

  lemma LegacyKeys(a: Artifact, num: Numerics, f: Features)
    requires ValidArtifact(a)
    ensures KeysIn(a.appVocab, LegacyScores(a, num, f))
  {
    hide Safe, NaiveBayesRanking, FeatureLiftRanking, MarkovRanking, AddScores;
    hide AllSafe, Full, KeyedByApp, ValidLogistic, ValidCombiner;
    ComponentIsSafe(a, num, f, 0);
    ComponentIsSafe(a, num, f, 2);
    ComponentIsSafe(a, num, f, 4);
    var one := AddScores(map[], 0.3, NaiveBayesRanking(a, num, f));
    AddScoresKeys(a.appVocab, map[], 0.3, NaiveBayesRanking(a, num, f));
    var two := AddScores(one, 0.4, MarkovRanking(a, f));
    AddScoresKeys(a.appVocab, one, 0.4, MarkovRanking(a, f));
    AddScoresKeys(a.appVocab, two, 0.3, FeatureLiftRanking(a, num, f));
  }

  lemma LogisticKeys(vocab: seq<string>, a: Artifact, num: Numerics, f: Features)
    requires ValidSizes(a)
    requires forall c :: 0 <= c < 9 ==> Safe(vocab, AllRankings(a, num, f)[c])
    ensures KeysIn(vocab, LogisticScores(a, num, f))
  {
    hide AllRankings, Row, Dot;
    NamedAreKnown(vocab, AllRankings(a, num, f), f.currentApp);
  }

  lemma {:induction false} NamedAreKnown(vocab: seq<string>, rankings: seq<seq<AppScore>>, current: Option<string>)
    requires forall c :: 0 <= c < |rankings| ==> Safe(vocab, rankings[c])
    ensures forall app :: app in AllNamed(rankings, current) ==> app in vocab
  {
    if rankings != [] {
      var list := rankings[|rankings| - 1];
      NamedAreKnown(vocab, rankings[..|rankings| - 1], current);
      forall app | app in Named(list, current) ensures app in vocab {
        var i :| 0 <= i < |list| && list[i].app == app;
        assert Apps(list)[i] in Apps(list);
      }
    }
  }

  lemma AlgorithmIsSafe(a: Artifact, num: Numerics, f: Features, algorithm: Algorithm)
    requires ValidArtifact(a)
    ensures Safe(a.appVocab, AlgorithmRanking(a, num, f, algorithm))
  {
    hide Safe, NaiveBayesRanking, FeatureLiftRanking, MarkovRanking, RankingOf, FusedScores;
    hide AllSafe, Full, KeyedByApp, ValidLogistic, ValidCombiner;
    ComponentIsSafe(a, num, f, 0);
    ComponentIsSafe(a, num, f, 2);
    ComponentIsSafe(a, num, f, 4);
    FusedKeys(a, num, f);
    RankingIsSafe(a.appVocab, FusedScores(a, num, f));
  }

  lemma {:induction false} WithoutKeeps(vocab: seq<string>, scores: seq<AppScore>, current: Option<string>)
    requires Safe(vocab, scores)
    ensures Safe(vocab, Without(scores, current))
    ensures forall app :: app in Apps(Without(scores, current)) <==> app in Apps(scores) && Some(app) != current
  {
    hide Safe;
    if scores != [] {
      var init, last := scores[..|scores| - 1], scores[|scores| - 1];
      SafePrefix(vocab, scores);
      WithoutKeeps(vocab, init, current);
      assert Apps(scores) == Apps(init) + [last.app];
      LastIsNew(vocab, scores);
      var kept := Without(init, current);
      assert kept + [] == kept;
      assert Apps(kept + [last]) == Apps(kept) + [last.app];
      SafeWithOneMore(vocab, kept, last);
    }
  }

  lemma LastIsNew(vocab: seq<string>, scores: seq<AppScore>)
    requires Safe(vocab, scores) && scores != []
    ensures scores[|scores| - 1].app !in Apps(scores[..|scores| - 1])
  {
    var init := scores[..|scores| - 1];
    forall i | 0 <= i < |init| ensures Apps(init)[i] != scores[|scores| - 1].app {
      assert Apps(scores)[i] != Apps(scores)[|scores| - 1];
    }
  }

  lemma SafeWithOneMore(vocab: seq<string>, kept: seq<AppScore>, last: AppScore)
    requires Safe(vocab, kept) && last.app in vocab && last.app !in Apps(kept)
    ensures Safe(vocab, kept + [last])
  {
    assert Apps(kept + [last]) == Apps(kept) + [last.app];
  }

  lemma FirstKeeps(vocab: seq<string>, scores: seq<AppScore>, k: nat)
    requires Safe(vocab, scores)
    ensures Safe(vocab, First(scores, k))
    ensures forall app :: app in Apps(First(scores, k)) ==> app in Apps(scores)
  {
    var first := First(scores, k);
    assert forall i :: 0 <= i < |first| ==> Apps(first)[i] == Apps(scores)[i];
    assert forall i :: 0 <= i < |first| ==> Apps(first)[i] in Apps(scores);
  }

  /** A list of as many distinct vocabulary apps as there are names every one of them. */
  lemma FullNamesAll(vocab: seq<string>, scores: seq<AppScore>, app: string)
    requires Full(vocab, scores) && Distinct(vocab) && app in vocab
    ensures app in Apps(scores)
  {
    Pigeonhole(Apps(scores), vocab, app);
  }

  lemma {:induction false} Pigeonhole(xs: seq<string>, ys: seq<string>, y: string)
    requires Distinct(xs) && Distinct(ys) && |xs| == |ys|
    requires forall x :: x in xs ==> x in ys
    requires y in ys
    ensures y in xs
  {
    DistinctSize(xs);
    DistinctSize(ys);
    var xset, yset := set x | x in xs, set x | x in ys;
    assert xset <= yset;
    if y !in xs {
      assert xset <= yset - {y};
      SmallerSet(xset, yset - {y});
    }
  }

  lemma {:induction false} SmallerSet(a: set<string>, b: set<string>)
    requires a <= b
    ensures |a| <= |b|
    decreases a
  {
    if a != {} {
      var x :| x in a;
      SmallerSet(a - {x}, b - {x});
    }
  }

  lemma {:induction false} DistinctSize(xs: seq<string>)
    requires Distinct(xs)
    ensures |set x | x in xs| == |xs|
  {
    if xs != [] {
      DistinctSize(xs[1..]);
      assert xs == [xs[0]] + xs[1..];
      assert (set x | x in xs) == {xs[0]} + set x | x in xs[1..];
      assert xs[0] !in xs[1..];
    }
  }

  /** Whatever the algorithm, the features and k: at most k distinct apps of the vocabulary, never the
      current one, and none at all only when nothing is asked for or no other app is known. */
  lemma ServedIsSafe(a: Artifact, num: Numerics, f: Features, algorithm: Algorithm, k: nat)
    requires ValidArtifact(a)
    ensures |Served(a, num, f, algorithm, k)| <= k
    ensures Safe(a.appVocab, Served(a, num, f, algorithm, k))
    ensures forall app :: app in Apps(Served(a, num, f, algorithm, k)) ==> Some(app) != f.currentApp
    ensures Served(a, num, f, algorithm, k) == [] <==>
            k == 0 || forall app :: app in a.appVocab ==> Some(app) == f.currentApp
  {
    hide AlgorithmRanking, Safe, AllSafe, KeyedByApp, ValidLogistic, ValidCombiner, Without, Apps, Distinct;
    var ranking := AlgorithmRanking(a, num, f, algorithm);
    AlgorithmIsSafe(a, num, f, algorithm);
    WithoutKeeps(a.appVocab, ranking, f.currentApp);
    WithoutKeeps(a.appVocab, a.globalPopularity, f.currentApp);
    var scores := Without(ranking, f.currentApp);
    var popular := Without(a.globalPopularity, f.currentApp);
    FirstKeeps(a.appVocab, scores, k);
    FirstKeeps(a.appVocab, popular, k);
    var served := Served(a, num, f, algorithm, k);
    if app :| app in a.appVocab && Some(app) != f.currentApp {
      FullNamesAll(a.appVocab, a.globalPopularity, app);
      assert app in Apps(popular);
      assert popular != [] by { NoAppsInNothing(app, popular); }
    }
    if served != [] {
      FirstIsListed(a.appVocab, served);
    }
  }

  lemma NoAppsInNothing(app: string, scores: seq<AppScore>)
    requires app in Apps(scores)
    ensures scores != []
  {
  }

  lemma FirstIsListed(vocab: seq<string>, scores: seq<AppScore>)
    requires Safe(vocab, scores) && scores != []
    ensures scores[0].app in Apps(scores) && scores[0].app in vocab
  {
    assert Apps(scores)[0] in Apps(scores);
  }
}
