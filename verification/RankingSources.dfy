/** Where the predictor's rankings come from, and which app a served ranking puts first. */
module RankingSources {
  import opened Wrappers
  import opened Sorting
  import opened Ensemble
  import opened Artifacts
  import opened Ranking
  import opened Predictor
  import Bridge
  import FusionOrder

  /* ----- Table lookups ----- */

  /** What the user did from the current app comes before what everybody did from it, this before what everybody
      did from the last app of the history, and popularity answers only where no table knows anything. */
  lemma MarkovSources(a: Artifact, f: Features)
    ensures f.userId.Some? && f.currentApp.Some? && f.userId.value + "\t" + f.currentApp.value in a.userTransitions ==>
              MarkovRanking(a, f) == a.userTransitions[f.userId.value + "\t" + f.currentApp.value]
    ensures f.currentApp.Some? && f.currentApp.value in a.globalTransitions
            && !(f.userId.Some? && f.userId.value + "\t" + f.currentApp.value in a.userTransitions) ==>
              MarkovRanking(a, f) == a.globalTransitions[f.currentApp.value]
    ensures f.history != [] && f.history[|f.history| - 1] in a.globalTransitions
            && !(f.currentApp.Some? && f.currentApp.value in a.globalTransitions)
            && !(f.userId.Some? && f.currentApp.Some? && f.userId.value + "\t" + f.currentApp.value in a.userTransitions) ==>
              MarkovRanking(a, f) == a.globalTransitions[f.history[|f.history| - 1]]
    ensures !(f.history != [] && f.history[|f.history| - 1] in a.globalTransitions)
            && !(f.currentApp.Some? && f.currentApp.value in a.globalTransitions)
            && !(f.userId.Some? && f.currentApp.Some? && f.userId.value + "\t" + f.currentApp.value in a.userTransitions) ==>
              MarkovRanking(a, f) == a.globalPopularity
  {
  }

  /** `app` is the newest in the history that is not the current one. */
  ghost predicate IsPrevious(history: seq<string>, current: string, app: string) {
    exists i :: IsNewestOther(history, current, i) && history[i] == app
  }

  lemma PreviousIsNewest(history: seq<string>, current: string, app: string)
    ensures PreviousApp(history, current) == Some(app) <==> IsPrevious(history, current, app)
  {
    PreviousAppIsNewest(history, current);
    if PreviousApp(history, current).Some? && IsPrevious(history, current, app) {
      var i :| IsNewestOther(history, current, i) && history[i] == PreviousApp(history, current).value;
      var k :| IsNewestOther(history, current, k) && history[k] == app;
      assert i == k;
    }
  }

  /** The order-2 table is asked for the previous app and the current one together; without both, or without an
      entry, the component stays silent. */
  lemma Order2Sources(a: Artifact, f: Features, previous: string)
    ensures f.currentApp.Some? && IsPrevious(f.history, f.currentApp.value, previous)
            && previous + "\t" + f.currentApp.value in a.order2Transitions ==>
              Order2Ranking(a, f) == a.order2Transitions[previous + "\t" + f.currentApp.value]
    ensures f.currentApp.Some? && IsPrevious(f.history, f.currentApp.value, previous)
            && previous + "\t" + f.currentApp.value !in a.order2Transitions ==>
              Order2Ranking(a, f) == []
    ensures f.currentApp.None? ==> Order2Ranking(a, f) == []
    ensures f.currentApp.Some? && (forall app :: !IsPrevious(f.history, f.currentApp.value, app)) ==>
              Order2Ranking(a, f) == []
  {
    hide PreviousApp, IsPrevious;
    if f.currentApp.Some? {
      PreviousIsNewest(f.history, f.currentApp.value, previous);
      if PreviousApp(f.history, f.currentApp.value).Some? {
        PreviousIsNewest(f.history, f.currentApp.value, PreviousApp(f.history, f.currentApp.value).value);
      }
    }
  }

  /** The components about the user speak exactly when their tables know the user, or the user and the current
      app; the last app opened from there stands alone with a full score. */
  lemma UserSources(a: Artifact, f: Features)
    ensures UserFrequencyRanking(a, f) ==
            if f.userId.Some? && f.userId.value in a.userFrequency then a.userFrequency[f.userId.value] else []
    ensures RecencyRanking(a, f) ==
            if f.userId.Some? && f.currentApp.Some? && f.userId.value + "\t" + f.currentApp.value in a.userTransitions
            then a.userTransitions[f.userId.value + "\t" + f.currentApp.value] else []
    ensures UserRecencyRanking(a, f) ==
            if f.userId.Some? && f.currentApp.Some? && f.userId.value + "\t" + f.currentApp.value in a.userRecency
            then [AppScore(a.userRecency[f.userId.value + "\t" + f.currentApp.value], 1.0)] else []
  {
  }

  /* ----- What a served ranking puts first ----- */

  /** Dropping the current app from a sorted ranking leaves the best of the others in front. */
  lemma {:induction false} HeadOfOthers(ranked: seq<AppScore>, current: Option<string>)
    requires Sorted(RankLe, ranked) && Without(ranked, current) != []
    ensures Without(ranked, current)[0] in ranked && Some(Without(ranked, current)[0].app) != current
    ensures forall x :: x in ranked && Some(x.app) != current ==>
              x == Without(ranked, current)[0] || RankLe(Without(ranked, current)[0], x)
  {
    hide RankLe;
    var n := |ranked| - 1;
    var init, last := ranked[..n], ranked[n];
    assert ranked == init + [last];
    if Without(init, current) != [] {
      HeadOfOthers(init, current);
      var head := Without(init, current)[0];
      var i :| 0 <= i < n && init[i] == head;
      assert RankLe(ranked[i], ranked[n]);
    } else {
      NothingElse(init, current);
    }
  }

  lemma {:induction false} NothingElse(ranked: seq<AppScore>, current: Option<string>)
    requires Without(ranked, current) == []
    ensures forall x :: x in ranked ==> Some(x.app) == current
  {
    if ranked != [] {
      var n := |ranked| - 1;
      NothingElse(ranked[..n], current);
      assert ranked == ranked[..n] + [ranked[n]];
    }
  }

  /** The exponential is positive and increasing; nothing else of it matters to the order. */
  ghost predicate IsExponential(num: Numerics) {
    (forall x :: num.exp(x) > 0.0) && forall x, y :: x < y ==> num.exp(x) < num.exp(y)
  }

  /** The app has the highest of these logits among the apps other than the current one. */
  ghost predicate IsLikeliest(vocab: seq<string>, logits: seq<real>, current: Option<string>, app: string)
    requires |vocab| == |logits|
  {
    exists i :: 0 <= i < |vocab| && vocab[i] == app && Some(app) != current
                && forall j :: 0 <= j < |vocab| && Some(vocab[j]) != current ==> logits[j] <= logits[i]
  }

  lemma LikeliestIsFirst(vocab: seq<string>, logits: seq<real>, num: Numerics, current: Option<string>)
    requires |vocab| == |logits| && IsExponential(num)
    requires Without(RankFromLogits(vocab, logits, num), current) != []
    ensures IsLikeliest(vocab, logits, current, Without(RankFromLogits(vocab, logits, num), current)[0].app)
  {
    hide Sort, Shares, Without;
    var shares := Shares(vocab, logits, num);
    var ranked := RankFromLogits(vocab, logits, num);
    RankLeIsOrder();
    SortSorted(RankLe, shares);
    SortElements(RankLe, shares);
    HeadOfOthers(ranked, current);
    var head := Without(ranked, current)[0];
    assert head in shares;
    var i :| 0 <= i < |shares| && shares[i] == head;
    forall j | 0 <= j < |vocab| && Some(vocab[j]) != current ensures logits[j] <= logits[i] {
      assert shares[j] in shares;
      assert shares[j] in ranked;
      NormalisingKeepsOrder(vocab, logits, num, j, i);
    }
  }

  /** Naive Bayes serves the app with the highest log prior plus log probabilities first, and feature lift the one with
      the highest base score plus lifts, among the apps other than the current one. */
  lemma LikeliestIsServedFirst(a: Artifact, num: Numerics, f: Features, k: nat)
    requires ValidArtifact(a) && IsExponential(num)
    ensures Served(a, num, f, NaiveBayes, k) != [] ==>
              IsLikeliest(a.appVocab, NaiveBayesLogits(a, FeatureKeys(f)), f.currentApp,
                          Served(a, num, f, NaiveBayes, k)[0].app)
    ensures Served(a, num, f, FeatureLift, k) != [] ==>
              IsLikeliest(a.appVocab, FeatureLiftLogits(a, FeatureKeys(f)), f.currentApp,
                          Served(a, num, f, FeatureLift, k)[0].app)
  {
    hide Safe, AllSafe, Full, KeyedByApp, ValidLogistic, ValidCombiner, RankFromLogits, IsLikeliest, FeatureKeys;
    hide NaiveBayesLogits, FeatureLiftLogits, Without;
    ServedFromLogits(a, NaiveBayesLogits(a, FeatureKeys(f)), num, f);
    ServedFromLogits(a, FeatureLiftLogits(a, FeatureKeys(f)), num, f);
  }

  /** A full ranking that has nothing left without the current app leaves popularity nothing either. */
  lemma ServedFromLogits(a: Artifact, logits: seq<real>, num: Numerics, f: Features)
    requires ValidArtifact(a) && IsExponential(num) && |logits| == |a.appVocab|
    ensures var others := Without(RankFromLogits(a.appVocab, logits, num), f.currentApp);
            && (others == [] ==> Without(a.globalPopularity, f.currentApp) == [])
            && (others != [] ==> IsLikeliest(a.appVocab, logits, f.currentApp, others[0].app))
  {
    hide AllSafe, KeyedByApp, ValidLogistic, ValidCombiner, RankFromLogits, IsLikeliest, Safe, Without, Apps;
    var ranked := RankFromLogits(a.appVocab, logits, num);
    SharesAreFull(a.appVocab, logits, num);
    WithoutKeeps(a.appVocab, ranked, f.currentApp);
    WithoutKeeps(a.appVocab, a.globalPopularity, f.currentApp);
    if Without(ranked, f.currentApp) != [] {
      LikeliestIsFirst(a.appVocab, logits, num, f.currentApp);
    } else if Without(a.globalPopularity, f.currentApp) != [] {
      var popular := Without(a.globalPopularity, f.currentApp);
      FirstIsListed(a.appVocab, popular);
      FullNamesAll(a.appVocab, ranked, popular[0].app);
      NoAppsInNothing(popular[0].app, Without(ranked, f.currentApp));
      assert false;
    }
  }

  /* ----- Features of a candidate and of a window ----- */

  /** A candidate's row holds for every component: the reciprocal of its place counted from one, its score and whether
      it is first, or three zeros where the component does not list it. */
  lemma {:induction false} RowIsExact(rankings: seq<seq<AppScore>>, app: string, c: nat)
    requires c < |rankings| && Distinct(Apps(rankings[c]))
    ensures |Row(rankings, app)| == 3 * |rankings|
    ensures app !in Apps(rankings[c]) ==> Row(rankings, app)[3 * c..3 * c + 3] == [0.0, 0.0, 0.0]
    ensures forall i :: 0 <= i < |rankings[c]| && rankings[c][i].app == app ==>
              Row(rankings, app)[3 * c..3 * c + 3] ==
              [1.0 / (1.0 + i as real), rankings[c][i].score, if i == 0 then 1.0 else 0.0]
  {
    hide Apps, Cell;
    var n := |rankings| - 1;
    var init := rankings[..n];
    if c < n {
      RowIsExact(init, app, c);
      SliceOfFirst(Row(init, app), Cell(rankings[n], app), 3 * c);
    } else {
      SliceOfSecond(Row(init, app), Cell(rankings[n], app));
      CellIsExact(rankings[c], app);
    }
  }

  lemma SliceOfFirst(a: seq<real>, b: seq<real>, i: nat)
    requires i + 3 <= |a|
    ensures (a + b)[i..i + 3] == a[i..i + 3]
  {
  }

  lemma SliceOfSecond(a: seq<real>, b: seq<real>)
    requires |b| == 3
    ensures (a + b)[|a|..|a| + 3] == b
  {
  }

  lemma CellIsExact(list: seq<AppScore>, app: string)
    requires Distinct(Apps(list))
    ensures app !in Apps(list) ==> Cell(list, app) == [0.0, 0.0, 0.0]
    ensures forall i :: 0 <= i < |list| && list[i].app == app ==>
              Cell(list, app) == [1.0 / (1.0 + i as real), list[i].score, if i == 0 then 1.0 else 0.0]
  {
    PlaceIsExact(list, app);
    if Place(list, app).Some? {
      var p := Place(list, app).value;
      assert Apps(list)[p] == app;
      assert forall i :: 0 <= i < |list| && list[i].app == app ==> Apps(list)[i] == Apps(list)[p];
    }
  }

  lemma {:induction false} PlaceIsExact(list: seq<AppScore>, app: string)
    ensures Place(list, app).None? <==> app !in Apps(list)
  {
    if list != [] {
      PlaceIsExact(list[..|list| - 1], app);
      assert Apps(list) == Apps(list[..|list| - 1]) + [list[|list| - 1].app];
    }
  }

  /** The keys of the active features: who, where, the last app, the last three apps by age, when, and what happened. */
  lemma FeatureKeysAreExact(f: Features, key: string)
    ensures key in FeatureKeys(f) <==>
              || (f.userId.Some? && key == "user=" + f.userId.value)
              || (f.currentApp.Some? && key == "current=" + f.currentApp.value)
              || (f.history != [] && key == "prev=" + f.history[|f.history| - 1])
              || IsHistoryKey(f.history, key)
              || (f.hourBucket.Some? && key == "hour=" + Bridge.Decimal(f.hourBucket.value))
              || (f.weekday.Some? && key == "weekday=" + Bridge.Decimal(f.weekday.value))
              || (f.eventType.Some? && key == "event=" + f.eventType.value)
  {
    HistoryKeysAreExact(f.history, key);
    hide HistoryKeys, Bridge.Decimal;
    OneKeyIsExact("user", f.userId, key);
    OneKeyIsExact("current", f.currentApp, key);
    OneKeyIsExact("prev", Last(f.history), key);
    OneKeyIsExact("hour", Printed(f.hourBucket), key);
    OneKeyIsExact("weekday", Printed(f.weekday), key);
    OneKeyIsExact("event", f.eventType, key);
    assert "user" + "=" == "user=" && "current" + "=" == "current=" && "prev" + "=" == "prev=";
    assert "hour" + "=" == "hour=" && "weekday" + "=" == "weekday=" && "event" + "=" == "event=";
    hide OneKey;
  }

  lemma OneKeyIsExact(name: string, value: Option<string>, key: string)
    ensures key in OneKey(name, value) <==> value.Some? && key == name + "=" + value.value
  {
  }

  /** The key of one of the last three apps of the history, by its age. */
  predicate IsHistoryKey(history: seq<string>, key: string) {
    || (|history| >= 1 && key == AgeKey(0, history[|history| - 1]))
    || (|history| >= 2 && key == AgeKey(1, history[|history| - 2]))
    || (|history| >= 3 && key == AgeKey(2, history[|history| - 3]))
  }

  function AgeKey(age: nat, app: string): string {
    "hist" + Bridge.Decimal(age) + "=" + app
  }

  lemma HistoryKeysAreExact(history: seq<string>, key: string)
    ensures key in HistoryKeys(history, 0) <==> IsHistoryKey(history, key)
  {
    hide HistoryKeys, AgeKey;
    NextHistoryKey(history, 0);
    NextHistoryKey(history, 1);
    NextHistoryKey(history, 2);
    NextHistoryKey(history, 3);
  }

  lemma NextHistoryKey(history: seq<string>, from: nat)
    ensures HistoryKeys(history, from) ==
            if from >= 3 || from >= |history| then []
            else [AgeKey(from, history[|history| - 1 - from])] + HistoryKeys(history, from + 1)
  {
  }

  /* ----- The fixed-weight fusion ----- */

  function ScoreIn(combined: map<string, real>, app: string): real {
    if app in combined then combined[app] else 0.0
  }

  lemma {:induction false} AddingScores(combined: map<string, real>, weight: real, scores: seq<AppScore>, app: string)
    ensures ScoreIn(AddScores(combined, weight, scores), app) == ScoreIn(combined, app) + Weighted(weight, SumFor(scores, app))
  {
    hide Weighted;
    if scores == [] {
      Distribute(weight, 0.0, 0.0);
    } else {
      var last := |scores| - 1;
      AddingScores(combined, weight, scores[..last], app);
      Distribute(weight, SumFor(scores[..last], app), scores[last].score);
    }
  }

  lemma Distribute(weight: real, x: real, y: real)
    ensures Weighted(weight, x + y) == Weighted(weight, x) + Weighted(weight, y)
    ensures Weighted(weight, 0.0) == 0.0
  {
  }

  /** Without a fitted combiner an app scores three tenths of what naive Bayes gives it, four tenths of what the Markov
      tables do, and three tenths of what feature lift does. */
  lemma LegacyScoreIsBlend(a: Artifact, num: Numerics, f: Features, app: string)
    requires ValidSizes(a)
    ensures ScoreIn(LegacyScores(a, num, f), app) ==
            0.3 * SumFor(NaiveBayesRanking(a, num, f), app) + 0.4 * SumFor(MarkovRanking(a, f), app) +
            0.3 * SumFor(FeatureLiftRanking(a, num, f), app)
  {
    hide NaiveBayesRanking, MarkovRanking, FeatureLiftRanking, AddScores, SumFor;
    var one := AddScores(map[], 0.3, NaiveBayesRanking(a, num, f));
    var two := AddScores(one, 0.4, MarkovRanking(a, f));
    AddingScores(map[], 0.3, NaiveBayesRanking(a, num, f), app);
    AddingScores(one, 0.4, MarkovRanking(a, f), app);
    AddingScores(two, 0.3, FeatureLiftRanking(a, num, f), app);
  }

  /* ----- What features add ----- */

  /** An app starts from its log prior, and each feature adds the app's log probability under it, or the one for
      unknown features where the table does not know it. */
  lemma EachFeatureAdds(a: Artifact, keys: seq<string>, key: string, i: nat)
    requires ValidSizes(a) && i < |a.appVocab|
    ensures NaiveBayesLogit(a, [], i) == a.classLogPriors[i]
    ensures NaiveBayesLogit(a, keys + [key], i) - NaiveBayesLogit(a, keys, i) ==
            if key in a.featureLogProbs then a.featureLogProbs[key][i] else a.unknownLogProbs[i]
  {
    assert (keys + [key])[..|keys|] == keys;
  }

  /** An app starts from its base score, and each tree whose feature is active adds the score it lists for the app. */
  lemma EachTreeAdds(a: Artifact, trees: seq<Tree>, tree: Tree, active: seq<string>, i: nat, j: nat)
    requires ValidSizes(a) && i < |a.appVocab|
    requires Distinct(Apps(tree.yesScores)) && j < |tree.yesScores| && tree.yesScores[j].app == a.appVocab[i]
    ensures FeatureLiftLogits(a.(trees := []), active)[i] == a.baseScores[i]
    ensures FeatureLiftLogits(a.(trees := trees + [tree]), active)[i] - FeatureLiftLogits(a.(trees := trees), active)[i] ==
            if tree.featureKey in active then tree.yesScores[j].score else 0.0
  {
    hide SumFor, Apps;
    assert (trees + [tree])[..|trees|] == trees;
    SumForListed(tree.yesScores, j);
  }

  lemma {:induction false} SumForListed(scores: seq<AppScore>, j: nat)
    requires Distinct(Apps(scores)) && j < |scores|
    ensures SumFor(scores, scores[j].app) == scores[j].score
  {
    var last := |scores| - 1;
    var init := scores[..last];
    FusionOrder.DistinctInit(scores);
    if j < last {
      assert Apps(scores)[j] != Apps(scores)[last];
      SumForListed(init, j);
    } else {
      SumForAbsent(init, scores[last].app);
    }
  }

  lemma {:induction false} SumForAbsent(scores: seq<AppScore>, app: string)
    requires app !in Apps(scores)
    ensures SumFor(scores, app) == 0.0
  {
    if scores != [] {
      assert Apps(scores) == Apps(scores[..|scores| - 1]) + [scores[|scores| - 1].app];
      SumForAbsent(scores[..|scores| - 1], app);
    }
  }
}
