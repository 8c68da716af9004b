/** Next-app model artifacts: what one must satisfy to be loaded, and the validator that decides it. */
module Artifacts {
  import opened Wrappers
  import opened Sorting
  import opened Ensemble

  /* ----- Artifacts ----- */

  datatype Tree = Tree(featureKey: string, yesScores: seq<AppScore>)

  datatype Combiner = Combiner(components: seq<string>, weights: seq<real>)

  datatype Logistic = Logistic(featureNames: seq<string>, weights: seq<real>)

  datatype Artifact = Artifact(
    schemaVersion: string,
    appVocab: seq<string>,
    globalPopularity: seq<AppScore>,
    classLogPriors: seq<real>,
    unknownLogProbs: seq<real>,
    featureLogProbs: map<string, seq<real>>,
    globalTransitions: map<string, seq<AppScore>>,
    userTransitions: map<string, seq<AppScore>>,
    order2Transitions: map<string, seq<AppScore>>,
    baseScores: seq<real>,
    trees: seq<Tree>,
    userFrequency: map<string, seq<AppScore>>,
    userRecency: map<string, string>,
    markovContext: map<string, seq<AppScore>>,
    combiner: Combiner,
    logistic: Logistic)

  const SCHEMA_VERSION := "dipecs.next_app_model.v1"

  /* ----- What a valid artifact is ----- */

  function Apps(scores: seq<AppScore>): (r: seq<string>)
    ensures |r| == |scores|
    ensures forall i :: 0 <= i < |scores| ==> r[i] == scores[i].app
  {
    seq(|scores|, i requires 0 <= i < |scores| => scores[i].app)
  }

  /** A ranking of distinct apps of the vocabulary. */
  ghost predicate Safe(vocab: seq<string>, scores: seq<AppScore>) {
    Distinct(Apps(scores)) && forall app :: app in Apps(scores) ==> app in vocab
  }

  ghost predicate Full(vocab: seq<string>, scores: seq<AppScore>) {
    Safe(vocab, scores) && |scores| == |vocab|
  }

  ghost predicate AllSafe(vocab: seq<string>, tables: map<string, seq<AppScore>>) {
    forall key :: key in tables ==> Safe(vocab, tables[key])
  }

  /** The part after the last tab of a two-part key. */
  function AfterLastTab(key: string): Option<string> {
    if key == [] then None
    else if key[|key| - 1] == '\t' then Some([])
    else
      var rest := AfterLastTab(key[..|key| - 1]);
      if rest.None? then None else Some(rest.value + [key[|key| - 1]])
  }

  predicate KeyedByApp(vocab: seq<string>, key: string) {
    AfterLastTab(key).Some? && AfterLastTab(key).value in vocab
  }

  predicate CombinerEmpty(c: Combiner) {
    c.components == [] || |c.components| != |c.weights|
  }

  ghost predicate ValidCombiner(c: Combiner) {
    || (c.components == [] && c.weights == [])
    || (&& c.components != [] && |c.components| == |c.weights|
        && Distinct(c.components)
        && (forall i :: 0 <= i < |c.components| ==> c.components[i] in COMPONENTS)
        && AllNonNegative(c.weights))
  }

  function FeatureNames(n: nat): seq<string>
    requires n <= |COMPONENTS|
  {
    if n == 0 then []
    else
      FeatureNames(n - 1) +
      [COMPONENTS[n - 1] + ":rank_rr", COMPONENTS[n - 1] + ":score", COMPONENTS[n - 1] + ":top1"]
  }

  predicate LogisticEmpty(m: Logistic) {
    m.featureNames == [] || |m.featureNames| != |m.weights|
  }

  predicate ValidLogistic(m: Logistic) {
    || (m.featureNames == [] && m.weights == [])
    || (m.featureNames == FeatureNames(|COMPONENTS|) && |m.weights| == |m.featureNames|)
  }

  ghost predicate ValidSizes(a: Artifact) {
    var classes := |a.appVocab|;
    && |a.classLogPriors| == |a.unknownLogProbs| == |a.baseScores| == classes
    && (forall key :: key in a.featureLogProbs ==> |a.featureLogProbs[key]| == classes)
  }

  ghost predicate ValidArtifact(a: Artifact) {
    && a.schemaVersion == SCHEMA_VERSION
    && a.appVocab != [] && Distinct(a.appVocab)
    && ValidSizes(a)
    && Full(a.appVocab, a.globalPopularity)
    && AllSafe(a.appVocab, a.globalTransitions)
    && (forall key :: key in a.globalTransitions ==> key in a.appVocab)
    && AllSafe(a.appVocab, a.userTransitions)
    && (forall key :: key in a.userTransitions ==> KeyedByApp(a.appVocab, key))
    && AllSafe(a.appVocab, a.order2Transitions)
    && (forall key :: key in a.order2Transitions ==> KeyedByApp(a.appVocab, key))
    && (forall i :: 0 <= i < |a.trees| ==> Full(a.appVocab, a.trees[i].yesScores))
    && AllSafe(a.appVocab, a.markovContext)
    && AllSafe(a.appVocab, a.userFrequency)
    && (forall key :: key in a.userRecency ==> KeyedByApp(a.appVocab, key) && a.userRecency[key] in a.appVocab)
    && ValidCombiner(a.combiner)
    && ValidLogistic(a.logistic)
  }

  /* ----- The validators ----- */

  method ValidateScoreList(vocab: seq<string>, scores: seq<AppScore>, requireFull: bool) returns (ok: bool)
    ensures ok <==> Safe(vocab, scores) && (requireFull ==> |scores| == |vocab|)
  {
    if requireFull && |scores| != |vocab| {
      return false;
    }
    var seen: set<string> := {};
    for i := 0 to |scores|
      invariant forall app :: app in seen <==> exists j :: 0 <= j < i && Apps(scores)[j] == app
      invariant forall j :: 0 <= j < i ==> scores[j].app in vocab
      invariant forall j, k :: 0 <= j < k < i ==> Apps(scores)[j] != Apps(scores)[k]
    {
      if scores[i].app !in vocab {
        assert Apps(scores)[i] in Apps(scores);
        return false;
      }
      if scores[i].app in seen {
        return false;
      }
      seen := seen + {scores[i].app};
    }
    ok := true;
  }

  /** Every table has an acceptable key and ranks distinct apps of the vocabulary. */
  method ValidateTables(vocab: seq<string>, tables: map<string, seq<AppScore>>, accepts: string -> bool)
    returns (ok: bool)
    ensures ok <==> AllSafe(vocab, tables) && (forall key :: key in tables ==> accepts(key))
  {
    hide Safe;
    var keys := tables.Keys;
    while keys != {}
      invariant keys <= tables.Keys
      invariant forall key :: key in tables && key !in keys ==> accepts(key) && Safe(vocab, tables[key])
      decreases keys
    {
      var key :| key in keys;
      if !accepts(key) {
        return false;
      }
      var safe := ValidateScoreList(vocab, tables[key], false);
      if !safe {
        return false;
      }
      keys := keys - {key};
    }
    ok := true;
  }

  method ValidateVocab(vocab: seq<string>) returns (ok: bool)
    ensures ok <==> vocab != [] && Distinct(vocab)
  {
    if vocab == [] {
      return false;
    }
    var seen: set<string> := {};
    for i := 0 to |vocab|
      invariant forall app :: app in seen <==> exists j :: 0 <= j < i && vocab[j] == app
      invariant forall j, k :: 0 <= j < k < i ==> vocab[j] != vocab[k]
    {
      if vocab[i] in seen {
        return false;
      }
      seen := seen + {vocab[i]};
    }
    ok := true;
  }

  method ValidateTrees(vocab: seq<string>, trees: seq<Tree>) returns (ok: bool)
    ensures ok <==> forall i :: 0 <= i < |trees| ==> Full(vocab, trees[i].yesScores)
  {
    hide Safe;
    for i := 0 to |trees|
      invariant forall j :: 0 <= j < i ==> Full(vocab, trees[j].yesScores)
    {
      var full := ValidateScoreList(vocab, trees[i].yesScores, true);
      if !full {
        return false;
      }
    }
    ok := true;
  }

  method ValidateCombiner(c: Combiner) returns (ok: bool)
    ensures ok <==> ValidCombiner(c)
  {
    if c.components == [] && c.weights == [] {
      return true;
    }
    if c.components == [] || c.weights == [] || |c.components| != |c.weights| {
      return false;
    }
    var seen: set<string> := {};
    for i := 0 to |c.components|
      invariant forall name :: name in seen <==> exists j :: 0 <= j < i && c.components[j] == name
      invariant forall j :: 0 <= j < i ==> c.components[j] in COMPONENTS && c.weights[j] >= 0.0
      invariant forall j, k :: 0 <= j < k < i ==> c.components[j] != c.components[k]
    {
      if c.components[i] !in COMPONENTS || c.components[i] in seen || c.weights[i] < 0.0 {
        return false;
      }
      seen := seen + {c.components[i]};
    }
    ok := true;
  }

  /** The whole validator accepts exactly the valid artifacts. */
  method ValidateArtifact(a: Artifact) returns (ok: bool)
    ensures ok <==> ValidArtifact(a)
  {
    hide Safe, ValidCombiner, FeatureNames, KeyedByApp, AllSafe, Distinct;
    if a.schemaVersion != SCHEMA_VERSION {
      return false;
    }
    var vocab := a.appVocab;
    ok := ValidateVocab(vocab);
    if !ok {
      return;
    }
    if |a.classLogPriors| != |vocab| || |a.unknownLogProbs| != |vocab| || |a.baseScores| != |vocab| {
      return false;
    }
    if exists key :: key in a.featureLogProbs && |a.featureLogProbs[key]| != |vocab| {
      return false;
    }
    ok := ValidateScoreList(vocab, a.globalPopularity, true);
    if !ok {
      return;
    }
    ok := ValidateTables(vocab, a.globalTransitions, key => key in vocab);
    if !ok {
      return;
    }
    ok := ValidateTables(vocab, a.userTransitions, key => KeyedByApp(vocab, key));
    if !ok {
      return;
    }
    ok := ValidateTables(vocab, a.order2Transitions, key => KeyedByApp(vocab, key));
    if !ok {
      return;
    }
    ok := ValidateTrees(vocab, a.trees);
    if !ok {
      return;
    }
    ok := ValidateTables(vocab, a.markovContext, key => true);
    if !ok {
      return;
    }
    ok := ValidateTables(vocab, a.userFrequency, key => true);
    if !ok {
      return;
    }
    if exists key :: key in a.userRecency && !(KeyedByApp(vocab, key) && a.userRecency[key] in vocab) {
      return false;
    }
    ok := ValidateCombiner(a.combiner);
    if !ok {
      return;
    }
    ok := ValidLogistic(a.logistic);
  }

  /** A fitted combiner is accepted. */
  lemma FittedCombinerIsValid(weights: seq<real>)
    requires |weights| == |COMPONENTS| && AllNonNegative(weights)
    ensures ValidCombiner(Combiner(COMPONENTS, weights))
  {
    var c := COMPONENTS;
    assert forall i :: 0 <= i < |c| ==> c[i] in c;
    assert Distinct(c);
  }
}
