/** The predictive backend: next-app predictions turned into intents the policy lets through. */
module PredictiveBackend {
  import opened Wrappers
  import opened Spec
  import opened Policy
  import opened Ensemble
  import opened Artifacts
  import opened Ranking
  import opened Predictor
  import Calendar

  const MAX_BACKEND_INTENTS := 5

  const POLICY_CONFIDENCE_FLOOR := 0.30

  /** The current window, and for each remembered decision the apps its window showed in the foreground. */
  datatype ModelInput = ModelInput(
    currentContext: StructuredContext, userId: Option<string>, recentForeground: seq<seq<string>>)

  /* ----- Features ----- */

  function LatestForeground(events: seq<SanitizedEvent>): Option<string> {
    if events == [] then None
    else match events[|events| - 1].eventType
      case AppTransitionEvent(p, Foreground) => Some(p)
      case _ => LatestForeground(events[..|events| - 1])
  }

  function CurrentApp(ctx: StructuredContext): Option<string> {
    var latest := LatestForeground(ctx.events);
    if latest.Some? then latest else Last(ctx.summary.foregroundApps)
  }

  function Reversed(s: seq<string>): (r: seq<string>)
    ensures |r| == |s|
  {
    if s == [] then [] else [s[|s| - 1]] + Reversed(s[..|s| - 1])
  }

  /** All remembered foreground apps, newest first. */
  function NewestFirst(records: seq<seq<string>>): seq<string> {
    if records == [] then []
    else Reversed(records[|records| - 1]) + NewestFirst(records[..|records| - 1])
  }

  function Take(s: seq<string>, n: nat): seq<string> {
    if |s| <= n then s else s[..n]
  }

  function History(records: seq<seq<string>>): seq<string> {
    Reversed(Take(NewestFirst(records), 5))
  }

  function EventName(event: SanitizedEvent): string {
    match event.eventType
    case AppTransitionEvent(_, _) => "app_transition"
    case Notification(_, _, _) => "notification"
    case FileActivity(_, _, _) => "file_activity"
    case Screen(_) => "screen"
    case SystemStatusEvent(_) => "system_status"
    case ProcessResource(_, _, _) => "process_resource"
    case InterAppInteraction(_, _) => "inter_app"
  }

  function FeaturesOf(input: ModelInput): Features {
    var ctx := input.currentContext;
    Features(input.userId, CurrentApp(ctx), History(input.recentForeground),
             Some(Calendar.HourBucket(ctx.windowEndMs)), Some(Calendar.Weekday(ctx.windowEndMs)),
             if ctx.events == [] then None else Some(EventName(ctx.events[|ctx.events| - 1])))
  }

  function Concat(records: seq<seq<string>>): seq<string> {
    if records == [] then [] else Concat(records[..|records| - 1]) + records[|records| - 1]
  }

  lemma {:induction false} ReversedConcat(a: seq<string>, b: seq<string>)
    ensures Reversed(a + b) == Reversed(b) + Reversed(a)
  {
    if b == [] {
      assert a + b == a;
    } else {
      assert (a + b)[..|a + b| - 1] == a + b[..|b| - 1];
      ReversedConcat(a, b[..|b| - 1]);
    }
  }

  lemma {:induction false} ReversedTwice(s: seq<string>)
    ensures Reversed(Reversed(s)) == s
  {
    if s != [] {
      var last := s[|s| - 1];
      ReversedConcat([last], Reversed(s[..|s| - 1]));
      ReversedTwice(s[..|s| - 1]);
      assert [last][..0] == [] && Reversed([last]) == [last];
    }
  }

  lemma {:induction false} NewestFirstIsReversed(records: seq<seq<string>>)
    ensures NewestFirst(records) == Reversed(Concat(records))
  {
    if records != [] {
      NewestFirstIsReversed(records[..|records| - 1]);
      ReversedConcat(Concat(records[..|records| - 1]), records[|records| - 1]);
    }
  }

  /** The history is the last five remembered foreground apps, in the order they were seen. */
  lemma HistoryIsLastFive(records: seq<seq<string>>)
    ensures History(records) ==
            if |Concat(records)| <= 5 then Concat(records) else Concat(records)[|Concat(records)| - 5..]
  {
    var all := Concat(records);
    NewestFirstIsReversed(records);
    if |all| <= 5 {
      ReversedTwice(all);
    } else {
      var cut := |all| - 5;
      assert all == all[..cut] + all[cut..];
      ReversedConcat(all[..cut], all[cut..]);
      assert Take(Reversed(all), 5) == Reversed(all[cut..]);
      ReversedTwice(all[cut..]);
    }
  }

  /* ----- Predictions into intents ----- */

  method AddMentioned(packages0: set<string>, event: SanitizedEvent) returns (packages: set<string>)
    ensures packages == packages0 + MentionedPackages(event)
  {
    packages := packages0;
    if event.appPackage.Some? {
      packages := packages + {event.appPackage.value};
    }
    match event.eventType {
      case AppTransitionEvent(p, _) => packages := packages + {p};
      case Notification(p, _, _) => packages := packages + {p};
      case ProcessResource(Some(p), _, _) => packages := packages + {p};
      case _ =>
    }
  }

  /** The packages a window mentions, gathered apart from the policy engine and yet the same. */
  method KnownPackages(ctx: StructuredContext) returns (packages: set<string>)
    ensures packages == TargetsOf(ctx).packages
  {
    hide MentionedPackages, Mentions, Knows;
    packages := set p | p in ctx.summary.foregroundApps;
    packages := packages + set p | p in ctx.summary.notifiedApps;
    ghost var summarized := packages;
    for n := 0 to |ctx.events|
      invariant packages == summarized + EventPackages(ctx.events[..n])
    {
      assert ctx.events[..n + 1][..n] == ctx.events[..n];
      packages := AddMentioned(packages, ctx.events[n]);
    }
    assert ctx.events[..|ctx.events|] == ctx.events;
  }

  function Clamp(x: real): (r: real)
    ensures POLICY_CONFIDENCE_FLOOR <= r <= 0.99
    ensures POLICY_CONFIDENCE_FLOOR <= x <= 0.99 ==> r == x
  {
    if x < POLICY_CONFIDENCE_FLOOR then POLICY_CONFIDENCE_FLOOR else if x > 0.99 then 0.99 else x
  }

  function PredictionToIntent(prediction: AppScore, known: set<string>): Intent {
    if prediction.app in known then
      Intent("", SwitchToApp(prediction.app), Clamp(prediction.score), RiskLevel.Low,
             [SuggestedAction(PreWarmProcess, Some("pkg:" + prediction.app), Immediate)],
             ["predictive:next_app", "predictive:target_in_context"])
    else
      Intent("", OpenApp(prediction.app), Clamp(prediction.score), RiskLevel.Low,
             [SuggestedAction(KeepAlive, Some("work:collector_heartbeat"), Immediate)],
             ["predictive:next_app", "predictive:target_not_in_context_safe_keepalive"])
  }

  const IDLE_INTENT :=
    Intent("", Idle, 0.50, RiskLevel.Low, [SuggestedAction(NoOp, None, IdleTime)], ["predictive:idle_no_prediction"])

  function IntentsFor(predictions: seq<AppScore>, known: set<string>): seq<Intent> {
    if predictions == [] then [IDLE_INTENT]
    else seq(|predictions|, i requires 0 <= i < |predictions| => PredictionToIntent(predictions[i], known))
  }

  ghost function Predictions(p: Predictor, num: Numerics, input: ModelInput): seq<AppScore>
    requires ValidSizes(p.artifact)
  {
    Served(p.artifact, num, FeaturesOf(input), Fusion, MAX_BACKEND_INTENTS)
  }

  method EvaluateModelInput(p: Predictor, num: Numerics, input: ModelInput) returns (intents: seq<Intent>)
    requires p.Loaded()
    ensures intents == IntentsFor(Predictions(p, num, input), TargetsOf(input.currentContext).packages)
  {
    hide Served, FeaturesOf, TargetsOf;
    var known := KnownPackages(input.currentContext);
    var predictions := Rank(p, num, FeaturesOf(input), Fusion, MAX_BACKEND_INTENTS);
    intents := IntentsFor(predictions, known);
  }

  /* ----- What is proposed ----- */

  function PredictiveRules(ctx: StructuredContext): Rules {
    Rules(DEFAULT_CONFIG, CapabilityForRoute(DecisionRoute.LocalEvaluator), Some(TargetsOf(ctx)))
  }

  lemma PredictionIsApproved(ctx: StructuredContext, prediction: AppScore, i: nat)
    requires i < |PredictionToIntent(prediction, TargetsOf(ctx).packages).suggestedActions|
    ensures Verdict(PredictiveRules(ctx), PredictionToIntent(prediction, TargetsOf(ctx).packages), i) == Approved
  {
    hide TargetsOf;
    var intent := PredictionToIntent(prediction, TargetsOf(ctx).packages);
    var target := "pkg:" + prediction.app;
    assert target[4..] == prediction.app && target[0] == 'p';
    assert intent.suggestedActions[..0] == [];
  }

  /** Whatever the artifact predicts, and whatever the window, every proposed action is approved. */
  lemma PredictiveActionsAreApproved(ctx: StructuredContext, predictions: seq<AppScore>, n: nat, i: nat)
    requires n < |IntentsFor(predictions, TargetsOf(ctx).packages)|
    requires i < |IntentsFor(predictions, TargetsOf(ctx).packages)[n].suggestedActions|
    ensures Verdict(PredictiveRules(ctx), IntentsFor(predictions, TargetsOf(ctx).packages)[n], i) == Approved
  {
    hide TargetsOf, PredictionToIntent;
    if predictions != [] {
      PredictionIsApproved(ctx, predictions[n], i);
    }
  }

  /** The app an intent is about. */
  function AppOf(t: IntentType): Option<string> {
    match t case OpenApp(p) => Some(p) case SwitchToApp(p) => Some(p) case _ => None
  }

  /** At most five intents for distinct known apps, none for the app the user is in; an idle one stands
      alone, and only when the vocabulary has no other app. */
  lemma PredictiveIntentsAreDistinct(p: Predictor, num: Numerics, input: ModelInput, known: set<string>)
    requires ValidArtifact(p.artifact)
    ensures var intents := IntentsFor(Predictions(p, num, input), known);
            && 1 <= |intents| <= MAX_BACKEND_INTENTS
            && (forall i, j :: 0 <= i < j < |intents| ==> AppOf(intents[i].intentType) != AppOf(intents[j].intentType))
            && (forall i :: 0 <= i < |intents| && intents[i] != IDLE_INTENT ==>
                  AppOf(intents[i].intentType).Some? && AppOf(intents[i].intentType).value in p.artifact.appVocab
                  && AppOf(intents[i].intentType) != CurrentApp(input.currentContext))
            && (intents == [IDLE_INTENT] <==>
                  forall app :: app in p.artifact.appVocab ==> Some(app) == CurrentApp(input.currentContext))
  {
    hide Served, CurrentApp, Clamp, AllSafe, Full, KeyedByApp, ValidLogistic, ValidCombiner;
    var predictions := Predictions(p, num, input);
    ServedIsSafe(p.artifact, num, FeaturesOf(input), Fusion, MAX_BACKEND_INTENTS);
    forall i | 0 <= i < |predictions|
      ensures predictions[i].app in p.artifact.appVocab && Some(predictions[i].app) != CurrentApp(input.currentContext)
      ensures AppOf(PredictionToIntent(predictions[i], known).intentType) == Some(predictions[i].app)
    {
      assert Apps(predictions)[i] in Apps(predictions);
    }
    forall i, j | 0 <= i < j < |predictions| ensures predictions[i].app != predictions[j].app {
      assert Apps(predictions)[i] != Apps(predictions)[j];
    }
    assert AppOf(IDLE_INTENT.intentType) == None;
    if predictions != [] {
      assert AppOf(IntentsFor(predictions, known)[0].intentType) != AppOf([IDLE_INTENT][0].intentType);
    }
  }
}
