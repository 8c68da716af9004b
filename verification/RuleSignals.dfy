/** Which events of a window make the rule-based backend propose what. */
module RuleSignals {
  import opened Wrappers
  import opened Spec
  import opened RuleBackend

  /* ----- What a window shows ----- */

  predicate ShowsFile(events: seq<SanitizedEvent>) {
    exists i :: 0 <= i < |events| && events[i].eventType.Notification? && FileMention in events[i].eventType.semanticHints
  }

  predicate ShowsScreenOn(events: seq<SanitizedEvent>) {
    exists i :: 0 <= i < |events| && events[i].eventType == Screen(Interactive)
  }

  predicate ShowsLowBattery(events: seq<SanitizedEvent>) {
    exists i :: 0 <= i < |events| && events[i].eventType.SystemStatusEvent?
                && events[i].eventType.status.batteryPct.Some? && events[i].eventType.status.batteryPct.value < 20
  }

  /** The first event that brings an app to the foreground brings this one. */
  ghost predicate FirstInFront(events: seq<SanitizedEvent>, app: string) {
    exists i :: 0 <= i < |events| && events[i].eventType == AppTransitionEvent(app, Foreground)
                && forall j :: 0 <= j < i ==> !InFront(events[j])
  }

  predicate InFront(event: SanitizedEvent) {
    event.eventType.AppTransitionEvent? && event.eventType.transition == Foreground
  }

  /** A process with at least 1024 MB of resident or 128 MB of swapped-out memory. */
  predicate Presses(event: SanitizedEvent) {
    event.eventType.ProcessResource? && (event.eventType.vmRssMb >= 1024 || event.eventType.vmSwapMb >= 128)
  }

  /** The first of the processes with the most resident memory among those that press. */
  ghost predicate Heaviest(events: seq<SanitizedEvent>, i: int) {
    && 0 <= i < |events| && Presses(events[i])
    && forall j :: 0 <= j < |events| && Presses(events[j]) ==>
         events[j].eventType.vmRssMb < events[i].eventType.vmRssMb ||
         (events[j].eventType.vmRssMb == events[i].eventType.vmRssMb && i <= j)
  }

  ghost predicate HeaviestIs(events: seq<SanitizedEvent>, package: Option<string>) {
    exists i :: Heaviest(events, i) && events[i].eventType.processPackage == package
  }

  lemma ShowsAreSignals(events: seq<SanitizedEvent>)
    ensures AnyEvent(events, MentionsFile) <==> ShowsFile(events)
    ensures AnyEvent(events, TurnsScreenOn) <==> ShowsScreenOn(events)
    ensures AnyEvent(events, ReportsLowBattery) <==> ShowsLowBattery(events)
  {
  }

  lemma FirstInFrontIsSignal(events: seq<SanitizedEvent>, app: string)
    ensures FirstForeground(events) == Some(app) <==> FirstInFront(events, app)
  {
    FirstForegroundIsFirst(events);
    forall i | 0 <= i < |events| ensures ComesToForeground(events[i]).Some? <==> InFront(events[i]) {
    }
    if FirstForeground(events).Some? {
      var i :| 0 <= i < |events| && ComesToForeground(events[i]) == FirstForeground(events)
               && forall j :: 0 <= j < i ==> ComesToForeground(events[j]).None?;
      assert events[i].eventType == AppTransitionEvent(FirstForeground(events).value, Foreground);
      if FirstInFront(events, app) {
        var k :| 0 <= k < |events| && events[k].eventType == AppTransitionEvent(app, Foreground)
                 && forall j :: 0 <= j < k ==> !InFront(events[j]);
        assert InFront(events[k]) && InFront(events[i]);
        assert i == k;
      }
    }
  }

  lemma HeaviestIsSignal(events: seq<SanitizedEvent>, package: Option<string>)
    ensures (WorstOffender(events).Some? && WorstOffender(events).value.package == package) <==> HeaviestIs(events, package)
  {
    hide WorstOffender;
    WorstOffenderIsWorst(events);
    forall i | 0 <= i < |events|
      ensures PressureOf(events[i]).Some? <==> Presses(events[i])
      ensures Presses(events[i]) ==>
                PressureOf(events[i]) == Some(Offender(events[i].eventType.vmRssMb, events[i].eventType.processPackage))
    {
    }
    hide PressureOf, Presses;
    if WorstOffender(events).Some? {
      var i :| IsWorst(events, i) && PressureOf(events[i]) == WorstOffender(events);
      assert Heaviest(events, i);
      if HeaviestIs(events, package) {
        var k :| Heaviest(events, k) && events[k].eventType.processPackage == package;
        assert i == k;
      }
    }
  }

  /* ----- What that calls for ----- */

  function Proposal(t: IntentType, confidence: real, action: SuggestedAction, tag: string): Intent {
    Intent("", t, confidence, RiskLevel.Low, [action], [tag])
  }

  /** The app a notification is taken to come from. */
  function FirstNotified(ctx: StructuredContext): string {
    if ctx.summary.notifiedApps == [] then "" else ctx.summary.notifiedApps[0]
  }

  /** Nothing in the window calls for anything. */
  ghost predicate Uneventful(ctx: StructuredContext) {
    && !ShowsFile(ctx.events) && ctx.summary.notifiedApps == []
    && (forall app :: !FirstInFront(ctx.events, app))
    && !ShowsScreenOn(ctx.events) && !ShowsLowBattery(ctx.events)
    && (forall package :: !HeaviestIs(ctx.events, package))
  }

  ghost predicate CalledFor(ctx: StructuredContext, intent: Intent) {
    var app := FirstNotified(ctx);
    || (ShowsFile(ctx.events) &&
        intent == Proposal(OpenApp(app), 0.70, SuggestedAction(KeepAlive, Some(app), Immediate), "file_received"))
    || (!ShowsFile(ctx.events) && ctx.summary.notifiedApps != [] &&
        intent == Proposal(OpenApp(app), 0.55, SuggestedAction(KeepAlive, Some(app), IdleTime), "notification_engagement"))
    || (exists p ::
          FirstInFront(ctx.events, p) &&
          intent == Proposal(SwitchToApp(p), 0.80, SuggestedAction(KeepAlive, Some(p), Immediate), "app_foreground_observed"))
    || (ShowsScreenOn(ctx.events) &&
        intent == Proposal(Idle, 0.60, SuggestedAction(KeepAlive, Some("work:collector_heartbeat"), IdleTime), "screen_on"))
    || (ShowsLowBattery(ctx.events) &&
        intent == Proposal(Idle, 0.80, SuggestedAction(ReleaseMemory, Some("cache:prefetch"), Immediate), "low_battery"))
    || (exists p ::
          HeaviestIs(ctx.events, p) &&
          intent == Proposal(Idle, 0.65, SuggestedAction(ReleaseMemory, p, Immediate), "memory_pressure"))
    || (Uneventful(ctx) && intent == Proposal(Idle, 0.50, SuggestedAction(NoOp, None, IdleTime), "idle_window"))
  }

  lemma WhenHolds(condition: bool, x: Intent, intent: Intent)
    ensures intent in When(condition, x) <==> condition && intent == x
    ensures When(condition, x) == [] <==> !condition
  {
  }

  lemma InSignalled(ctx: StructuredContext, intent: Intent)
    ensures var notified, foreground, worst := ctx.summary.notifiedApps, FirstForeground(ctx.events), WorstOffender(ctx.events);
            var file := AnyEvent(ctx.events, MentionsFile);
            intent in Signalled(ctx) <==>
              || (file && intent == FileReceived(HeadOr(notified, "")))
              || (!file && notified != [] && intent == Engagement(HeadOr(notified, "")))
              || (foreground.Some? && intent == Observed(foreground.value))
              || (AnyEvent(ctx.events, TurnsScreenOn) && intent == SCREEN_ON)
              || (AnyEvent(ctx.events, ReportsLowBattery) && intent == LOW_BATTERY)
              || (worst.Some? && intent == MemoryPressure(worst.value.package))
  {
    hide When, AnyEvent, FirstForeground, WorstOffender, FileReceived, Engagement, Observed, MemoryPressure;
    var notified, foreground, worst := ctx.summary.notifiedApps, FirstForeground(ctx.events), WorstOffender(ctx.events);
    var file := AnyEvent(ctx.events, MentionsFile);
    WhenHolds(file, FileReceived(HeadOr(notified, "")), intent);
    WhenHolds(!file && notified != [], Engagement(HeadOr(notified, "")), intent);
    WhenHolds(foreground.Some?, Observed(if foreground.Some? then foreground.value else ""), intent);
    WhenHolds(AnyEvent(ctx.events, TurnsScreenOn), SCREEN_ON, intent);
    WhenHolds(AnyEvent(ctx.events, ReportsLowBattery), LOW_BATTERY, intent);
    WhenHolds(worst.Some?, MemoryPressure(if worst.Some? then worst.value.package else None), intent);
  }

  lemma NothingSignalled(ctx: StructuredContext)
    ensures Signalled(ctx) == [] <==> Uneventful(ctx)
  {
    hide AnyEvent, FirstForeground, WorstOffender, ShowsFile, ShowsScreenOn, ShowsLowBattery, FirstInFront, HeaviestIs;
    hide FileReceived, Engagement, Observed, MemoryPressure;
    ShowsAreSignals(ctx.events);
    forall app { FirstInFrontIsSignal(ctx.events, app); }
    forall package { HeaviestIsSignal(ctx.events, package); }
    if FirstForeground(ctx.events).Some? {
      FirstInFrontIsSignal(ctx.events, FirstForeground(ctx.events).value);
    }
    if WorstOffender(ctx.events).Some? {
      HeaviestIsSignal(ctx.events, WorstOffender(ctx.events).value.package);
    }
  }

  /** Exactly the intents that the window calls for are proposed. */
  lemma IntentsAreCalledFor(ctx: StructuredContext, intent: Intent)
    ensures intent in RuleIntents(ctx) <==> CalledFor(ctx, intent)
  {
    hide AnyEvent, FirstForeground, WorstOffender, ShowsFile, ShowsScreenOn, ShowsLowBattery, FirstInFront, HeaviestIs;
    hide Signalled, Uneventful;
    InSignalled(ctx, intent);
    NothingSignalled(ctx);
    ShowsAreSignals(ctx.events);
    forall app { FirstInFrontIsSignal(ctx.events, app); }
    forall package { HeaviestIsSignal(ctx.events, package); }
    if FirstForeground(ctx.events).Some? {
      FirstInFrontIsSignal(ctx.events, FirstForeground(ctx.events).value);
    }
    if WorstOffender(ctx.events).Some? {
      HeaviestIsSignal(ctx.events, WorstOffender(ctx.events).value.package);
    }
    if Signalled(ctx) == [] {
      assert intent !in Signalled(ctx);
    }
  }

  /* ----- In what order ----- */

  const TAGS := ["file_received", "notification_engagement", "app_foreground_observed", "screen_on", "low_battery",
                 "memory_pressure", "idle_window"]

  /** The intent carries the `k`-th tag, and no other. */
  predicate Tagged(intent: Intent, k: int) {
    0 <= k < |TAGS| && intent.rationaleTags == [TAGS[k]]
  }

  ghost predicate HasTag(intent: Intent, from: int) {
    exists k :: k < from && Tagged(intent, k)
  }

  /** The intents carry one tag each, from the first tags of the list, and come in the list's order. */
  ghost predicate InOrder(intents: seq<Intent>, from: int) {
    && (forall n :: 0 <= n < |intents| ==> HasTag(intents[n], from))
    && (forall m, n, j, k :: 0 <= m < n < |intents| && Tagged(intents[m], j) && Tagged(intents[n], k) ==> j < k)
  }

  lemma TagsDiffer(j: nat, k: nat)
    requires j < |TAGS| && k < |TAGS| && TAGS[j] == TAGS[k]
    ensures j == k
  {
    assert |TAGS[j]| == |TAGS[k]|;
  }

  lemma TagIsUnique(intent: Intent, j: int, k: int)
    requires Tagged(intent, j) && Tagged(intent, k)
    ensures j == k
  {
    hide TAGS;
    assert [TAGS[j]][0] == [TAGS[k]][0];
    TagsDiffer(j, k);
  }

  lemma AppendInOrder(intents: seq<Intent>, condition: bool, x: Intent, k: nat)
    requires InOrder(intents, k) && Tagged(x, k)
    ensures InOrder(intents + When(condition, x), k + 1)
  {
    hide Tagged;
    var all := intents + When(condition, x);
    assert forall n :: 0 <= n < |intents| ==> all[n] == intents[n];
    forall m, n, i, j | 0 <= m < n < |all| && Tagged(all[m], i) && Tagged(all[n], j) ensures i < j {
      if n == |intents| {
        var h :| h < k && Tagged(intents[m], h);
        TagIsUnique(all[m], h, i);
        TagIsUnique(x, k, j);
      } else {
        assert Tagged(intents[m], i) && Tagged(intents[n], j);
      }
    }
    forall n | 0 <= n < |all| ensures HasTag(all[n], k + 1) {
      if n < |intents| {
        assert HasTag(intents[n], k);
      } else {
        assert Tagged(x, k);
      }
    }
  }

  lemma NothingInOrder()
    ensures InOrder([], 0)
  {
  }

  lemma OrderOfIntents(app: string, package: Option<string>)
    ensures Tagged(FileReceived(app), 0) && Tagged(Engagement(app), 1) && Tagged(Observed(app), 2)
    ensures Tagged(SCREEN_ON, 3) && Tagged(LOW_BATTERY, 4) && Tagged(MemoryPressure(package), 5) && Tagged(IDLE_WINDOW, 6)
  {
  }

  /** The proposals come in a fixed order, at most one of each kind: files, engagement, the app in front, the
      screen, the battery, memory, and an idle intent last. */
  lemma IntentsAreOrdered(ctx: StructuredContext)
    ensures InOrder(RuleIntents(ctx), 7)
  {
    hide TAGS, Tagged, When, AnyEvent, FirstForeground, WorstOffender, FileReceived, Engagement, Observed, MemoryPressure, InOrder;
    var notified, foreground, worst := ctx.summary.notifiedApps, FirstForeground(ctx.events), WorstOffender(ctx.events);
    var file, screen, battery := AnyEvent(ctx.events, MentionsFile), AnyEvent(ctx.events, TurnsScreenOn), AnyEvent(ctx.events, ReportsLowBattery);
    var first, front := HeadOr(notified, ""), if foreground.Some? then foreground.value else "";
    var package := if worst.Some? then worst.value.package else None;
    OrderOfIntents(first, package);
    OrderOfIntents(front, package);
    NothingInOrder();
    var a := When(file, FileReceived(first));
    var b := a + When(!file && notified != [], Engagement(first));
    var c := b + When(foreground.Some?, Observed(front));
    var d := c + When(screen, SCREEN_ON);
    var e := d + When(battery, LOW_BATTERY);
    var f := e + When(worst.Some?, MemoryPressure(package));
    AppendInOrder([], file, FileReceived(first), 0);
    assert [] + a == a;
    AppendInOrder(a, !file && notified != [], Engagement(first), 1);
    AppendInOrder(b, foreground.Some?, Observed(front), 2);
    AppendInOrder(c, screen, SCREEN_ON, 3);
    AppendInOrder(d, battery, LOW_BATTERY, 4);
    AppendInOrder(e, worst.Some?, MemoryPressure(package), 5);
    assert f == Signalled(ctx);
    WhenAlways(IDLE_WINDOW);
    AppendInOrder(f, f == [], IDLE_WINDOW, 6);
    WhenHolds(f == [], IDLE_WINDOW, IDLE_WINDOW);
    assert f + [] == f && [] + [IDLE_WINDOW] == [IDLE_WINDOW];
  }

  lemma WhenAlways(x: Intent)
    ensures When(true, x) == [x] && When(false, x) == []
  {
  }
}
