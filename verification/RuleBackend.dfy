/** The rule-based backend: fixed signals of a window, each with its intent. */
module RuleBackend {
  import opened Wrappers
  import opened Text
  import opened Spec
  import opened Context
  import opened Policy

  const MEMORY_PRESSURE_RSS_MB := 1024

  const MEMORY_PRESSURE_SWAP_MB := 128

  /** A process under memory pressure: its resident memory, and its package where that is known. */
  datatype Offender = Offender(rssMb: nat, package: Option<string>)

  /* ----- Signals of one event ----- */

  predicate MentionsFile(event: SanitizedEvent) {
    event.eventType.Notification? && FileMention in event.eventType.semanticHints
  }

  predicate TurnsScreenOn(event: SanitizedEvent) {
    event.eventType == Screen(Interactive)
  }

  predicate ReportsLowBattery(event: SanitizedEvent) {
    match event.eventType
    case SystemStatusEvent(status) => status.batteryPct.Some? && status.batteryPct.value < 20
    case _ => false
  }

  function ComesToForeground(event: SanitizedEvent): Option<string> {
    match event.eventType
    case AppTransitionEvent(p, Foreground) => Some(p)
    case _ => None
  }

  function PressureOf(event: SanitizedEvent): Option<Offender> {
    match event.eventType
    case ProcessResource(p, rss, swap) =>
      if rss >= MEMORY_PRESSURE_RSS_MB || swap >= MEMORY_PRESSURE_SWAP_MB then Some(Offender(rss, p)) else None
    case _ => None
  }

  /* ----- Signals of a window ----- */

  predicate AnyEvent(events: seq<SanitizedEvent>, signal: SanitizedEvent -> bool) {
    exists i :: 0 <= i < |events| && signal(events[i])
  }

  function FirstForeground(events: seq<SanitizedEvent>): Option<string> {
    if events == [] then None
    else
      var earlier := FirstForeground(events[..|events| - 1]);
      if earlier.Some? then earlier else ComesToForeground(events[|events| - 1])
  }

  function Worse(a: Option<Offender>, b: Option<Offender>): Option<Offender> {
    if b.None? then a else if a.None? || b.value.rssMb > a.value.rssMb then b else a
  }

  function WorstOffender(events: seq<SanitizedEvent>): Option<Offender> {
    if events == [] then None
    else Worse(WorstOffender(events[..|events| - 1]), PressureOf(events[|events| - 1]))
  }

  /** The worst offender is the first of the heaviest processes under pressure. */
  ghost predicate IsWorst(events: seq<SanitizedEvent>, i: int) {
    && 0 <= i < |events| && PressureOf(events[i]).Some?
    && forall j :: 0 <= j < |events| && PressureOf(events[j]).Some? ==>
         PressureOf(events[j]).value.rssMb < PressureOf(events[i]).value.rssMb ||
         (PressureOf(events[j]).value.rssMb == PressureOf(events[i]).value.rssMb && i <= j)
  }

  ghost predicate HoldsWorst(events: seq<SanitizedEvent>, worst: Option<Offender>) {
    if worst.None? then forall i :: 0 <= i < |events| ==> PressureOf(events[i]).None?
    else exists i :: IsWorst(events, i) && PressureOf(events[i]) == worst
  }

  lemma {:induction false} WorstOffenderIsWorst(events: seq<SanitizedEvent>)
    ensures HoldsWorst(events, WorstOffender(events))
  {
    hide PressureOf, HoldsWorst;
    if events == [] {
      NobodyIsWorst();
    } else {
      var init, last := events[..|events| - 1], events[|events| - 1];
      WorstOffenderIsWorst(init);
      assert events == init + [last];
      OneMoreOffender(init, last, WorstOffender(init));
    }
  }

  lemma NobodyIsWorst()
    ensures HoldsWorst([], None)
  {
  }

  lemma OneMoreOffender(init: seq<SanitizedEvent>, last: SanitizedEvent, worst: Option<Offender>)
    requires HoldsWorst(init, worst)
    ensures HoldsWorst(init + [last], Worse(worst, PressureOf(last)))
  {
    hide PressureOf;
    var events, n := init + [last], |init|;
    assert events[n] == last && forall j :: 0 <= j < n ==> events[j] == init[j];
    if worst.Some? {
      var i :| IsWorst(init, i) && PressureOf(init[i]) == worst;
      if Worse(worst, PressureOf(last)) == worst {
        assert IsWorst(events, i);
      } else {
        assert IsWorst(events, n);
      }
    } else if PressureOf(last).Some? {
      assert IsWorst(events, n);
    }
  }

  lemma {:induction false} FirstForegroundIsFirst(events: seq<SanitizedEvent>)
    ensures FirstForeground(events).None? <==> forall i :: 0 <= i < |events| ==> ComesToForeground(events[i]).None?
    ensures FirstForeground(events).Some? ==>
              exists i :: 0 <= i < |events| && ComesToForeground(events[i]) == FirstForeground(events)
                          && forall j :: 0 <= j < i ==> ComesToForeground(events[j]).None?
  {
    hide ComesToForeground;
    if events != [] {
      var n := |events| - 1;
      var init := events[..n];
      FirstForegroundIsFirst(init);
      assert forall j :: 0 <= j < n ==> events[j] == init[j];
      if FirstForeground(init).Some? {
        var i :| 0 <= i < n && ComesToForeground(init[i]) == FirstForeground(init)
                 && forall j :: 0 <= j < i ==> ComesToForeground(init[j]).None?;
        assert ComesToForeground(events[i]) == FirstForeground(events);
      } else if ComesToForeground(events[n]).Some? {
        assert ComesToForeground(events[n]) == FirstForeground(events);
      }
    }
  }

  /* ----- Intents ----- */

  function OneAction(t: IntentType, confidence: real, action: ActionType, target: Option<string>, urgency: ActionUrgency,
                     tag: string): Intent {
    Intent("", t, confidence, RiskLevel.Low, [SuggestedAction(action, target, urgency)], [tag])
  }

  function When(condition: bool, intent: Intent): seq<Intent> {
    if condition then [intent] else []
  }

  function HeadOr(s: seq<string>, other: string): string {
    if s == [] then other else s[0]
  }

  function FileReceived(app: string): Intent {
    OneAction(OpenApp(app), 0.70, KeepAlive, Some(app), Immediate, "file_received")
  }

  function Engagement(app: string): Intent {
    OneAction(OpenApp(app), 0.55, KeepAlive, Some(app), IdleTime, "notification_engagement")
  }

  function Observed(app: string): Intent {
    OneAction(SwitchToApp(app), 0.80, KeepAlive, Some(app), Immediate, "app_foreground_observed")
  }

  function MemoryPressure(package: Option<string>): Intent {
    OneAction(Idle, 0.65, ReleaseMemory, package, Immediate, "memory_pressure")
  }

  const SCREEN_ON := OneAction(Idle, 0.60, KeepAlive, Some("work:collector_heartbeat"), IdleTime, "screen_on")

  const LOW_BATTERY := OneAction(Idle, 0.80, ReleaseMemory, Some("cache:prefetch"), Immediate, "low_battery")

  const IDLE_WINDOW := OneAction(Idle, 0.50, NoOp, None, IdleTime, "idle_window")

  /** The intents the signals of a window call for, in a fixed order. */
  function Signalled(ctx: StructuredContext): seq<Intent> {
    var notified := ctx.summary.notifiedApps;
    var fileMention := AnyEvent(ctx.events, MentionsFile);
    var foreground, worst := FirstForeground(ctx.events), WorstOffender(ctx.events);
    When(fileMention, FileReceived(HeadOr(notified, ""))) +
    When(!fileMention && notified != [], Engagement(HeadOr(notified, ""))) +
    When(foreground.Some?, Observed(if foreground.Some? then foreground.value else "")) +
    When(AnyEvent(ctx.events, TurnsScreenOn), SCREEN_ON) +
    When(AnyEvent(ctx.events, ReportsLowBattery), LOW_BATTERY) +
    When(worst.Some?, MemoryPressure(if worst.Some? then worst.value.package else None))
  }

  function RuleIntents(ctx: StructuredContext): (r: seq<Intent>)
    ensures r != []
  {
    if Signalled(ctx) == [] then [IDLE_WINDOW] else Signalled(ctx)
  }

  datatype Flags = Flags(fileMention: bool, foreground: seq<string>, screenOn: bool, lowBattery: bool, worst: Option<Offender>)

  ghost predicate Seen(flags: Flags, events: seq<SanitizedEvent>) {
    && flags.fileMention == AnyEvent(events, MentionsFile)
    && (if flags.foreground == [] then None else Some(flags.foreground[0])) == FirstForeground(events)
    && flags.screenOn == AnyEvent(events, TurnsScreenOn)
    && flags.lowBattery == AnyEvent(events, ReportsLowBattery)
    && flags.worst == WorstOffender(events)
  }

  /** One event of the sweep. */
  method Note(ghost seen: seq<SanitizedEvent>, flags: Flags, event: SanitizedEvent) returns (r: Flags)
    requires Seen(flags, seen)
    ensures Seen(r, seen + [event])
  {
    r := flags;
    match event.eventType {
      case Notification(_, hints, _) =>
        if FileMention in hints {
          r := r.(fileMention := true);
        }
      case AppTransitionEvent(p, Foreground) =>
        if p !in r.foreground {
          r := r.(foreground := r.foreground + [p]);
        }
      case Screen(state) =>
        if state == Interactive {
          r := r.(screenOn := true);
        }
      case SystemStatusEvent(status) =>
        if status.batteryPct.Some? && status.batteryPct.value < 20 {
          r := r.(lowBattery := true);
        }
      case ProcessResource(p, rss, swap) =>
        if rss >= MEMORY_PRESSURE_RSS_MB || swap >= MEMORY_PRESSURE_SWAP_MB {
          if r.worst.None? || rss > r.worst.value.rssMb {
            r := r.(worst := Some(Offender(rss, p)));
          }
        }
      case _ =>
    }
    OneMoreEvent(seen, event, MentionsFile);
    OneMoreEvent(seen, event, TurnsScreenOn);
    OneMoreEvent(seen, event, ReportsLowBattery);
    hide AnyEvent;
    assert (seen + [event])[..|seen|] == seen;
  }

  lemma OneMoreEvent(seen: seq<SanitizedEvent>, event: SanitizedEvent, signal: SanitizedEvent -> bool)
    ensures AnyEvent(seen + [event], signal) <==> AnyEvent(seen, signal) || signal(event)
  {
    var all := seen + [event];
    assert forall i :: 0 <= i < |seen| ==> all[i] == seen[i];
    assert all[|seen|] == event;
  }

  method GenerateIntents(ctx: StructuredContext) returns (intents: seq<Intent>)
    ensures intents == RuleIntents(ctx)
  {
    hide FirstForeground, WorstOffender, AnyEvent, FileReceived, Engagement, Observed, MemoryPressure;
    var flags := SweepEvents(ctx.events);
    var notified := ctx.summary.notifiedApps;
    intents := [];
    if flags.fileMention {
      intents := intents + [FileReceived(HeadOr(notified, ""))];
    }
    if !flags.fileMention {
      if notified != [] {
        intents := intents + [Engagement(notified[0])];
      }
    }
    ghost var part := When(flags.fileMention, FileReceived(HeadOr(notified, ""))) +
                      When(!flags.fileMention && notified != [], Engagement(HeadOr(notified, "")));
    assert intents == part;
    if flags.foreground != [] {
      intents := intents + [Observed(flags.foreground[0])];
    }
    part := part + When(FirstForeground(ctx.events).Some?,
                        Observed(if flags.foreground != [] then flags.foreground[0] else ""));
    assert intents == part;
    if flags.screenOn {
      intents := intents + [SCREEN_ON];
    }
    part := part + When(flags.screenOn, SCREEN_ON);
    assert intents == part;
    if flags.lowBattery {
      intents := intents + [LOW_BATTERY];
    }
    part := part + When(flags.lowBattery, LOW_BATTERY);
    assert intents == part;
    if flags.worst.Some? {
      intents := intents + [MemoryPressure(flags.worst.value.package)];
    }
    assert intents == Signalled(ctx);
    if intents == [] {
      intents := intents + [IDLE_WINDOW];
    }
  }

  method SweepEvents(events: seq<SanitizedEvent>) returns (flags: Flags)
    ensures Seen(flags, events)
  {
    flags := Flags(false, [], false, false, None);
    for i := 0 to |events|
      invariant Seen(flags, events[..i])
    {
      hide Seen;
      assert events[..i + 1] == events[..i] + [events[i]];
      flags := Note(events[..i], flags, events[i]);
    }
    assert events[..|events|] == events;
  }

  /* ----- Against the policy ----- */

  function RuleRules(ctx: StructuredContext): Rules {
    Rules(DEFAULT_CONFIG, CapabilityForRoute(DecisionRoute.RuleBased), Some(TargetsOf(ctx)))
  }

  /** A target no rule of the policy refuses. */
  predicate Acceptable(ctx: StructuredContext, target: Option<string>) {
    target.Some? ==>
      && target.value != ""
      && (StartsWith(target.value, "pkg:") ==> Knows(ctx, target.value[4..]))
  }

  predicate Proposed(ctx: StructuredContext, p: string) {
    p in {"work:collector_heartbeat", "cache:prefetch"} || Knows(ctx, p)
  }

  /** The shape of every rule-based intent: one action the route may propose, on a target from the window. */
  predicate WellRooted(ctx: StructuredContext, intent: Intent) {
    && intent.riskLevel == RiskLevel.Low && intent.confidence >= 0.3 && |intent.suggestedActions| == 1
    && var action := intent.suggestedActions[0];
      && action.urgency != Deferred
      && (action.actionType == KeepAlive || action.actionType == ReleaseMemory || (action.actionType == NoOp && action.target.None?))
      && (action.target.Some? ==>
            || Knows(ctx, action.target.value)
            || (action.actionType == KeepAlive && action.target.value == "work:collector_heartbeat")
            || (action.actionType == ReleaseMemory && action.target.value == "cache:prefetch"))
  }

  /** In a window as the aggregator builds it, a file mention comes with a notified app. */
  lemma SignalsNameKnownPackages(ctx: StructuredContext)
    requires ctx.summary == SummaryOf(ctx.events)
    ensures AnyEvent(ctx.events, MentionsFile) ==> ctx.summary.notifiedApps != []
    ensures forall p :: p in ctx.summary.notifiedApps ==> Knows(ctx, p)
    ensures FirstForeground(ctx.events).Some? ==> Knows(ctx, FirstForeground(ctx.events).value)
    ensures WorstOffender(ctx.events).Some? && WorstOffender(ctx.events).value.package.Some? ==>
              Knows(ctx, WorstOffender(ctx.events).value.package.value)
  {
    AppListsAreExact(ctx.events);
    if AnyEvent(ctx.events, MentionsFile) {
      var i :| 0 <= i < |ctx.events| && MentionsFile(ctx.events[i]);
      assert SomeNotified(ctx.events, ctx.events[i].eventType.sourceApp);
    }
    FirstForegroundIsFirst(ctx.events);
    WorstOffenderIsWorst(ctx.events);
  }

  ghost predicate AllRooted(ctx: StructuredContext, intents: seq<Intent>) {
    forall i :: 0 <= i < |intents| ==> WellRooted(ctx, intents[i])
  }

  lemma RootedConcat(ctx: StructuredContext, a: seq<Intent>, b: seq<Intent>)
    requires AllRooted(ctx, a) && AllRooted(ctx, b)
    ensures AllRooted(ctx, a + b)
  {
    hide WellRooted;
  }

  lemma WhenRooted(ctx: StructuredContext, condition: bool, intent: Intent)
    requires condition ==> WellRooted(ctx, intent)
    ensures AllRooted(ctx, When(condition, intent))
  {
    hide WellRooted;
  }

  lemma NamedIntentsAreRooted(ctx: StructuredContext, app: string)
    requires Knows(ctx, app)
    ensures WellRooted(ctx, FileReceived(app)) && WellRooted(ctx, Engagement(app)) && WellRooted(ctx, Observed(app))
    ensures WellRooted(ctx, MemoryPressure(Some(app)))
  {
    hide Knows;
  }

  lemma FixedIntentsAreRooted(ctx: StructuredContext)
    ensures WellRooted(ctx, SCREEN_ON) && WellRooted(ctx, LOW_BATTERY) && WellRooted(ctx, IDLE_WINDOW)
    ensures WellRooted(ctx, MemoryPressure(None))
  {
    hide Knows;
  }

  lemma RuleIntentsAreWellRooted(ctx: StructuredContext)
    requires ctx.summary == SummaryOf(ctx.events)
    ensures AllRooted(ctx, RuleIntents(ctx))
  {
    hide Knows, FirstForeground, WorstOffender, AnyEvent, SummaryOf, WellRooted, AllRooted, When;
    hide FileReceived, Engagement, Observed, MemoryPressure;
    var notified := ctx.summary.notifiedApps;
    var fileMention := AnyEvent(ctx.events, MentionsFile);
    var foreground, worst := FirstForeground(ctx.events), WorstOffender(ctx.events);
    SignalsNameKnownPackages(ctx);
    FixedIntentsAreRooted(ctx);
    if notified != [] {
      NamedIntentsAreRooted(ctx, notified[0]);
    }
    if foreground.Some? {
      NamedIntentsAreRooted(ctx, foreground.value);
    }
    if worst.Some? && worst.value.package.Some? {
      NamedIntentsAreRooted(ctx, worst.value.package.value);
    }
    var a := When(fileMention, FileReceived(HeadOr(notified, "")));
    var b := When(!fileMention && notified != [], Engagement(HeadOr(notified, "")));
    var c := When(foreground.Some?, Observed(if foreground.Some? then foreground.value else ""));
    var d := When(AnyEvent(ctx.events, TurnsScreenOn), SCREEN_ON);
    var e := When(AnyEvent(ctx.events, ReportsLowBattery), LOW_BATTERY);
    var f := When(worst.Some?, MemoryPressure(if worst.Some? then worst.value.package else None));
    WhenRooted(ctx, fileMention, FileReceived(HeadOr(notified, "")));
    WhenRooted(ctx, !fileMention && notified != [], Engagement(HeadOr(notified, "")));
    WhenRooted(ctx, foreground.Some?, Observed(if foreground.Some? then foreground.value else ""));
    WhenRooted(ctx, AnyEvent(ctx.events, TurnsScreenOn), SCREEN_ON);
    WhenRooted(ctx, AnyEvent(ctx.events, ReportsLowBattery), LOW_BATTERY);
    WhenRooted(ctx, worst.Some?, MemoryPressure(if worst.Some? then worst.value.package else None));
    WhenRooted(ctx, true, IDLE_WINDOW);
    RootedConcat(ctx, a, b);
    RootedConcat(ctx, a + b, c);
    RootedConcat(ctx, a + b + c, d);
    RootedConcat(ctx, a + b + c + d, e);
    RootedConcat(ctx, a + b + c + d + e, f);
    IdleIsRooted(ctx);
  }

  lemma IdleIsRooted(ctx: StructuredContext)
    ensures AllRooted(ctx, [IDLE_WINDOW])
  {
    hide WellRooted;
    FixedIntentsAreRooted(ctx);
  }

  /** A well rooted intent is approved exactly when its target is acceptable. */
  lemma WellRootedVerdict(ctx: StructuredContext, intent: Intent)
    requires WellRooted(ctx, intent)
    ensures Verdict(RuleRules(ctx), intent, 0) ==
            if Acceptable(ctx, intent.suggestedActions[0].target) then Approved else Denied(TargetNotInContext)
  {
    hide TargetsOf, Knows;
    assert intent.suggestedActions[..0] == [];
    var action := intent.suggestedActions[0];
    if action.target.Some? {
      TargetVerdict(ctx, action.actionType, action.target.value);
    }
  }

  lemma TargetVerdict(ctx: StructuredContext, action: ActionType, target: string)
    requires action == KeepAlive || action == ReleaseMemory
    requires || Knows(ctx, target)
             || (action == KeepAlive && target == "work:collector_heartbeat")
             || (action == ReleaseMemory && target == "cache:prefetch")
    ensures (CheckTarget(action, Some(target), TargetsOf(ctx)) == None) == Acceptable(ctx, Some(target))
    ensures CheckTarget(action, Some(target), TargetsOf(ctx)) in {None, Some(TargetNotInContext)}
  {
    hide TargetsOf, Knows;
    assert StartsWith(target, "work:") || target in {"cache:prefetch", "cache:all"} ==> !StartsWith(target, "pkg:") by {
      assert "work:"[0] == 'w' && "cache:prefetch"[0] == 'c' && "cache:all"[0] == 'c' && "pkg:"[0] == 'p';
    }
    assert StartsWith("work:collector_heartbeat", "work:");
  }

  /** The exact condition: a rule-based action is approved if its target, where it has one, is neither
      empty nor a `pkg:` name whose remainder is unknown, and denied for its target otherwise. */
  lemma RuleVerdicts(ctx: StructuredContext, n: nat)
    requires ctx.summary == SummaryOf(ctx.events) && n < |RuleIntents(ctx)|
    ensures |RuleIntents(ctx)[n].suggestedActions| == 1
    ensures Verdict(RuleRules(ctx), RuleIntents(ctx)[n], 0) ==
            if Acceptable(ctx, RuleIntents(ctx)[n].suggestedActions[0].target) then Approved
            else Denied(TargetNotInContext)
  {
    hide RuleIntents, Acceptable, Verdict, SummaryOf;
    RuleIntentsAreWellRooted(ctx);
    WellRootedVerdict(ctx, RuleIntents(ctx)[n]);
  }

  /** What a caller can look up in the window: the first notified app, the first app that came to the
      foreground and the heaviest process's package, as far as there are such, are acceptable targets. */
  predicate NamesAreAcceptable(ctx: StructuredContext) {
    var notified := ctx.summary.notifiedApps;
    var foreground, worst := FirstForeground(ctx.events), WorstOffender(ctx.events);
    && (notified != [] ==> Acceptable(ctx, Some(notified[0])))
    && (foreground.Some? ==> Acceptable(ctx, foreground))
    && (worst.Some? ==> Acceptable(ctx, worst.value.package))
  }

  predicate HasAcceptableTarget(ctx: StructuredContext, intent: Intent) {
    |intent.suggestedActions| == 1 && Acceptable(ctx, intent.suggestedActions[0].target)
  }

  ghost predicate AllAcceptable(ctx: StructuredContext, intents: seq<Intent>) {
    forall i :: 0 <= i < |intents| ==> HasAcceptableTarget(ctx, intents[i])
  }

  lemma AcceptableConcat(ctx: StructuredContext, a: seq<Intent>, b: seq<Intent>)
    ensures AllAcceptable(ctx, a + b) <==> AllAcceptable(ctx, a) && AllAcceptable(ctx, b)
  {
    hide HasAcceptableTarget;
    var all := a + b;
    assert forall i :: 0 <= i < |a| ==> all[i] == a[i];
    assert forall i :: 0 <= i < |b| ==> all[|a| + i] == b[i];
  }

  lemma WhenAcceptable(ctx: StructuredContext, condition: bool, intent: Intent)
    ensures AllAcceptable(ctx, When(condition, intent)) <==> (condition ==> HasAcceptableTarget(ctx, intent))
  {
    hide HasAcceptableTarget;
    if condition {
      assert When(condition, intent)[0] == intent;
    }
  }

  lemma TargetsOfIntents(ctx: StructuredContext, app: string, package: Option<string>)
    ensures HasAcceptableTarget(ctx, FileReceived(app)) == Acceptable(ctx, Some(app))
    ensures HasAcceptableTarget(ctx, Engagement(app)) == Acceptable(ctx, Some(app))
    ensures HasAcceptableTarget(ctx, Observed(app)) == Acceptable(ctx, Some(app))
    ensures HasAcceptableTarget(ctx, MemoryPressure(package)) == Acceptable(ctx, package)
    ensures HasAcceptableTarget(ctx, SCREEN_ON) && HasAcceptableTarget(ctx, LOW_BATTERY) && HasAcceptableTarget(ctx, IDLE_WINDOW)
  {
    hide Knows;
    FixedNamesAreNoPackages();
  }

  lemma FixedNamesAreNoPackages()
    ensures !StartsWith("work:collector_heartbeat", "pkg:") && !StartsWith("cache:prefetch", "pkg:")
  {
    assert "work:collector_heartbeat"[0] == 'w' && "cache:prefetch"[0] == 'c' && "pkg:"[0] == 'p';
  }

  lemma SignalledAreAcceptable(ctx: StructuredContext)
    requires ctx.summary == SummaryOf(ctx.events)
    ensures AllAcceptable(ctx, Signalled(ctx)) <==> NamesAreAcceptable(ctx)
  {
    hide Knows, FirstForeground, WorstOffender, AnyEvent, SummaryOf, When, Acceptable, HasAcceptableTarget, AllAcceptable;
    hide FileReceived, Engagement, Observed, MemoryPressure;
    var notified := HeadOr(ctx.summary.notifiedApps, "");
    var fileMention := AnyEvent(ctx.events, MentionsFile);
    var foreground, worst := FirstForeground(ctx.events), WorstOffender(ctx.events);
    var app := if foreground.Some? then foreground.value else "";
    var package := if worst.Some? then worst.value.package else None;
    var quiet := !fileMention && ctx.summary.notifiedApps != [];
    SignalsNameKnownPackages(ctx);
    TargetsOfIntents(ctx, notified, package);
    TargetsOfIntents(ctx, app, package);
    WhenAcceptable(ctx, fileMention, FileReceived(notified));
    WhenAcceptable(ctx, quiet, Engagement(notified));
    WhenAcceptable(ctx, foreground.Some?, Observed(app));
    WhenAcceptable(ctx, AnyEvent(ctx.events, TurnsScreenOn), SCREEN_ON);
    WhenAcceptable(ctx, AnyEvent(ctx.events, ReportsLowBattery), LOW_BATTERY);
    WhenAcceptable(ctx, worst.Some?, MemoryPressure(package));
    var a, b := When(fileMention, FileReceived(notified)), When(quiet, Engagement(notified));
    var c, d := When(foreground.Some?, Observed(app)), When(AnyEvent(ctx.events, TurnsScreenOn), SCREEN_ON);
    var e, f := When(AnyEvent(ctx.events, ReportsLowBattery), LOW_BATTERY), When(worst.Some?, MemoryPressure(package));
    AcceptableConcat(ctx, a, b);
    AcceptableConcat(ctx, a + b, c);
    AcceptableConcat(ctx, a + b + c, d);
    AcceptableConcat(ctx, a + b + c + d, e);
    AcceptableConcat(ctx, a + b + c + d + e, f);
    assert Signalled(ctx) == a + b + c + d + e + f;
  }

  ghost predicate AllApproved(ctx: StructuredContext) {
    forall n :: 0 <= n < |RuleIntents(ctx)| ==> IsApproved(ctx, RuleIntents(ctx)[n])
  }

  predicate IsApproved(ctx: StructuredContext, intent: Intent) {
    forall i :: 0 <= i < |intent.suggestedActions| ==> Verdict(RuleRules(ctx), intent, i) == Approved
  }

  /** The exact condition on the window: everything the rules propose is approved if and only if the apps
      they name are acceptable targets. */
  lemma WindowIsApprovedExactly(ctx: StructuredContext)
    requires ctx.summary == SummaryOf(ctx.events)
    ensures AllApproved(ctx) <==> NamesAreAcceptable(ctx)
  {
    hide Signalled, Acceptable, Verdict, SummaryOf, NamesAreAcceptable;
    SignalledAreAcceptable(ctx);
    TargetsOfIntents(ctx, "", None);
    forall n | 0 <= n < |RuleIntents(ctx)|
      ensures IsApproved(ctx, RuleIntents(ctx)[n]) <==> HasAcceptableTarget(ctx, RuleIntents(ctx)[n])
    {
      ApprovedIntent(ctx, n);
    }
    assert AllAcceptable(ctx, RuleIntents(ctx)) <==> NamesAreAcceptable(ctx) by { IdleIsAcceptable(ctx); }
  }

  lemma ApprovedIntent(ctx: StructuredContext, n: nat)
    requires ctx.summary == SummaryOf(ctx.events) && n < |RuleIntents(ctx)|
    ensures IsApproved(ctx, RuleIntents(ctx)[n]) <==> HasAcceptableTarget(ctx, RuleIntents(ctx)[n])
  {
    hide RuleIntents, Acceptable, Verdict, SummaryOf;
    RuleVerdicts(ctx, n);
  }

  lemma IdleIsAcceptable(ctx: StructuredContext)
    ensures AllAcceptable(ctx, [IDLE_WINDOW])
  {
    TargetsOfIntents(ctx, "", None);
  }

  /** With proper package names in the window nothing the rules propose is refused. */
  lemma RuleActionsAreApproved(ctx: StructuredContext, n: nat)
    requires ctx.summary == SummaryOf(ctx.events) && n < |RuleIntents(ctx)|
    requires forall p :: Knows(ctx, p) ==> p != "" && !StartsWith(p, "pkg:")
    ensures |RuleIntents(ctx)[n].suggestedActions| == 1
    ensures Verdict(RuleRules(ctx), RuleIntents(ctx)[n], 0) == Approved
  {
    hide RuleIntents, Verdict, SummaryOf, Knows;
    RuleVerdicts(ctx, n);
    RuleIntentsAreWellRooted(ctx);
    assert !StartsWith("work:collector_heartbeat", "pkg:") by {
      assert "work:collector_heartbeat"[0] == 'w' && "pkg:"[0] == 'p';
    }
    assert !StartsWith("cache:prefetch", "pkg:") by {
      assert "cache:prefetch"[0] == 'c' && "pkg:"[0] == 'p';
    }
  }

  /** Without that the backend out-proposes the policy: an app without a name is refused. */
  lemma UnnamedAppIsRefused(t: int)
    ensures var events := [SanitizedEvent(t, AppTransitionEvent("", Foreground), PublicApi, None)];
            var ctx := StructuredContext(t, t, 0, events, SummaryOf(events));
            |RuleIntents(ctx)| == 1 && Verdict(RuleRules(ctx), RuleIntents(ctx)[0], 0) == Denied(TargetNotInContext)
  {
    hide SummaryOf, Verdict, TargetsOf;
    var event := SanitizedEvent(t, AppTransitionEvent("", Foreground), PublicApi, None);
    var ctx := StructuredContext(t, t, 0, [event], SummaryOf([event]));
    NothingNotified(event);
    assert ctx.events[..0] == [];
    assert FirstForeground(ctx.events) == Some("");
    assert WorstOffender(ctx.events) == None;
    assert Signalled(ctx) == [Observed("")];
    RuleVerdicts(ctx, 0);
  }

  lemma NothingNotified(event: SanitizedEvent)
    requires event.eventType.AppTransitionEvent?
    ensures SummaryOf([event]).notifiedApps == []
  {
    AppListsAreExact([event]);
    assert forall p :: p in NotifiedApps([event]) ==> SomeNotified([event], p);
  }
}
