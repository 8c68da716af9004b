/** What an approved action may be and may name, and which of several failing gates a denial reports. */
module PolicyGates {
  import opened Wrappers
  import opened Spec
  import opened Text
  import opened Policy

  /** The engine with a route's capability, at work on a window. */
  function RulesFor(config: PolicyConfig, capability: CapabilityLevel, ctx: StructuredContext): Rules {
    Rules(config, capability, Some(TargetsOf(ctx)))
  }

  /** `part` occurs in `s`. */
  ghost predicate Occurs(s: string, part: string) {
    exists before: string, after: string :: s == before + part + after
  }

  lemma {:induction false} ContainedOccurs(s: string, part: string)
    requires Contains(s, part)
    ensures Occurs(s, part)
  {
    if StartsWith(s, part) {
      assert s == [] + part + s[|part|..];
    } else {
      ContainedOccurs(s[1..], part);
      var before: string, after: string :| s[1..] == before + part + after;
      assert s == ([s[0]] + before) + part + after;
    }
  }

  lemma {:induction false} OccurringIsContained(before: string, part: string, after: string)
    ensures Contains(before + part + after, part)
  {
    var s := before + part + after;
    if before == [] {
      assert s == part + after;
    } else {
      OccurringIsContained(before[1..], part, after);
      assert s[1..] == before[1..] + part + after;
    }
  }

  lemma ContainsIsOccurs(s: string, part: string)
    ensures Contains(s, part) <==> Occurs(s, part)
  {
    hide Contains;
    if Contains(s, part) {
      ContainedOccurs(s, part);
    }
    if Occurs(s, part) {
      var before: string, after: string :| s == before + part + after;
      OccurringIsContained(before, part, after);
    }
  }

  /* ----- Admissible targets ----- */

  /** What the window itself lets an action name: a package it mentions, with or without the `pkg:` scope. */
  predicate InWindow(ctx: StructuredContext, target: string) {
    target != "" && if StartsWith(target, "pkg:") then Knows(ctx, target[4..]) else Knows(ctx, target)
  }

  /** What each type of action may name.  A prewarm must name something; the others may do without. */
  predicate Admissible(ctx: StructuredContext, action: SuggestedAction) {
    match action.actionType
    case NoOp => true
    case PreWarmProcess =>
      action.target.Some? && (
        StartsWith(action.target.value, "own:") || StartsWith(action.target.value, "notif:") ||
        InWindow(ctx, action.target.value))
    case KeepAlive =>
      action.target.Some? ==> StartsWith(action.target.value, "work:") || InWindow(ctx, action.target.value)
    case ReleaseMemory =>
      action.target.Some? ==>
        action.target.value == "cache:prefetch" || action.target.value == "cache:all" || InWindow(ctx, action.target.value)
    case PrefetchFile =>
      action.target.Some? ==>
        StartsWith(action.target.value, "url:") || StartsWith(action.target.value, "uri:") ||
        InWindow(ctx, action.target.value)
  }

  lemma TargetIsAdmissible(ctx: StructuredContext, action: SuggestedAction)
    ensures CheckTarget(action.actionType, action.target, TargetsOf(ctx)) ==
            if Admissible(ctx, action) then None else Some(TargetNotInContext)
  {
    hide TargetsOf, Knows;
    if action.target.Some? {
      ScopesAreDisjoint(action.target.value);
    }
  }

  lemma ScopesAreDisjoint(target: string)
    ensures StartsWith(target, "pkg:") ==>
              && !StartsWith(target, "own:") && !StartsWith(target, "notif:") && !StartsWith(target, "work:")
              && !StartsWith(target, "url:") && !StartsWith(target, "uri:")
              && target != "cache:prefetch" && target != "cache:all"
    ensures (StartsWith(target, "own:") || StartsWith(target, "notif:") || StartsWith(target, "work:") ||
             StartsWith(target, "url:") || StartsWith(target, "uri:") || StartsWith(target, "pkg:")) ==> target != ""
  {
    if target != "" {
      assert StartsWith(target, "pkg:") ==> target[0] == 'p';
      assert StartsWith(target, "own:") ==> target[0] == 'o';
      assert StartsWith(target, "notif:") ==> target[0] == 'n';
      assert StartsWith(target, "work:") ==> target[0] == 'w';
      assert StartsWith(target, "url:") || StartsWith(target, "uri:") ==> target[0] == 'u';
      assert target == "cache:prefetch" || target == "cache:all" ==> target[0] == 'c';
    }
  }

  /* ----- The gates of an action ----- */

  ghost predicate NameIsBlocked(config: PolicyConfig, action: ActionType) {
    exists b :: b in config.blockedActions && Occurs(ActionName(action), b)
  }

  lemma BlockedMeansOccurs(config: PolicyConfig, action: ActionType)
    ensures (exists b :: b in config.blockedActions && Contains(ActionName(action), b)) <==> NameIsBlocked(config, action)
  {
    hide Contains, Occurs;
    forall b ensures Contains(ActionName(action), b) <==> Occurs(ActionName(action), b) {
      ContainsIsOccurs(ActionName(action), b);
    }
  }

  lemma GatesInOrder(config: PolicyConfig, capability: CapabilityLevel, ctx: StructuredContext, action: SuggestedAction)
    ensures ActionReason(RulesFor(config, capability, ctx), action) ==
            if NameIsBlocked(config, action.actionType) then Some(ActionTypeBlocked)
            else if action.urgency == Deferred then Some(ActionUrgencyDeferred)
            else if action.actionType !in capability.allowedActions then Some(ActionCapabilityDenied)
            else if !Admissible(ctx, action) then Some(TargetNotInContext)
            else None
  {
    hide TargetsOf, Contains, NameIsBlocked, Admissible, CheckTarget;
    BlockedMeansOccurs(config, action.actionType);
    TargetIsAdmissible(ctx, action);
  }

  /** The gates of the whole intent. */
  predicate IntentPasses(config: PolicyConfig, capability: CapabilityLevel, intent: Intent) {
    && intent.riskLevel.Rank() <= capability.maxRisk.Rank()
    && intent.riskLevel.Rank() <= config.maxAutoRisk.Rank()
    && intent.confidence >= config.minConfidence
  }

  lemma RoomIsLeft(rules: Rules, intent: Intent, i: nat)
    requires i <= |intent.suggestedActions| && IntentReason(rules, intent).None?
    ensures Passing(rules, intent.suggestedActions[..i]) < rules.config.maxActionsPerBatch <==>
            ApprovedAmong(rules, intent, i) < rules.config.maxActionsPerBatch
  {
    hide Verdict, ActionReason;
    ApprovedIsCapped(rules, intent, i);
  }

  /** An action is approved if and only if its intent passes its gates, fewer actions than the cap were approved
      before it, no blocked text occurs in its name, it is not deferred, the capability lists it and its
      target is admissible. */
  lemma ApprovedExactly(config: PolicyConfig, capability: CapabilityLevel, ctx: StructuredContext, intent: Intent, i: nat)
    requires i < |intent.suggestedActions|
    ensures var action := intent.suggestedActions[i];
            Verdict(RulesFor(config, capability, ctx), intent, i) == Approved <==>
              && IntentPasses(config, capability, intent)
              && ApprovedAmong(RulesFor(config, capability, ctx), intent, i) < config.maxActionsPerBatch
              && !NameIsBlocked(config, action.actionType)
              && action.urgency != Deferred
              && action.actionType in capability.allowedActions
              && Admissible(ctx, action)
  {
    hide TargetsOf, ActionReason, Admissible, NameIsBlocked;
    GatesInOrder(config, capability, ctx, intent.suggestedActions[i]);
    if IntentPasses(config, capability, intent) {
      RoomIsLeft(RulesFor(config, capability, ctx), intent, i);
    }
  }

  /** The gates in the order in which they are asked. */
  const GATES := [RiskExceedsCapability, RiskExceedsConfig, ConfidenceTooLow, BatchActionCapExceeded,
                  ActionTypeBlocked, ActionUrgencyDeferred, ActionCapabilityDenied, TargetNotInContext]

  /** Whether an action fails a gate, each gate looked at on its own. */
  ghost predicate Fails(config: PolicyConfig, capability: CapabilityLevel, ctx: StructuredContext, intent: Intent, i: nat,
                        gate: DenialReason)
    requires i < |intent.suggestedActions|
  {
    var action := intent.suggestedActions[i];
    match gate
    case RiskExceedsCapability => intent.riskLevel.Rank() > capability.maxRisk.Rank()
    case RiskExceedsConfig => intent.riskLevel.Rank() > config.maxAutoRisk.Rank()
    case ConfidenceTooLow => intent.confidence < config.minConfidence
    case BatchActionCapExceeded =>
      ApprovedAmong(RulesFor(config, capability, ctx), intent, i) >= config.maxActionsPerBatch
    case ActionTypeBlocked => NameIsBlocked(config, action.actionType)
    case ActionUrgencyDeferred => action.urgency == Deferred
    case ActionCapabilityDenied => action.actionType !in capability.allowedActions
    case TargetNotInContext => !Admissible(ctx, action)
  }

  /** A denial carries the reason of the first gate that fails, and no gate fails for an approved action. */
  lemma ReasonIsFirstFailingGate(config: PolicyConfig, capability: CapabilityLevel, ctx: StructuredContext, intent: Intent,
                                 i: nat, g: nat)
    requires i < |intent.suggestedActions| && g < |GATES|
    ensures Verdict(RulesFor(config, capability, ctx), intent, i) == Denied(GATES[g]) <==>
            && Fails(config, capability, ctx, intent, i, GATES[g])
            && forall h :: 0 <= h < g ==> !Fails(config, capability, ctx, intent, i, GATES[h])
  {
    hide TargetsOf, ActionReason, Admissible, NameIsBlocked, Passing, ApprovedAmong;
    var rules := RulesFor(config, capability, ctx);
    GatesInOrder(config, capability, ctx, intent.suggestedActions[i]);
    if IntentReason(rules, intent).None? {
      RoomIsLeft(rules, intent, i);
    }
    FirstOfEight(h => 0 <= h < 8 && Fails(config, capability, ctx, intent, i, GATES[h]), g);
  }

  lemma FirstOfEight(fails: int -> bool, g: nat)
    requires g < 8
    ensures (forall h :: 0 <= h < g ==> !fails(h)) <==>
            && (g > 0 ==> !fails(0)) && (g > 1 ==> !fails(1)) && (g > 2 ==> !fails(2)) && (g > 3 ==> !fails(3))
            && (g > 4 ==> !fails(4)) && (g > 5 ==> !fails(5)) && (g > 6 ==> !fails(6))
  {
  }

  /* ----- Routes ----- */

  /** Whether a route may at most do what another may, and somewhere less. */
  predicate Below(narrow: DecisionRoute, wide: DecisionRoute) {
    && Enlarges(CapabilityForRoute(wide), CapabilityForRoute(narrow))
    && !Enlarges(CapabilityForRoute(narrow), CapabilityForRoute(wide))
  }

  /** The routes form a chain: falling back may do less than the rules, these less than the local evaluator,
      and that less than the cloud, which alone may act on intents of Medium risk.  Only from the local evaluator
      on may a route prewarm or prefetch. */
  lemma RoutesFormAChain()
    ensures Below(DecisionRoute.FallbackNoOp, DecisionRoute.RuleBased)
    ensures Below(DecisionRoute.RuleBased, DecisionRoute.LocalEvaluator)
    ensures Below(DecisionRoute.LocalEvaluator, DecisionRoute.CloudLlm)
    ensures CapabilityForRoute(DecisionRoute.CloudLlm) == CapabilityForRoute(DecisionRoute.Mock)
    ensures forall route: DecisionRoute :: CapabilityForRoute(route).AllowsRisk(Medium) <==> route.CloudLlm? || route.Mock?
    ensures forall route: DecisionRoute, action: ActionType :: CapabilityForRoute(route).AllowsAction(action) <==>
              match action
              case NoOp => true
              case ReleaseMemory | KeepAlive => !route.FallbackNoOp?
              case PreWarmProcess | PrefetchFile => !route.FallbackNoOp? && !route.RuleBased?
  {
    var fallback, rules := CapabilityForRoute(DecisionRoute.FallbackNoOp), CapabilityForRoute(DecisionRoute.RuleBased);
    assert KeepAlive in rules.allowedActions && KeepAlive !in fallback.allowedActions;
    assert PrefetchFile in CapabilityForRoute(DecisionRoute.LocalEvaluator).allowedActions && PrefetchFile !in rules.allowedActions;
  }
}
