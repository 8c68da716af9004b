/** The policy engine: ordered gates over an intent and its actions, with a cap per intent. */
module Policy {
  import opened Wrappers
  import opened Spec
  import opened Text

  datatype PolicyConfig = PolicyConfig(
    maxAutoRisk: RiskLevel,
    blockedActions: seq<string>,
    maxActionsPerBatch: nat,
    minConfidence: real)

  const DEFAULT_CONFIG := PolicyConfig(Low, [], 5, 0.3)

  /** Entities an action may name: everything a sanitized window mentions.
      File paths do not survive sanitizing, so `files` is always empty. */
  datatype KnownTargets = KnownTargets(packages: set<string>, files: set<string>)

  /** What an evaluation is run against; `known` is absent when no window is at hand. */
  datatype Rules = Rules(config: PolicyConfig, capability: CapabilityLevel, known: Option<KnownTargets>)

  /* ----- Known targets ----- */

  predicate Mentions(event: SanitizedEvent, package: string) {
    || event.appPackage == Some(package)
    || (match event.eventType
        case AppTransitionEvent(p, _) => p == package
        case Notification(p, _, _) => p == package
        case ProcessResource(p, _, _) => p == Some(package)
        case _ => false)
  }

  function MentionedPackages(event: SanitizedEvent): (r: set<string>)
    ensures forall p :: p in r <==> Mentions(event, p)
  {
    (if event.appPackage.Some? then {event.appPackage.value} else {}) +
    match event.eventType
    case AppTransitionEvent(p, _) => {p}
    case Notification(p, _, _) => {p}
    case ProcessResource(Some(p), _, _) => {p}
    case _ => {}
  }

  predicate Knows(ctx: StructuredContext, package: string) {
    || package in ctx.summary.foregroundApps
    || package in ctx.summary.notifiedApps
    || exists i :: 0 <= i < |ctx.events| && Mentions(ctx.events[i], package)
  }

  function EventPackages(events: seq<SanitizedEvent>): (r: set<string>)
    ensures forall p :: p in r <==> exists i :: 0 <= i < |events| && Mentions(events[i], p)
  {
    if events == [] then {}
    else
      var last := |events| - 1;
      var rest := events[..last];
      assert forall i :: 0 <= i < |events| ==> events[i] == if i < last then rest[i] else events[last];
      EventPackages(rest) + MentionedPackages(events[last])
  }

  function TargetsOf(ctx: StructuredContext): (known: KnownTargets)
    ensures known.files == {}
    ensures forall p :: p in known.packages <==> Knows(ctx, p)
  {
    KnownTargets(
      (set p | p in ctx.summary.foregroundApps) + (set p | p in ctx.summary.notifiedApps) + EventPackages(ctx.events), {})
  }

  /** The engine's sweep over the window. */
  method CollectKnownTargets(ctx: StructuredContext) returns (known: KnownTargets)
    ensures known == TargetsOf(ctx)
  {
    hide MentionedPackages, Mentions, Knows;
    var packages := (set p | p in ctx.summary.foregroundApps) + (set p | p in ctx.summary.notifiedApps);
    ghost var summarized := packages;
    for n := 0 to |ctx.events|
      invariant packages == summarized + EventPackages(ctx.events[..n])
    {
      assert ctx.events[..n + 1][..n] == ctx.events[..n];
      packages := packages + MentionedPackages(ctx.events[n]);
    }
    assert ctx.events[..|ctx.events|] == ctx.events;
    known := KnownTargets(packages, {});
  }

  /* ----- Gates ----- */

  function ActionName(action: ActionType): string {
    match action
    case PreWarmProcess => "PreWarmProcess"
    case PrefetchFile => "PrefetchFile"
    case KeepAlive => "KeepAlive"
    case ReleaseMemory => "ReleaseMemory"
    case NoOp => "NoOp"
  }

  predicate Contains(s: string, part: string) {
    StartsWith(s, part) || (s != [] && Contains(s[1..], part))
  }

  predicate AllowedPrewarmTarget(target: string, known: KnownTargets) {
    if StartsWith(target, "own:") || StartsWith(target, "notif:") then true
    else if StartsWith(target, "pkg:") then target[4..] in known.packages
    else target != "" && (target in known.packages || target in known.files)
  }

  predicate AllowedLowRiskTarget(action: ActionType, target: string, known: KnownTargets) {
    if action == KeepAlive && StartsWith(target, "work:") then true
    else if action == ReleaseMemory && target in {"cache:prefetch", "cache:all"} then true
    else if action == PrefetchFile && (StartsWith(target, "url:") || StartsWith(target, "uri:")) then true
    else if StartsWith(target, "pkg:") then target[4..] in known.packages
    else target in known.packages || target in known.files
  }

  function CheckTarget(action: ActionType, target: Option<string>, known: KnownTargets): Option<DenialReason> {
    match action
    case NoOp => None
    case PreWarmProcess =>
      if target.Some? && AllowedPrewarmTarget(target.value, known) then None else Some(TargetNotInContext)
    case KeepAlive | ReleaseMemory | PrefetchFile =>
      match target
      case None => None
      case Some(t) =>
        if t != "" && AllowedLowRiskTarget(action, t, known) then None else Some(TargetNotInContext)
  }

  /** The reason one action is refused whatever its siblings are, in gate order. */
  function ActionReason(rules: Rules, action: SuggestedAction): Option<DenialReason> {
    if exists b :: b in rules.config.blockedActions && Contains(ActionName(action.actionType), b) then
      Some(ActionTypeBlocked)
    else if action.urgency == Deferred then Some(ActionUrgencyDeferred)
    else if !rules.capability.AllowsAction(action.actionType) then Some(ActionCapabilityDenied)
    else if rules.known.Some? then CheckTarget(action.actionType, action.target, rules.known.value)
    else None
  }

  predicate Passes(rules: Rules, action: SuggestedAction) {
    ActionReason(rules, action) == None
  }

  /** The reason an intent is refused with all its actions, in gate order. */
  function IntentReason(rules: Rules, intent: Intent): Option<DenialReason> {
    if !rules.capability.AllowsRisk(intent.riskLevel) then Some(RiskExceedsCapability)
    else if intent.riskLevel.Rank() > rules.config.maxAutoRisk.Rank() then Some(RiskExceedsConfig)
    else if intent.confidence < rules.config.minConfidence then Some(ConfidenceTooLow)
    else None
  }

  function Passing(rules: Rules, actions: seq<SuggestedAction>): (n: nat)
    ensures n <= |actions|
  {
    if actions == [] then 0
    else Passing(rules, actions[..|actions| - 1]) + if Passes(rules, actions[|actions| - 1]) then 1 else 0
  }

  /* ----- Verdicts ----- */

  /** The verdict on action `i`, stated without running the others: approved exactly when the
      intent and the action pass their gates and fewer than the cap passed before it. */
  function Verdict(rules: Rules, intent: Intent, i: nat): PolicyVerdict
    requires i < |intent.suggestedActions|
  {
    var intentReason := IntentReason(rules, intent);
    var actionReason := ActionReason(rules, intent.suggestedActions[i]);
    if intentReason.Some? then Denied(intentReason.value)
    else if Passing(rules, intent.suggestedActions[..i]) >= rules.config.maxActionsPerBatch then
      Denied(BatchActionCapExceeded)
    else if actionReason.Some? then Denied(actionReason.value)
    else Approved
  }

  function IntentDecisions(rules: Rules, intent: Intent, ordinal: nat): seq<PolicyActionDecision> {
    seq(|intent.suggestedActions|,
        i requires 0 <= i < |intent.suggestedActions| =>
          PolicyActionDecision(Coord(ordinal, i), Verdict(rules, intent, i)))
  }

  function Min(a: nat, b: nat): nat {
    if a < b then a else b
  }

  method DeniedAll(rules: Rules, intent: Intent, ordinal: nat, reason: DenialReason)
    returns (decisions: seq<PolicyActionDecision>)
    requires IntentReason(rules, intent) == Some(reason)
    ensures decisions == IntentDecisions(rules, intent, ordinal)
  {
    hide ActionReason, IntentReason;
    decisions := [];
    for i := 0 to |intent.suggestedActions|
      invariant decisions == IntentDecisions(rules, intent, ordinal)[..i]
    {
      decisions := decisions + [PolicyActionDecision(Coord(ordinal, i), Denied(reason))];
    }
  }

  /** The engine's pass over one intent: it counts approvals, not passing actions. */
  method EvaluateIntent(rules: Rules, intent: Intent, ordinal: nat) returns (decisions: seq<PolicyActionDecision>)
    ensures decisions == IntentDecisions(rules, intent, ordinal)
  {
    hide ActionReason, IntentReason;
    var actions := intent.suggestedActions;
    var refused := IntentReason(rules, intent);
    if refused.Some? {
      decisions := DeniedAll(rules, intent, ordinal, refused.value);
      return;
    }
    decisions := [];
    var approvedCount := 0;
    for i := 0 to |actions|
      invariant approvedCount == Min(rules.config.maxActionsPerBatch, Passing(rules, actions[..i]))
      invariant decisions == IntentDecisions(rules, intent, ordinal)[..i]
    {
      assert actions[..i + 1][..i] == actions[..i];
      var verdict;
      if approvedCount >= rules.config.maxActionsPerBatch {
        verdict := Denied(BatchActionCapExceeded);
      } else {
        var reason := ActionReason(rules, actions[i]);
        if reason.Some? {
          verdict := Denied(reason.value);
        } else {
          approvedCount := approvedCount + 1;
          verdict := Approved;
        }
      }
      decisions := decisions + [PolicyActionDecision(Coord(ordinal, i), verdict)];
    }
  }

  /* ----- Batches ----- */

  function BatchDecisions(rules: Rules, intents: seq<Intent>): seq<PolicyActionDecision> {
    if intents == [] then []
    else
      var last := |intents| - 1;
      BatchDecisions(rules, intents[..last]) + IntentDecisions(rules, intents[last], last)
  }

  method EvaluateBatchWithContext(config: PolicyConfig, intents: seq<Intent>, capability: CapabilityLevel, ctx: StructuredContext)
    returns (decisions: seq<PolicyActionDecision>)
    ensures decisions == BatchDecisions(Rules(config, capability, Some(TargetsOf(ctx))), intents)
  {
    var known := CollectKnownTargets(ctx);
    var rules := Rules(config, capability, Some(known));
    decisions := [];
    for n := 0 to |intents|
      invariant decisions == BatchDecisions(rules, intents[..n])
    {
      var evaluated := EvaluateIntent(rules, intents[n], n);
      assert intents[..n + 1][..n] == intents[..n];
      decisions := decisions + evaluated;
    }
    assert intents[..|intents|] == intents;
  }

  /* ----- What the cap lets through ----- */

  function ApprovedAmong(rules: Rules, intent: Intent, n: nat): (count: nat)
    requires n <= |intent.suggestedActions|
  {
    if n == 0 then 0
    else ApprovedAmong(rules, intent, n - 1) + if Verdict(rules, intent, n - 1) == Approved then 1 else 0
  }

  /** An intent past its own gates gets the smaller of the cap and its passing actions approved. */
  lemma {:induction false} ApprovedIsCapped(rules: Rules, intent: Intent, n: nat)
    requires n <= |intent.suggestedActions|
    ensures ApprovedAmong(rules, intent, n) ==
            if IntentReason(rules, intent).Some? then 0
            else Min(rules.config.maxActionsPerBatch, Passing(rules, intent.suggestedActions[..n]))
  {
    hide ActionReason, IntentReason;
    if n > 0 {
      ApprovedIsCapped(rules, intent, n - 1);
      var actions := intent.suggestedActions;
      assert actions[..n][..n - 1] == actions[..n - 1];
    }
  }

  /** The approved actions are the passing ones up to the cap-th, and no other. */
  lemma ApprovedAreTheFirstPassing(rules: Rules, intent: Intent, i: nat)
    requires i < |intent.suggestedActions| && IntentReason(rules, intent).None?
    ensures Verdict(rules, intent, i) == Approved <==>
            Passes(rules, intent.suggestedActions[i]) &&
            Passing(rules, intent.suggestedActions[..i + 1]) <= rules.config.maxActionsPerBatch
  {
    var actions := intent.suggestedActions;
    assert actions[..i + 1][..i] == actions[..i];
  }

  predicate Enlarges(wider: CapabilityLevel, narrower: CapabilityLevel) {
    && wider.maxRisk.Rank() >= narrower.maxRisk.Rank()
    && forall a :: a in narrower.allowedActions ==> a in wider.allowedActions
  }

  lemma {:induction false} PassingGrows(narrow: Rules, wide: Rules, actions: seq<SuggestedAction>)
    requires Enlarges(wide.capability, narrow.capability)
    requires wide == narrow.(capability := wide.capability)
    ensures Passing(narrow, actions) <= Passing(wide, actions)
  {
    if actions != [] {
      PassingGrows(narrow, wide, actions[..|actions| - 1]);
    }
  }

  /** A larger capability never gets fewer actions of an intent approved. */
  lemma EnlargingNeverApprovesFewer(narrow: Rules, wide: Rules, intent: Intent)
    requires Enlarges(wide.capability, narrow.capability)
    requires wide == narrow.(capability := wide.capability)
    ensures ApprovedAmong(narrow, intent, |intent.suggestedActions|) <= ApprovedAmong(wide, intent, |intent.suggestedActions|)
  {
    var n := |intent.suggestedActions|;
    assert intent.suggestedActions[..n] == intent.suggestedActions;
    ApprovedIsCapped(narrow, intent, n);
    ApprovedIsCapped(wide, intent, n);
    PassingGrows(narrow, wide, intent.suggestedActions);
  }

  /** Which approvals a larger capability withdraws: those whose action is past the cap once the newly
      passing actions before it are counted, and no other. */
  lemma WithdrawnExactly(narrow: Rules, wide: Rules, intent: Intent, i: nat)
    requires Enlarges(wide.capability, narrow.capability)
    requires wide == narrow.(capability := wide.capability)
    requires i < |intent.suggestedActions| && Verdict(narrow, intent, i) == Approved
    ensures Verdict(wide, intent, i) ==
            if Passing(wide, intent.suggestedActions[..i + 1]) > wide.config.maxActionsPerBatch
            then Denied(BatchActionCapExceeded) else Approved
  {
    hide CheckTarget, Contains;
    ApprovedAreTheFirstPassing(narrow, intent, i);
    ApprovedAreTheFirstPassing(wide, intent, i);
  }

  /** Yet it may withdraw an approval: with a cap of one, letting the first action through
      crowds out the second. */
  lemma EnlargingMayWithdrawApproval()
    ensures exists narrow: Rules, wide: Rules, intent: Intent ::
              && Enlarges(wide.capability, narrow.capability)
              && wide == narrow.(capability := wide.capability)
              && |intent.suggestedActions| == 2
              && Verdict(narrow, intent, 1) == Approved
              && Verdict(wide, intent, 1) == Denied(BatchActionCapExceeded)
  {
    var narrow := Rules(DEFAULT_CONFIG.(maxActionsPerBatch := 1), CapabilityLevel(Low, [NoOp]), None);
    var wide := narrow.(capability := CapabilityLevel(Low, [NoOp, KeepAlive]));
    var first := SuggestedAction(KeepAlive, None, Immediate);
    var second := SuggestedAction(NoOp, None, Immediate);
    var intent := Intent("", Idle, 0.5, Low, [first, second], []);
    assert intent.suggestedActions[..1] == [first];
    assert [first][..0] == [];
    assert Passing(narrow, [first]) == 0 && Passing(wide, [first]) == 1;
    assert Verdict(narrow, intent, 1) == Approved && Verdict(wide, intent, 1) == Denied(BatchActionCapExceeded);
  }
}
