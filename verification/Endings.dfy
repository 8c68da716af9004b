/** How each action of a batch ends, said of the action, the gates and the adapter's answer alone. */
module Endings {
  import opened Wrappers
  import opened Spec
  import opened PolicyGates
  import opened Lifecycle
  import Policy

  /** A prewarm without a target, or a NoOp for an intent of risk High. */
  predicate IsMalformed(action: SuggestedAction, risk: RiskLevel) {
    || (action.actionType == PreWarmProcess && (action.target == None || action.target == Some("")))
    || (action.actionType == NoOp && risk == High)
  }

  ghost predicate FailsGate(job: Job, c: Coord, gate: DenialReason)
    requires job.Has(c)
  {
    PolicyGates.Fails(job.config, job.capability, job.ctx, job.batch.intents[c.intent], c.action, gate)
  }

  ghost predicate PassesAll(job: Job, c: Coord)
    requires job.Has(c)
  {
    forall gate :: !FailsGate(job, c, gate)
  }

  /** It is the capability that turns the action away: the intent's risk is too high for it, or the action is not
      among those it lists and no gate before that one fails. */
  ghost predicate BarredByCapability(job: Job, c: Coord)
    requires job.Has(c)
  {
    || FailsGate(job, c, RiskExceedsCapability)
    || (&& FailsGate(job, c, ActionCapabilityDenied)
        && !FailsGate(job, c, RiskExceedsConfig) && !FailsGate(job, c, ConfidenceTooLow)
        && !FailsGate(job, c, BatchActionCapExceeded) && !FailsGate(job, c, ActionTypeBlocked)
        && !FailsGate(job, c, ActionUrgencyDeferred))
  }

  lemma SchemaFaultIsMalformed(job: Job, c: Coord)
    requires job.Has(c)
    ensures job.SchemaFault(c).Some? <==> IsMalformed(job.Action(c), job.batch.intents[c.intent].riskLevel)
  {
  }

  lemma VerdictByGates(job: Job, c: Coord)
    requires job.Has(c)
    ensures job.Verdict(c) == Approved <==> PassesAll(job, c)
    ensures job.Verdict(c) in {Denied(RiskExceedsCapability), Denied(ActionCapabilityDenied)} <==> BarredByCapability(job, c)
  {
    hide Policy.Verdict, Policy.TargetsOf, PolicyGates.Fails;
    var intent := job.batch.intents[c.intent];
    assert RulesFor(job.config, job.capability, job.ctx) == job.Rules();
    var config, capability, ctx, i := job.config, job.capability, job.ctx, c.action;
    ReasonIsFirstFailingGate(config, capability, ctx, intent, i, 0);
    ReasonIsFirstFailingGate(config, capability, ctx, intent, i, 6);
    FirstOfEight(h => 0 <= h < 8 && PolicyGates.Fails(config, capability, ctx, intent, i, GATES[h]), 0);
    FirstOfEight(h => 0 <= h < 8 && PolicyGates.Fails(config, capability, ctx, intent, i, GATES[h]), 6);
    ApprovedPasses(job, c);
  }

  lemma ApprovedPasses(job: Job, c: Coord)
    requires job.Has(c)
    ensures job.Verdict(c) == Approved <==> PassesAll(job, c)
  {
    hide Policy.Verdict, Policy.TargetsOf, NameIsBlocked, Admissible;
    assert RulesFor(job.config, job.capability, job.ctx) == job.Rules();
    ApprovedExactly(job.config, job.capability, job.ctx, job.batch.intents[c.intent], c.action);
    assert PassesAll(job, c) <==>
      && !FailsGate(job, c, RiskExceedsCapability) && !FailsGate(job, c, RiskExceedsConfig)
      && !FailsGate(job, c, ConfidenceTooLow) && !FailsGate(job, c, BatchActionCapExceeded)
      && !FailsGate(job, c, ActionTypeBlocked) && !FailsGate(job, c, ActionUrgencyDeferred)
      && !FailsGate(job, c, ActionCapabilityDenied) && !FailsGate(job, c, TargetNotInContext);
  }

  /** Where an action's record ends: rejected if it is malformed; else denied by the capability if that is what
      turns it away; else denied by the policy if any gate fails; else as the adapter answers. */
  lemma EndingIsExact(job: Job, c: Coord, earlier: seq<AuthorizedAction>)
    requires job.Has(c)
    ensures RecordFor(job, c, earlier).terminal ==
            if IsMalformed(job.Action(c), job.batch.intents[c.intent].riskLevel) then RejectedInvalidSchema
            else if BarredByCapability(job, c) then DeniedByCapability
            else if !PassesAll(job, c) then DeniedByPolicy
            else if job.adapter(earlier + [job.Seal(c)]).Ok? then Succeeded
            else Failed
  {
    hide Policy.Verdict, Policy.TargetsOf, SchemaError, EffectOf, IsMalformed, PassesAll, BarredByCapability;
    SchemaFaultIsMalformed(job, c);
    VerdictByGates(job, c);
  }
}
