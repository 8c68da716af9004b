/** The two local backends side by side, and what becomes of what they propose. */
module CompositeBackend {
  import opened Wrappers
  import opened Spec
  import opened Ensemble
  import opened LocalBackend
  import Policy
  import PredictiveBackend
  import Lifecycle
  import ReplayStages

  /* ----- Merging ----- */

  predicate IsIdleNoOp(intent: Intent) {
    intent.intentType == Idle &&
    forall i :: 0 <= i < |intent.suggestedActions| ==> intent.suggestedActions[i].actionType == NoOp
  }

  datatype Taken = Taken(idle: Option<Intent>, rest: seq<Intent>)

  /** Takes the first idle intent out of a list. */
  function TakeIdle(intents: seq<Intent>): Taken {
    if intents == [] then Taken(None, [])
    else if IsIdleNoOp(intents[0]) then Taken(Some(intents[0]), intents[1..])
    else
      var taken := TakeIdle(intents[1..]);
      Taken(taken.idle, [intents[0]] + taken.rest)
  }

  function Merge(heuristic: seq<Intent>, predictive: seq<Intent>): seq<Intent> {
    var h, p := TakeIdle(heuristic), TakeIdle(predictive);
    var intents := h.rest + p.rest;
    if intents != [] then intents
    else if h.idle.Some? then [h.idle.value]
    else if p.idle.Some? then [p.idle.value]
    else []
  }

  function Idles(intents: seq<Intent>): nat {
    if intents == [] then 0 else Idles(intents[1..]) + if IsIdleNoOp(intents[0]) then 1 else 0
  }

  function Active(intents: seq<Intent>): seq<Intent> {
    if intents == [] then []
    else if IsIdleNoOp(intents[0]) then Active(intents[1..])
    else [intents[0]] + Active(intents[1..])
  }

  lemma {:induction false} TakingTheOnlyIdle(intents: seq<Intent>)
    ensures Idles(intents) == 0 ==> TakeIdle(intents) == Taken(None, intents) && Active(intents) == intents
    ensures Idles(intents) == 1 ==> TakeIdle(intents).idle.Some? && TakeIdle(intents).rest == Active(intents)
    ensures TakeIdle(intents).idle.Some? ==> IsIdleNoOp(TakeIdle(intents).idle.value)
  {
    hide IsIdleNoOp;
    if intents != [] {
      TakingTheOnlyIdle(intents[1..]);
      assert intents == [intents[0]] + intents[1..];
    }
  }

  /** Backends that idle at most once lose nothing in the merge but their idling: the active intents of
      both remain, in order, and one idle intent stands in when there is none. */
  lemma MergeDropsOnlyIdling(heuristic: seq<Intent>, predictive: seq<Intent>)
    requires Idles(heuristic) <= 1 && Idles(predictive) <= 1
    requires heuristic != [] || predictive != []
    ensures Active(heuristic) + Active(predictive) != [] ==>
              Merge(heuristic, predictive) == Active(heuristic) + Active(predictive)
    ensures Active(heuristic) + Active(predictive) == [] ==>
              |Merge(heuristic, predictive)| == 1 && IsIdleNoOp(Merge(heuristic, predictive)[0])
  {
    hide IsIdleNoOp, Active, Idles, TakeIdle;
    TakingTheOnlyIdle(heuristic);
    TakingTheOnlyIdle(predictive);
    if Active(heuristic) + Active(predictive) == [] {
      assert Active(heuristic) == [] && Active(predictive) == [];
      NoneActive(heuristic);
      NoneActive(predictive);
    }
  }

  lemma NoneActive(intents: seq<Intent>)
    requires Active(intents) == []
    ensures intents != [] ==> Idles(intents) > 0
  {
  }

  lemma {:induction false} TakenAreFromList(intents: seq<Intent>)
    ensures forall x :: x in TakeIdle(intents).rest ==> x in intents
    ensures TakeIdle(intents).idle.Some? ==> TakeIdle(intents).idle.value in intents
  {
    hide IsIdleNoOp;
    if intents != [] {
      TakenAreFromList(intents[1..]);
      assert intents == [intents[0]] + intents[1..];
    }
  }

  lemma MergedAreFromEither(heuristic: seq<Intent>, predictive: seq<Intent>)
    ensures forall x :: x in Merge(heuristic, predictive) ==> x in heuristic || x in predictive
  {
    hide TakeIdle;
    TakenAreFromList(heuristic);
    TakenAreFromList(predictive);
  }

  /** Both backends idle at most once, and then propose nothing else. */
  lemma BackendsIdleAlone(ctx: StructuredContext, env: Environment, predictions: seq<AppScore>, known: set<string>)
    requires env.Valid()
    ensures Idles(LocalIntents(ctx, env)) == if LocalIntents(ctx, env) == [LocalBackend.IDLE_INTENT] then 1 else 0
    ensures LocalIntents(ctx, env) != []
    ensures Idles(PredictiveBackend.IntentsFor(predictions, known)) == if predictions == [] then 1 else 0
    ensures PredictiveBackend.IntentsFor(predictions, known) != []
  {
    hide Chosen, Proposals, SignalsOf, Permissible, LocalRules, PredictiveBackend.Clamp;
    var chosen := Chosen(Proposals(ctx, env), SignalsOf(ctx), MAX_INTENTS_PER_WINDOW);
    ProposalsPermissible(ctx, env);
    ChosenPermissible(LocalRules(ctx), Proposals(ctx, env), SignalsOf(ctx), MAX_INTENTS_PER_WINDOW);
    if chosen != [] {
      forall i | 0 <= i < |chosen| ensures !IsIdleNoOp(IntentsOf(chosen)[i]) {
        assert chosen[i].actions[0].actionType != NoOp;
      }
      NoIdleAmong(IntentsOf(chosen));
    }
    if predictions != [] {
      NoIdleAmong(PredictiveBackend.IntentsFor(predictions, known));
    }
    OneIdle(LocalBackend.IDLE_INTENT);
    OneIdle(PredictiveBackend.IDLE_INTENT);
  }

  lemma OneIdle(intent: Intent)
    requires IsIdleNoOp(intent)
    ensures Idles([intent]) == 1
  {
    assert [intent][1..] == [];
  }

  lemma {:induction false} NoIdleAmong(intents: seq<Intent>)
    requires forall i :: 0 <= i < |intents| ==> !IsIdleNoOp(intents[i])
    ensures Idles(intents) == 0
  {
    hide IsIdleNoOp;
    if intents != [] {
      NoIdleAmong(intents[1..]);
    }
  }

  /* ----- From proposal to dispatch ----- */

  /** The window's job when the composite backend answered: the default rules, the local route's capability. */
  ghost predicate IsLocalJob(job: Lifecycle.Job, env: Environment, predictions: seq<AppScore>) {
    && env.Valid()
    && job.config == Policy.DEFAULT_CONFIG
    && job.route == DecisionRoute.LocalEvaluator && job.capability == CapabilityForRoute(job.route)
    && job.batch.intents ==
       Merge(LocalIntents(job.ctx, env), PredictiveBackend.IntentsFor(predictions, Policy.TargetsOf(job.ctx).packages))
  }

  /** Through the whole lifecycle, a local proposal is dispatched exactly when its intent is confident
      enough; there is no other reason for which one is turned away. */
  lemma LocalProposalsAreDispatched(job: Lifecycle.Job, env: Environment, predictions: seq<AppScore>, c: Coord)
    requires IsLocalJob(job, env, predictions) && job.Has(c)
    ensures job.Dispatches(c) <==> job.batch.intents[c.intent].confidence >= 0.3
    ensures !job.Dispatches(c) ==> job.SchemaFault(c).None? && job.Verdict(c) == Denied(ConfidenceTooLow)
  {
    hide LocalIntents, PredictiveBackend.IntentsFor, Merge, Policy.Verdict, Policy.TargetsOf, Lifecycle.SchemaError;
    LocalVerdict(job, env, predictions, c);
    SchemaHolds(job, env, predictions, c);
  }

  lemma LocalVerdict(job: Lifecycle.Job, env: Environment, predictions: seq<AppScore>, c: Coord)
    requires IsLocalJob(job, env, predictions) && job.Has(c)
    ensures job.Verdict(c) == if job.batch.intents[c.intent].confidence >= 0.3 then Approved else Denied(ConfidenceTooLow)
  {
    hide LocalIntents, PredictiveBackend.IntentsFor, Merge, Policy.Verdict, Policy.TargetsOf;
    var intent := job.batch.intents[c.intent];
    var local := LocalIntents(job.ctx, env);
    var predictive := PredictiveBackend.IntentsFor(predictions, Policy.TargetsOf(job.ctx).packages);
    MergedAreFromEither(local, predictive);
    assert intent in job.batch.intents;
    if n :| 0 <= n < |local| && local[n] == intent {
      LocalActionsAreApproved(job.ctx, env, n, c.action);
    } else {
      var n :| 0 <= n < |predictive| && predictive[n] == intent;
      PredictiveBackend.PredictiveActionsAreApproved(job.ctx, predictions, n, c.action);
      ApprovedIsConfident(job.Rules(), intent, c.action);
    }
  }

  lemma ApprovedIsConfident(rules: Policy.Rules, intent: Intent, i: nat)
    requires i < |intent.suggestedActions| && Policy.Verdict(rules, intent, i) == Approved
    ensures intent.confidence >= rules.config.minConfidence
  {
    hide Policy.ActionReason, Policy.Passing;
  }

  /** Even proposals below the confidence floor are well formed. */
  lemma SchemaHolds(job: Lifecycle.Job, env: Environment, predictions: seq<AppScore>, c: Coord)
    requires IsLocalJob(job, env, predictions) && job.Has(c)
    ensures job.SchemaFault(c).None?
  {
    hide LocalIntents, PredictiveBackend.IntentsFor, Merge, Policy.Verdict, Policy.TargetsOf, Lifecycle.SchemaError;
    hide Policy.Passing, Policy.ActionReason;
    var intent := job.batch.intents[c.intent];
    var local := LocalIntents(job.ctx, env);
    var predictive := PredictiveBackend.IntentsFor(predictions, Policy.TargetsOf(job.ctx).packages);
    MergedAreFromEither(local, predictive);
    assert intent in job.batch.intents;
    if n :| 0 <= n < |local| && local[n] == intent {
      LocalIntentPermissible(job.ctx, env, n);
      PermissibleIsWellFormed(job.Rules(), intent, c.action);
    } else {
      var n :| 0 <= n < |predictive| && predictive[n] == intent;
      PredictiveBackend.PredictiveActionsAreApproved(job.ctx, predictions, n, c.action);
      ReplayStages.RoutesBarHighRisk(job);
      ReplayStages.ApprovedIsWellFormed(job, c);
    }
  }

  lemma LocalIntentPermissible(ctx: StructuredContext, env: Environment, n: nat)
    requires env.Valid() && n < |LocalIntents(ctx, env)|
    ensures Permissible(LocalRules(ctx), LocalIntents(ctx, env)[n].suggestedActions)
    ensures LocalIntents(ctx, env)[n].riskLevel == RiskLevel.Low
  {
    hide Chosen, Proposals, SignalsOf, Policy.TargetsOf, Permissible;
    ProposalsPermissible(ctx, env);
    ChosenPermissible(LocalRules(ctx), Proposals(ctx, env), SignalsOf(ctx), MAX_INTENTS_PER_WINDOW);
    IdlePermissible(ctx);
  }

  lemma PermissibleIsWellFormed(rules: Policy.Rules, intent: Intent, i: nat)
    requires rules.known.Some? && Permissible(rules, intent.suggestedActions) && intent.riskLevel == RiskLevel.Low
    requires i < |intent.suggestedActions|
    ensures Lifecycle.SchemaError(intent.suggestedActions[i], intent.riskLevel).None?
  {
    var action := intent.suggestedActions[i];
    assert Policy.Passes(rules, action);
    assert Policy.CheckTarget(action.actionType, action.target, rules.known.value).None?;
  }
}
