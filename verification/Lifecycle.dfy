/** The action lifecycle: every suggested action is checked, judged, perhaps executed, and audited. */
module Lifecycle {
  import opened Wrappers
  import opened Spec
  import Policy

  /* ----- Audit records and credentials ----- */

  datatype ActionOutcome = ActionOutcome(actionType: string, target: Option<string>, summary: string, latencyUs: nat)

  /** The part of an outcome that is the same in every replay. */
  datatype OutcomeSummary = OutcomeSummary(actionType: string, target: Option<string>, summary: string)

  datatype AuthorizedAction = AuthorizedAction(
    intentId: string,
    windowOrdinal: nat,
    coord: Coord,
    action: SuggestedAction,
    effect: EffectClass,
    authorizedAtMs: int)

  datatype AuditRecord = AuditRecord(
    windowOrdinal: nat,
    coord: Coord,
    intentId: string,
    actionType: ActionType,
    target: Option<string>,
    effect: EffectClass,
    route: DecisionRoute,
    backendError: Option<string>,
    transitions: seq<ActionState>,
    terminal: ActionState,
    outcome: Option<OutcomeSummary>,
    denialReason: Option<DenialReason>,
    error: Option<string>,
    sourceTier: SourceTier)
  {
    function Transition(state: ActionState): AuditRecord {
      this.(transitions := transitions + [state], terminal := state)
    }
  }

  /** One window's work: what is proposed, by whom, under which rules.  The adapter may keep
      state, so its answer depends on everything it was handed before. */
  datatype Job = Job(
    config: Policy.PolicyConfig,
    adapter: seq<AuthorizedAction> -> Result<ActionOutcome, string>,
    windowOrdinal: nat,
    batch: IntentBatch,
    route: DecisionRoute,
    backendError: Option<string>,
    capability: CapabilityLevel,
    ctx: StructuredContext)
  {
    function Rules(): Policy.Rules {
      Policy.Rules(config, capability, Some(Policy.TargetsOf(ctx)))
    }

    predicate Has(c: Coord) {
      c.intent < |batch.intents| && c.action < |batch.intents[c.intent].suggestedActions|
    }

    function Action(c: Coord): SuggestedAction
      requires Has(c)
    {
      batch.intents[c.intent].suggestedActions[c.action]
    }

    function Verdict(c: Coord): PolicyVerdict
      requires Has(c)
    {
      Policy.Verdict(Rules(), batch.intents[c.intent], c.action)
    }

    function SchemaFault(c: Coord): Option<string>
      requires Has(c)
    {
      SchemaError(Action(c), batch.intents[c.intent].riskLevel)
    }

    function Seal(c: Coord): AuthorizedAction
      requires Has(c)
    {
      AuthorizedAction(batch.intents[c.intent].intentId, windowOrdinal, c, Action(c),
                       EffectOf(Action(c).actionType), batch.generatedAtMs)
    }

    predicate Dispatches(c: Coord)
      requires Has(c)
    {
      SchemaFault(c).None? && Verdict(c) == Approved
    }
  }

  function SchemaError(action: SuggestedAction, risk: RiskLevel): Option<string> {
    if action.actionType == PreWarmProcess && (action.target.None? || action.target.value == "") then
      Some("schema violation: PreWarmProcess requires a non-empty target")
    else if EffectOf(action.actionType) == PureRead && risk == High then
      Some("schema violation: PureRead action cannot carry High risk intent")
    else None
  }

  function DenialToTerminal(reason: DenialReason): ActionState {
    if reason in {RiskExceedsCapability, ActionCapabilityDenied} then DeniedByCapability else DeniedByPolicy
  }

  /* ----- Coordinates ----- */

  /** Every action of a batch, intent by intent. */
  function Coords(intents: seq<Intent>): (r: seq<Coord>)
  {
    if intents == [] then []
    else
      var last := |intents| - 1;
      Coords(intents[..last]) + IntentCoords(last, |intents[last].suggestedActions|)
  }

  function IntentCoords(intent: nat, n: nat): seq<Coord> {
    seq(n, i requires 0 <= i < n => Coord(intent, i))
  }

  predicate Before(a: Coord, b: Coord) {
    a.intent < b.intent || (a.intent == b.intent && a.action < b.action)
  }

  predicate InBatch(intents: seq<Intent>, c: Coord) {
    c.intent < |intents| && c.action < |intents[c.intent].suggestedActions|
  }

  /** The listing is lexicographic and holds each action of the batch. */
  lemma {:induction false} CoordsEnumerate(intents: seq<Intent>)
    ensures forall k :: 0 <= k < |Coords(intents)| ==> InBatch(intents, Coords(intents)[k])
    ensures forall j, k :: 0 <= j < k < |Coords(intents)| ==> Before(Coords(intents)[j], Coords(intents)[k])
    ensures forall c :: InBatch(intents, c) ==> c in Coords(intents)
  {
    if intents != [] {
      var last := |intents| - 1;
      CoordsEnumerate(intents[..last]);
      forall c | InBatch(intents, c) ensures c in Coords(intents) {
        if c.intent == last {
          assert IntentCoords(last, |intents[last].suggestedActions|)[c.action] == c;
        } else {
          assert InBatch(intents[..last], c);
        }
      }
    }
  }

  /** Policy decides the actions in the same order, each with its own verdict. */
  lemma {:induction false} DecisionsFollowCoords(rules: Policy.Rules, intents: seq<Intent>)
    ensures var decisions := Policy.BatchDecisions(rules, intents);
            && |decisions| == |Coords(intents)|
            && forall k :: 0 <= k < |decisions| ==>
                 && InBatch(intents, Coords(intents)[k])
                 && decisions[k] == PolicyActionDecision(
                                      Coords(intents)[k],
                                      Policy.Verdict(rules, intents[Coords(intents)[k].intent], Coords(intents)[k].action))
  {
    hide Policy.Verdict;
    if intents != [] {
      DecisionsFollowCoords(rules, intents[..|intents| - 1]);
    }
  }

  /* ----- The audit trail, stated ----- */

  /** How one action can end. */
  datatype Fate = Malformed(message: string) | Refused(reason: DenialReason) | Executed(outcome: ActionOutcome) | Broke(message: string)

  function FateOf(job: Job, c: Coord, earlier: seq<AuthorizedAction>): Fate
    requires job.Has(c)
  {
    if job.SchemaFault(c).Some? then Malformed(job.SchemaFault(c).value)
    else match job.Verdict(c)
      case Denied(reason) => Refused(reason)
      case Approved =>
        match job.adapter(earlier + [job.Seal(c)])
        case Ok(outcome) => Executed(outcome)
        case Err(message) => Broke(message)
  }

  /** The five legal ways through the state machine. */
  function Path(fate: Fate): seq<ActionState> {
    match fate
    case Malformed(_) => [Proposed, RejectedInvalidSchema]
    case Refused(reason) => [Proposed, SchemaValidated, PolicyChecked, DenialToTerminal(reason)]
    case Executed(_) => [Proposed, SchemaValidated, PolicyChecked, Dispatched, Succeeded]
    case Broke(_) => [Proposed, SchemaValidated, PolicyChecked, Dispatched, Failed]
  }

  function RecordFor(job: Job, c: Coord, earlier: seq<AuthorizedAction>): AuditRecord
    requires job.Has(c)
  {
    var fate := FateOf(job, c, earlier);
    var action := job.Action(c);
    AuditRecord(
      job.windowOrdinal, c, job.batch.intents[c.intent].intentId, action.actionType, action.target,
      EffectOf(action.actionType), job.route, job.backendError, Path(fate), Path(fate)[|Path(fate)| - 1],
      if fate.Executed? then Some(OutcomeSummary(fate.outcome.actionType, fate.outcome.target, fate.outcome.summary)) else None,
      if fate.Refused? then Some(fate.reason) else None,
      if fate.Malformed? || fate.Broke? then Some(fate.message) else None,
      job.ctx.summary.sourceTier)
  }

  /** The credentials handed to the adapter: one for each action that dispatches, in order. */
  function Dispatches(job: Job, coords: seq<Coord>): seq<AuthorizedAction>
    requires forall c :: c in coords ==> job.Has(c)
  {
    if coords == [] then []
    else
      var last := coords[|coords| - 1];
      Dispatches(job, coords[..|coords| - 1]) + if job.Dispatches(last) then [job.Seal(last)] else []
  }

  function Records(job: Job, coords: seq<Coord>): (r: seq<AuditRecord>)
    requires forall c :: c in coords ==> job.Has(c)
    ensures |r| == |coords|
  {
    if coords == [] then []
    else
      var init := coords[..|coords| - 1];
      Records(job, init) + [RecordFor(job, coords[|coords| - 1], Dispatches(job, init))]
  }

  /* ----- The state machine ----- */

  /** One action through the machine; `decision` is what the coordinate lookup found. */
  method Drive(job: Job, c: Coord, decision: Option<PolicyActionDecision>, earlier: seq<AuthorizedAction>)
    returns (record: AuditRecord, calls: seq<AuthorizedAction>)
    requires job.Has(c)
    ensures decision == Some(PolicyActionDecision(c, job.Verdict(c))) ==> record == RecordFor(job, c, earlier)
    ensures decision == Some(PolicyActionDecision(c, job.Verdict(c))) ==>
              calls == earlier + if job.Dispatches(c) then [job.Seal(c)] else []
  {
    hide Policy.Verdict, Policy.TargetsOf, EffectOf, DenialToTerminal, SchemaError;
    var action := job.Action(c);
    calls := earlier;
    record := AuditRecord(
      job.windowOrdinal, c, job.batch.intents[c.intent].intentId, action.actionType, action.target,
      EffectOf(action.actionType), job.route, None, [Proposed], Proposed, None, None, None, job.ctx.summary.sourceTier);
    var fault := SchemaError(action, job.batch.intents[c.intent].riskLevel);
    if fault.Some? {
      record := record.Transition(RejectedInvalidSchema);
      record := record.(error := fault, backendError := job.backendError);
      return;
    }
    record := record.Transition(SchemaValidated);
    match decision {
      case Some(found) =>
        match found.verdict {
          case Approved =>
            record := record.Transition(PolicyChecked);
            calls := calls + [job.Seal(c)];
            record := record.Transition(Dispatched);
            match job.adapter(calls) {
              case Ok(outcome) =>
                record := record.Transition(Succeeded);
                record := record.(outcome := Some(OutcomeSummary(outcome.actionType, outcome.target, outcome.summary)));
              case Err(message) =>
                record := record.Transition(Failed);
                record := record.(error := Some(message));
            }
          case Denied(reason) =>
            record := record.Transition(PolicyChecked);
            record := record.Transition(DenialToTerminal(reason));
            record := record.(denialReason := Some(reason));
        }
      case None =>
        record := record.Transition(Failed);
        record := record.(error := Some("internal: missing policy decision"));
    }
    record := record.(backendError := job.backendError);
  }

  /** Decisions by coordinate. */
  method IndexDecisions(job: Job, decisions: seq<PolicyActionDecision>) returns (index: map<Coord, PolicyActionDecision>)
    requires decisions == Policy.BatchDecisions(job.Rules(), job.batch.intents)
    ensures forall c :: InBatch(job.batch.intents, c) ==> c in index && index[c] == PolicyActionDecision(c, job.Verdict(c))
  {
    hide Policy.Verdict, Policy.BatchDecisions;
    var coords := Coords(job.batch.intents);
    DecisionsFollowCoords(job.Rules(), job.batch.intents);
    CoordsEnumerate(job.batch.intents);
    index := map[];
    for k := 0 to |decisions|
      invariant forall j :: 0 <= j < k ==> coords[j] in index
      invariant forall c :: c in index ==> job.Has(c) && index[c] == PolicyActionDecision(c, job.Verdict(c))
    {
      index := index[decisions[k].coord := decisions[k]];
    }
  }

  lemma OneMore(job: Job, coords: seq<Coord>, c: Coord)
    requires job.Has(c) && forall d :: d in coords ==> job.Has(d)
    ensures forall d :: d in coords + [c] ==> job.Has(d)
    ensures Records(job, coords + [c]) == Records(job, coords) + [RecordFor(job, c, Dispatches(job, coords))]
    ensures Dispatches(job, coords + [c]) == Dispatches(job, coords) + if job.Dispatches(c) then [job.Seal(c)] else []
  {
    hide RecordFor, Policy.Verdict;
    assert (coords + [c])[..|coords|] == coords;
  }

  method DriveIntent(job: Job, n: nat, index: map<Coord, PolicyActionDecision>,
                     ghost done: seq<Coord>, records0: seq<AuditRecord>, calls0: seq<AuthorizedAction>)
    returns (records: seq<AuditRecord>, calls: seq<AuthorizedAction>)
    requires n < |job.batch.intents|
    requires forall c :: InBatch(job.batch.intents, c) ==> c in index && index[c] == PolicyActionDecision(c, job.Verdict(c))
    requires forall c :: c in done ==> job.Has(c)
    requires records0 == Records(job, done) && calls0 == Dispatches(job, done)
    ensures var all := done + IntentCoords(n, |job.batch.intents[n].suggestedActions|);
            && (forall c :: c in all ==> job.Has(c))
            && records == Records(job, all)
            && calls == Dispatches(job, all)
  {
    hide Policy.Verdict, RecordFor, Records, Dispatches, SchemaError, Policy.TargetsOf, EffectOf;
    records, calls := records0, calls0;
    assert done + IntentCoords(n, 0) == done;
    for i := 0 to |job.batch.intents[n].suggestedActions|
      invariant forall c :: c in done + IntentCoords(n, i) ==> job.Has(c)
      invariant records == Records(job, done + IntentCoords(n, i))
      invariant calls == Dispatches(job, done + IntentCoords(n, i))
    {
      var c := Coord(n, i);
      var found := if c in index then Some(index[c]) else None;
      OneMore(job, done + IntentCoords(n, i), c);
      assert done + IntentCoords(n, i + 1) == (done + IntentCoords(n, i)) + [c];
      var record, calls' := Drive(job, c, found, calls);
      records, calls := records + [record], calls';
    }
  }

  /** A whole window: exactly the stated records, and exactly the stated calls to the adapter.
      The lookup of a decision never misses. */
  method Run(job: Job) returns (records: seq<AuditRecord>, calls: seq<AuthorizedAction>)
    ensures forall c :: c in Coords(job.batch.intents) ==> job.Has(c)
    ensures records == Records(job, Coords(job.batch.intents))
    ensures calls == Dispatches(job, Coords(job.batch.intents))
  {
    hide Policy.Verdict, Policy.BatchDecisions, RecordFor, Policy.TargetsOf, SchemaError;
    var intents := job.batch.intents;
    var decisions := Policy.EvaluateBatchWithContext(job.config, intents, job.capability, job.ctx);
    var index := IndexDecisions(job, decisions);
    records, calls := [], [];
    for n := 0 to |intents|
      invariant forall c :: c in Coords(intents[..n]) ==> job.Has(c)
      invariant records == Records(job, Coords(intents[..n]))
      invariant calls == Dispatches(job, Coords(intents[..n]))
    {
      assert intents[..n + 1][..n] == intents[..n];
      records, calls := DriveIntent(job, n, index, Coords(intents[..n]), records, calls);
    }
    assert intents[..|intents|] == intents;
  }

  /* ----- What every window's audit trail satisfies ----- */

  predicate LegalPath(transitions: seq<ActionState>) {
    || transitions == [Proposed, RejectedInvalidSchema]
    || transitions == [Proposed, SchemaValidated, PolicyChecked, DeniedByCapability]
    || transitions == [Proposed, SchemaValidated, PolicyChecked, DeniedByPolicy]
    || transitions == [Proposed, SchemaValidated, PolicyChecked, Dispatched, Succeeded]
    || transitions == [Proposed, SchemaValidated, PolicyChecked, Dispatched, Failed]
  }

  lemma {:induction false} RecordAt(job: Job, coords: seq<Coord>, k: nat)
    requires forall c :: c in coords ==> job.Has(c)
    requires k < |coords|
    ensures forall c :: c in coords[..k] ==> job.Has(c)
    ensures Records(job, coords)[k] == RecordFor(job, coords[k], Dispatches(job, coords[..k]))
  {
    hide RecordFor, Policy.Verdict, SchemaError;
    var init := coords[..|coords| - 1];
    if k < |init| {
      RecordAt(job, init, k);
      assert init[..k] == coords[..k];
    } else {
      assert init == coords[..k];
    }
  }

  /** The calls are the credentials of exactly the dispatching actions, each once and in order. */
  ghost predicate ExactlyDispatched(job: Job, coords: seq<Coord>, calls: seq<AuthorizedAction>) {
    && (forall k :: 0 <= k < |calls| ==>
          var c := calls[k].coord;
          c in coords && job.Has(c) && job.Dispatches(c) && calls[k] == job.Seal(c))
    && (forall j, k :: 0 <= j < k < |calls| ==> Before(calls[j].coord, calls[k].coord))
    && (forall c :: c in coords && job.Has(c) && job.Dispatches(c) ==> job.Seal(c) in calls)
  }

  lemma OneMoreDispatched(job: Job, init: seq<Coord>, c: Coord, calls: seq<AuthorizedAction>)
    requires job.Has(c) && ExactlyDispatched(job, init, calls)
    requires forall j :: 0 <= j < |init| ==> Before(init[j], c)
    ensures ExactlyDispatched(job, init + [c], calls + if job.Dispatches(c) then [job.Seal(c)] else [])
  {
    hide Job.Dispatches, Policy.TargetsOf, Policy.Verdict, SchemaError, EffectOf, Before;
    var calls' := calls + if job.Dispatches(c) then [job.Seal(c)] else [];
    assert forall k :: 0 <= k < |calls| ==> calls'[k] == calls[k] && calls[k].coord in init;
    assert forall d :: d in init + [c] <==> d in init || d == c;
    if job.Dispatches(c) {
      assert calls'[|calls|] == job.Seal(c);
    }
  }

  lemma {:induction false} DispatchesAreExact(job: Job, coords: seq<Coord>)
    requires forall c :: c in coords ==> job.Has(c)
    requires forall j, k :: 0 <= j < k < |coords| ==> Before(coords[j], coords[k])
    ensures ExactlyDispatched(job, coords, Dispatches(job, coords))
  {
    hide Job.Dispatches, Job.Seal, Policy.Verdict, SchemaError, EffectOf, Policy.TargetsOf, Before, ExactlyDispatched;
    if coords == [] {
      NothingDispatched(job);
    } else {
      var init, c := coords[..|coords| - 1], coords[|coords| - 1];
      DispatchesAreExact(job, init);
      OneMoreDispatched(job, init, c, Dispatches(job, init));
      assert init + [c] == coords;
    }
  }

  lemma NothingDispatched(job: Job)
    ensures ExactlyDispatched(job, [], [])
  {
  }

  /** A finished record: on a legal path that ends in its terminal state, with the reason,
      outcome or error that belongs to that state and no other, and dispatched or not as ruled. */
  predicate WellAudited(job: Job, r: AuditRecord)
    requires job.Has(r.coord)
  {
    && r.windowOrdinal == job.windowOrdinal
    && LegalPath(r.transitions)
    && r.terminal == r.transitions[|r.transitions| - 1]
    && r.terminal.IsTerminal()
    && (r.outcome.Some? <==> r.terminal == Succeeded)
    && (r.denialReason.Some? <==> r.terminal in {DeniedByCapability, DeniedByPolicy})
    && (r.error.Some? <==> r.terminal in {RejectedInvalidSchema, Failed})
    && (Dispatched in r.transitions <==> job.Dispatches(r.coord))
  }

  /** The audit trail of any window: one record for each suggested action in lexicographic
      order, all well audited; the adapter gets each dispatching action once, in that order. */
  lemma AuditTrail(job: Job)
    ensures var coords := Coords(job.batch.intents);
            && (forall c :: c in coords <==> InBatch(job.batch.intents, c))
            && (forall j, k :: 0 <= j < k < |coords| ==> Before(coords[j], coords[k]))
            && (forall k :: 0 <= k < |coords| ==>
                  var r := Records(job, coords)[k];
                  r.coord == coords[k] && WellAudited(job, r))
            && ExactlyDispatched(job, coords, Dispatches(job, coords))
  {
    hide WellAudited, RecordFor, Policy.Verdict, SchemaError, EffectOf, Policy.TargetsOf;
    var coords := Coords(job.batch.intents);
    CoordsEnumerate(job.batch.intents);
    DispatchesAreExact(job, coords);
    forall k | 0 <= k < |coords|
      ensures var r := Records(job, coords)[k]; r.coord == coords[k] && WellAudited(job, r)
    {
      RecordAt(job, coords, k);
      RecordIsLegal(job, coords[k], Dispatches(job, coords[..k]));
    }
  }

  lemma RecordIsLegal(job: Job, c: Coord, earlier: seq<AuthorizedAction>)
    requires job.Has(c)
    ensures RecordFor(job, c, earlier).coord == c
    ensures WellAudited(job, RecordFor(job, c, earlier))
  {
    hide Policy.Verdict, SchemaError, EffectOf, Policy.TargetsOf;
  }
}
