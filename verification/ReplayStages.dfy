/** Replay's counters: evaluating policy only, or executing everything, reports the same authorizations. */
module ReplayStages {
  import opened Wrappers
  import opened Spec
  import Policy
  import opened Lifecycle

  datatype Stage = Ingest | Sanitize | Context | Decision | PolicyOnly | Execute {
    function Rank(): nat {
      match this
      case Ingest => 0 case Sanitize => 1 case Context => 2 case Decision => 3 case PolicyOnly => 4 case Execute => 5
    }

    predicate Includes(other: Stage) {
      Rank() >= other.Rank()
    }
  }

  datatype Summary = Summary(
    windowsClosed: nat,
    intentsTotal: nat,
    intentsApproved: nat,
    intentsRejected: nat,
    actionsAuthorized: nat,
    actionsDenied: nat,
    actionsFailed: nat,
    auditRecords: nat,
    denialCounts: map<DenialReason, nat>)

  function CountOf(counts: map<DenialReason, nat>, reason: DenialReason): nat {
    if reason in counts then counts[reason] else 0
  }

  function Increment(counts: map<DenialReason, nat>, reason: DenialReason): map<DenialReason, nat> {
    counts[reason := CountOf(counts, reason) + 1]
  }

  /* ----- What either stage knows about an action ----- */

  datatype Ruling = Ruling(intent: nat, authorized: bool, denial: Option<DenialReason>)

  function DecisionRuling(d: PolicyActionDecision): Ruling {
    Ruling(d.coord.intent, d.verdict == Approved, if d.verdict.Denied? then Some(d.verdict.reason) else None)
  }

  function RecordRuling(r: AuditRecord): Ruling {
    Ruling(r.coord.intent, r.terminal == Succeeded || r.terminal == Failed, r.denialReason)
  }

  function DecisionRulings(decisions: seq<PolicyActionDecision>): seq<Ruling> {
    seq(|decisions|, k requires 0 <= k < |decisions| => DecisionRuling(decisions[k]))
  }

  function RecordRulings(records: seq<AuditRecord>): seq<Ruling> {
    seq(|records|, k requires 0 <= k < |records| => RecordRuling(records[k]))
  }

  /* ----- Counting rulings ----- */

  function Total(rulings: seq<Ruling>, weight: Ruling -> nat): nat {
    if rulings == [] then 0
    else Total(rulings[..|rulings| - 1], weight) + weight(rulings[|rulings| - 1])
  }

  function OfIntent(rulings: seq<Ruling>, i: nat): seq<Ruling> {
    if rulings == [] then []
    else
      var last := rulings[|rulings| - 1];
      OfIntent(rulings[..|rulings| - 1], i) + if last.intent == i then [last] else []
  }

  function TotalByIntent(rulings: seq<Ruling>, n: nat, weight: Ruling -> nat): nat {
    if n == 0 then 0
    else TotalByIntent(rulings, n - 1, weight) + Total(OfIntent(rulings, n - 1), weight)
  }

  const IS_AUTHORIZED: Ruling -> nat := (r: Ruling) => if r.authorized then 1 else 0

  const IS_RULING: Ruling -> nat := (r: Ruling) => 1

  function HasReason(reason: DenialReason): Ruling -> nat {
    (r: Ruling) => if r.denial == Some(reason) then 1 else 0
  }

  predicate IntentApproved(rulings: seq<Ruling>, i: nat) {
    exists k :: 0 <= k < |rulings| && rulings[k].intent == i && rulings[k].authorized
  }

  function ApprovedIntents(rulings: seq<Ruling>, n: nat): (count: nat)
    ensures count <= n
  {
    if n == 0 then 0
    else ApprovedIntents(rulings, n - 1) + if IntentApproved(rulings, n - 1) then 1 else 0
  }

  lemma {:induction false} TotalOfConcat(a: seq<Ruling>, x: Ruling, weight: Ruling -> nat)
    ensures Total(a + [x], weight) == Total(a, weight) + weight(x)
  {
    assert (a + [x])[..|a|] == a;
  }

  lemma {:induction false} ByIntentOneMore(a: seq<Ruling>, x: Ruling, n: nat, weight: Ruling -> nat)
    ensures TotalByIntent(a + [x], n, weight) == TotalByIntent(a, n, weight) + if x.intent < n then weight(x) else 0
  {
    if n > 0 {
      ByIntentOneMore(a, x, n - 1, weight);
      assert (a + [x])[..|a|] == a;
      TotalOfConcat(OfIntent(a, n - 1), x, weight);
      assert OfIntent(a, n - 1) + [] == OfIntent(a, n - 1);
    }
  }

  lemma {:induction false} ByIntentOfNone(n: nat, weight: Ruling -> nat)
    ensures TotalByIntent([], n, weight) == 0
  {
    if n > 0 {
      ByIntentOfNone(n - 1, weight);
    }
  }

  /** Going through the rulings intent by intent counts each exactly once. */
  lemma {:induction false} ByIntentIsTotal(rulings: seq<Ruling>, n: nat, weight: Ruling -> nat)
    requires forall k :: 0 <= k < |rulings| ==> rulings[k].intent < n
    ensures TotalByIntent(rulings, n, weight) == Total(rulings, weight)
  {
    if rulings == [] {
      ByIntentOfNone(n, weight);
    } else {
      var init := rulings[..|rulings| - 1];
      ByIntentIsTotal(init, n, weight);
      assert rulings == init + [rulings[|rulings| - 1]];
      ByIntentOneMore(init, rulings[|rulings| - 1], n, weight);
    }
  }

  lemma {:induction false} OfIntentApproved(rulings: seq<Ruling>, i: nat)
    ensures Total(OfIntent(rulings, i), IS_AUTHORIZED) > 0 <==> IntentApproved(rulings, i)
    ensures Total(OfIntent(rulings, i), IS_AUTHORIZED) <= |OfIntent(rulings, i)| == Total(OfIntent(rulings, i), IS_RULING)
  {
    if rulings != [] {
      var init, last := rulings[..|rulings| - 1], rulings[|rulings| - 1];
      OfIntentApproved(init, i);
      assert rulings == init + [last];
      TotalOfConcat(OfIntent(init, i), last, IS_AUTHORIZED);
      TotalOfConcat(OfIntent(init, i), last, IS_RULING);
      assert OfIntent(init, i) + [] == OfIntent(init, i);
      assert IntentApproved(rulings, i) <==> IntentApproved(init, i) || (last.intent == i && last.authorized);
    }
  }

  /* ----- The two branches of a replayed window ----- */

  /** What a window adds to the summary, told from its rulings. */
  predicate Adds(s0: Summary, s: Summary, rulings: seq<Ruling>, intents: nat) {
    && s.intentsApproved == s0.intentsApproved + ApprovedIntents(rulings, intents)
    && s.intentsRejected == s0.intentsRejected + (intents - ApprovedIntents(rulings, intents))
    && s.actionsAuthorized == s0.actionsAuthorized + Total(rulings, IS_AUTHORIZED)
    && s.actionsDenied + Total(rulings, IS_AUTHORIZED) == s0.actionsDenied + |rulings|
    && s.windowsClosed == s0.windowsClosed
    && s.intentsTotal == s0.intentsTotal
  }

  /** Decisions grouped by intent ordinal, each group in its original order. */
  method GroupByIntent(decisions: seq<PolicyActionDecision>) returns (byIntent: map<nat, seq<PolicyActionDecision>>)
    ensures forall i :: DecisionRulings(if i in byIntent then byIntent[i] else []) == OfIntent(DecisionRulings(decisions), i)
  {
    byIntent := map[];
    for k := 0 to |decisions|
      invariant forall i :: DecisionRulings(if i in byIntent then byIntent[i] else []) == OfIntent(DecisionRulings(decisions[..k]), i)
    {
      var d := decisions[k];
      ghost var before := DecisionRulings(decisions[..k]);
      assert DecisionRulings(decisions[..k + 1]) == before + [DecisionRuling(d)];
      assert (before + [DecisionRuling(d)])[..|before|] == before;
      var group := if d.coord.intent in byIntent then byIntent[d.coord.intent] else [];
      assert DecisionRulings(group + [d]) == DecisionRulings(group) + [DecisionRuling(d)];
      byIntent := byIntent[d.coord.intent := group + [d]];
    }
    assert decisions[..|decisions|] == decisions;
  }

  /** One intent's decisions: how many were approved, and every denial counted under its reason. */
  method TallyIntent(decisions: seq<PolicyActionDecision>, counts0: map<DenialReason, nat>)
    returns (approved: nat, counts: map<DenialReason, nat>)
    ensures approved == Total(DecisionRulings(decisions), IS_AUTHORIZED)
    ensures forall r :: CountOf(counts, r) == CountOf(counts0, r) + Total(DecisionRulings(decisions), HasReason(r))
  {
    approved, counts := 0, counts0;
    for k := 0 to |decisions|
      invariant approved == Total(DecisionRulings(decisions[..k]), IS_AUTHORIZED)
      invariant forall r :: CountOf(counts, r) == CountOf(counts0, r) + Total(DecisionRulings(decisions[..k]), HasReason(r))
    {
      var d := decisions[k];
      ghost var before := DecisionRulings(decisions[..k]);
      assert DecisionRulings(decisions[..k + 1]) == before + [DecisionRuling(d)];
      assert (before + [DecisionRuling(d)])[..|before|] == before;
      match d.verdict {
        case Approved => approved := approved + 1;
        case Denied(reason) => counts := Increment(counts, reason);
      }
    }
    assert decisions[..|decisions|] == decisions;
  }

  method PolicyBranch(s0: Summary, decisions: seq<PolicyActionDecision>, intents: nat) returns (s: Summary)
    requires forall k :: 0 <= k < |decisions| ==> decisions[k].coord.intent < intents
    ensures Adds(s0, s, DecisionRulings(decisions), intents)
    ensures s.actionsFailed == s0.actionsFailed && s.auditRecords == s0.auditRecords
    ensures forall r :: CountOf(s.denialCounts, r) == CountOf(s0.denialCounts, r) + Total(DecisionRulings(decisions), HasReason(r))
  {
    hide Total, OfIntent, IntentApproved, HasReason;
    ghost var rulings := DecisionRulings(decisions);
    var byIntent := GroupByIntent(decisions);
    s := s0;
    for i := 0 to intents
      invariant s.intentsApproved == s0.intentsApproved + ApprovedIntents(rulings, i)
      invariant s.intentsRejected == s0.intentsRejected + (i - ApprovedIntents(rulings, i))
      invariant s.actionsAuthorized == s0.actionsAuthorized + TotalByIntent(rulings, i, IS_AUTHORIZED)
      invariant s.actionsDenied + TotalByIntent(rulings, i, IS_AUTHORIZED) == s0.actionsDenied + TotalByIntent(rulings, i, IS_RULING)
      invariant forall r :: CountOf(s.denialCounts, r) == CountOf(s0.denialCounts, r) + TotalByIntent(rulings, i, HasReason(r))
      invariant s == s0.(intentsApproved := s.intentsApproved, intentsRejected := s.intentsRejected,
                         actionsAuthorized := s.actionsAuthorized, actionsDenied := s.actionsDenied, denialCounts := s.denialCounts)
    {
      var group := if i in byIntent then byIntent[i] else [];
      var approved, counts := TallyIntent(group, s.denialCounts);
      OfIntentApproved(rulings, i);
      s := s.(denialCounts := counts, actionsAuthorized := s.actionsAuthorized + approved,
              actionsDenied := s.actionsDenied + (|group| - approved));
      if approved > 0 {
        s := s.(intentsApproved := s.intentsApproved + 1);
      } else {
        s := s.(intentsRejected := s.intentsRejected + 1);
      }
    }
    AllIntents(rulings, intents);
  }

  lemma AllIntents(rulings: seq<Ruling>, n: nat)
    requires forall k :: 0 <= k < |rulings| ==> rulings[k].intent < n
    ensures TotalByIntent(rulings, n, IS_AUTHORIZED) == Total(rulings, IS_AUTHORIZED)
    ensures TotalByIntent(rulings, n, IS_RULING) == |rulings|
    ensures forall r :: TotalByIntent(rulings, n, HasReason(r)) == Total(rulings, HasReason(r))
  {
    ByIntentIsTotal(rulings, n, IS_AUTHORIZED);
    ByIntentIsTotal(rulings, n, IS_RULING);
    TotalIsLength(rulings);
    forall r ensures TotalByIntent(rulings, n, HasReason(r)) == Total(rulings, HasReason(r)) {
      ByIntentIsTotal(rulings, n, HasReason(r));
    }
  }

  lemma {:induction false} TotalIsLength(rulings: seq<Ruling>)
    ensures Total(rulings, IS_RULING) == |rulings|
  {
    if rulings != [] {
      TotalIsLength(rulings[..|rulings| - 1]);
    }
  }

  /** Whether some record of intent `i` was authorized. */
  method AnyAuthorized(records: seq<AuditRecord>, i: nat) returns (any: bool)
    ensures any == IntentApproved(RecordRulings(records), i)
  {
    any := false;
    for k := 0 to |records|
      invariant any == exists j :: 0 <= j < k && RecordRulings(records)[j].intent == i && RecordRulings(records)[j].authorized
    {
      assert RecordRulings(records)[k] == RecordRuling(records[k]);
      if records[k].coord.intent == i && (records[k].terminal == Succeeded || records[k].terminal == Failed) {
        any := true;
      }
    }
  }

  function FailedAmong(records: seq<AuditRecord>): nat {
    if records == [] then 0
    else FailedAmong(records[..|records| - 1]) + if records[|records| - 1].terminal == Failed then 1 else 0
  }

  /** Records of a finished trail are authorized or denied. */
  predicate Finished(records: seq<AuditRecord>) {
    forall k :: 0 <= k < |records| ==>
      && records[k].terminal.IsTerminal()
      && (records[k].denialReason.Some? ==> records[k].terminal in {DeniedByCapability, DeniedByPolicy})
  }

  method CountRecord(s0: Summary, record: AuditRecord) returns (s: Summary)
    requires Finished([record])
    ensures s.actionsAuthorized == s0.actionsAuthorized + IS_AUTHORIZED(RecordRuling(record))
    ensures s.actionsDenied + IS_AUTHORIZED(RecordRuling(record)) == s0.actionsDenied + 1
    ensures s.auditRecords == s0.auditRecords + 1
    ensures s.actionsFailed == s0.actionsFailed + if record.terminal == Failed then 1 else 0
    ensures forall r :: CountOf(s.denialCounts, r) == CountOf(s0.denialCounts, r) + HasReason(r)(RecordRuling(record))
    ensures s.windowsClosed == s0.windowsClosed && s.intentsTotal == s0.intentsTotal
    ensures s.intentsApproved == s0.intentsApproved && s.intentsRejected == s0.intentsRejected
  {
    assert [record][0] == record;
    s := s0.(auditRecords := s0.auditRecords + 1);
    match record.terminal {
      case Succeeded | Failed =>
        s := s.(actionsAuthorized := s.actionsAuthorized + 1);
      case RejectedInvalidSchema | DeniedByCapability | DeniedByPolicy =>
        s := s.(actionsDenied := s.actionsDenied + 1);
        if record.denialReason.Some? {
          s := s.(denialCounts := Increment(s.denialCounts, record.denialReason.value));
        }
      case _ =>
    }
    if record.terminal == Failed {
      s := s.(actionsFailed := s.actionsFailed + 1);
    }
  }

  method CountRecords(s0: Summary, records: seq<AuditRecord>) returns (s: Summary)
    requires Finished(records)
    ensures s.actionsAuthorized == s0.actionsAuthorized + Total(RecordRulings(records), IS_AUTHORIZED)
    ensures s.actionsDenied + Total(RecordRulings(records), IS_AUTHORIZED) == s0.actionsDenied + |records|
    ensures s.auditRecords == s0.auditRecords + |records|
    ensures s.actionsFailed == s0.actionsFailed + FailedAmong(records)
    ensures forall r :: CountOf(s.denialCounts, r) == CountOf(s0.denialCounts, r) + Total(RecordRulings(records), HasReason(r))
    ensures s.windowsClosed == s0.windowsClosed && s.intentsTotal == s0.intentsTotal
    ensures s.intentsApproved == s0.intentsApproved && s.intentsRejected == s0.intentsRejected
  {
    hide HasReason, CountOf, RecordRuling;
    s := s0;
    for k := 0 to |records|
      invariant s.actionsAuthorized == s0.actionsAuthorized + Total(RecordRulings(records[..k]), IS_AUTHORIZED)
      invariant s.actionsDenied + Total(RecordRulings(records[..k]), IS_AUTHORIZED) == s0.actionsDenied + k
      invariant s.auditRecords == s0.auditRecords + k
      invariant s.actionsFailed == s0.actionsFailed + FailedAmong(records[..k])
      invariant forall r :: CountOf(s.denialCounts, r) == CountOf(s0.denialCounts, r) + Total(RecordRulings(records[..k]), HasReason(r))
      invariant s.windowsClosed == s0.windowsClosed && s.intentsTotal == s0.intentsTotal
      invariant s.intentsApproved == s0.intentsApproved && s.intentsRejected == s0.intentsRejected
    {
      ghost var before := RecordRulings(records[..k]);
      assert RecordRulings(records[..k + 1]) == before + [RecordRuling(records[k])];
      assert (before + [RecordRuling(records[k])])[..|before|] == before;
      assert records[..k + 1][..k] == records[..k];
      s := CountRecord(s, records[k]);
    }
    assert records[..|records|] == records;
  }

  method ExecuteBranch(s0: Summary, records: seq<AuditRecord>, intents: nat) returns (s: Summary)
    requires Finished(records)
    ensures Adds(s0, s, RecordRulings(records), intents)
    ensures s.auditRecords == s0.auditRecords + |records|
    ensures s.actionsFailed == s0.actionsFailed + FailedAmong(records)
    ensures forall r :: CountOf(s.denialCounts, r) == CountOf(s0.denialCounts, r) + Total(RecordRulings(records), HasReason(r))
  {
    var approved, rejected := 0, 0;
    for i := 0 to intents
      invariant approved == ApprovedIntents(RecordRulings(records), i)
      invariant rejected == i - ApprovedIntents(RecordRulings(records), i)
    {
      var any := AnyAuthorized(records, i);
      if any {
        approved := approved + 1;
      } else {
        rejected := rejected + 1;
      }
    }
    s := s0.(intentsApproved := s0.intentsApproved + approved, intentsRejected := s0.intentsRejected + rejected);
    s := CountRecords(s, records);
  }

  /* ----- Agreement of the stages ----- */

  /** Nothing of risk High gets past both the backend's capability and the engine. */
  predicate HighRiskBarred(job: Job) {
    job.capability.maxRisk != High || job.config.maxAutoRisk != High
  }

  /** No NoOp gets past the capability, the cap and the blocked names. */
  predicate NoOpBarred(job: Job) {
    || NoOp !in job.capability.allowedActions
    || job.config.maxActionsPerBatch == 0
    || exists b :: b in job.config.blockedActions && Policy.Contains("NoOp", b)
  }

  /** The policy lets nothing through that the schema check rejects. */
  predicate SubsumesSchema(job: Job) {
    HighRiskBarred(job) || NoOpBarred(job)
  }

  /** Every capability a route can have bars High risk. */
  lemma RoutesBarHighRisk(job: Job)
    requires job.capability == CapabilityForRoute(job.route)
    ensures HighRiskBarred(job)
  {
  }

  /** What policy approves is well formed: schema checking only removes actions that policy denies. */
  lemma ApprovedIsWellFormed(job: Job, c: Coord)
    requires job.Has(c) && SubsumesSchema(job) && job.Verdict(c) == Approved
    ensures job.SchemaFault(c).None?
  {
    hide Policy.TargetsOf, Policy.Passing, Policy.Contains, NoOpBarred;
    var action := job.Action(c);
    assert Policy.ActionReason(job.Rules(), action).None?;
    assert Policy.CheckTarget(action.actionType, action.target, Policy.TargetsOf(job.ctx)).None?;
    if action.actionType == NoOp {
      ApprovedNoOpIsNotBarred(job, c);
    }
  }

  lemma ApprovedNoOpIsNotBarred(job: Job, c: Coord)
    requires job.Has(c) && job.Verdict(c) == Approved && job.Action(c).actionType == NoOp
    ensures !NoOpBarred(job)
  {
    hide Policy.TargetsOf, Policy.Passing, Policy.Contains;
    assert Policy.ActionName(NoOp) == "NoOp";
  }

  /** A NoOp for an intent of risk High. */
  function HighRiskNoOp(job: Job): IntentBatch {
    IntentBatch("", [Intent("", Idle, job.config.minConfidence, High, [SuggestedAction(NoOp, None, Immediate)], [])], 0, "")
  }

  /** Without those bars the stages come apart: policy approves this NoOp, and the schema check rejects it. */
  lemma HighRiskSplitsStages(job: Job)
    requires !SubsumesSchema(job) && job.batch == HighRiskNoOp(job)
    ensures job.Verdict(Coord(0, 0)) == Approved
    ensures job.SchemaFault(Coord(0, 0)).Some?
  {
    hide Policy.TargetsOf;
    assert Policy.ActionName(NoOp) == "NoOp";
    assert job.batch.intents[0].suggestedActions[..0] == [];
  }

  /** Execution dispatches exactly what policy approves. */
  ghost predicate StagesAgree(job: Job) {
    forall c :: job.Has(c) ==> (job.Dispatches(c) <==> job.Verdict(c) == Approved)
  }

  /** The exact condition on a configuration and a capability: the stages agree on every batch if and only
      if either High risk or the NoOp is barred. */
  lemma StagesAgreeExactly(job: Job)
    ensures (forall batch :: StagesAgree(job.(batch := batch))) <==> SubsumesSchema(job)
  {
    hide Policy.Verdict, SchemaError, SubsumesSchema, Policy.TargetsOf;
    if SubsumesSchema(job) {
      forall batch ensures StagesAgree(job.(batch := batch)) {
        var other := job.(batch := batch);
        SameBars(job, batch);
        forall c | other.Has(c) ensures other.Dispatches(c) <==> other.Verdict(c) == Approved {
          if other.Verdict(c) == Approved {
            ApprovedIsWellFormed(other, c);
          }
        }
      }
    } else {
      var other := job.(batch := HighRiskNoOp(job));
      SameBars(job, HighRiskNoOp(job));
      HighRiskSplitsStages(other);
      assert other.Has(Coord(0, 0)) && !StagesAgree(other);
    }
  }

  lemma SameBars(job: Job, batch: IntentBatch)
    ensures SubsumesSchema(job.(batch := batch)) == SubsumesSchema(job)
  {
    hide Policy.Contains;
  }

  /** The two stages rule alike on every action; execution forgets only the reason of the
      denials that its schema check anticipates. */
  lemma RulingsAgree(job: Job)
    requires SubsumesSchema(job)
    ensures var coords := Coords(job.batch.intents);
            var decided := DecisionRulings(Policy.BatchDecisions(job.Rules(), job.batch.intents));
            && (forall c :: c in coords ==> job.Has(c))
            && var executed := RecordRulings(Records(job, coords));
            && |decided| == |executed| == |coords|
            && forall k :: 0 <= k < |coords| ==>
                 && decided[k].intent == executed[k].intent == coords[k].intent
                 && decided[k].authorized == executed[k].authorized
                 && executed[k].denial == if job.SchemaFault(coords[k]).Some? then None else decided[k].denial
  {
    hide Policy.Verdict, SchemaError, Policy.TargetsOf, EffectOf, Policy.BatchDecisions, Records, Dispatches;
    var coords := Coords(job.batch.intents);
    CoordsEnumerate(job.batch.intents);
    DecisionsFollowCoords(job.Rules(), job.batch.intents);
    forall k | 0 <= k < |coords|
      ensures var executed := RecordRuling(Records(job, coords)[k]);
              && executed.intent == coords[k].intent
              && executed.authorized == (job.Verdict(coords[k]) == Approved)
              && executed.denial == if job.SchemaFault(coords[k]).None? && job.Verdict(coords[k]).Denied?
                                    then Some(job.Verdict(coords[k]).reason) else None
    {
      RecordAt(job, coords, k);
      if job.Verdict(coords[k]) == Approved {
        ApprovedIsWellFormed(job, coords[k]);
      }
    }
  }

  lemma {:induction false} SameAuthorizations(a: seq<Ruling>, b: seq<Ruling>, n: nat)
    requires |a| == |b|
    requires forall k :: 0 <= k < |a| ==> a[k].intent == b[k].intent && a[k].authorized == b[k].authorized
    ensures Total(a, IS_AUTHORIZED) == Total(b, IS_AUTHORIZED)
    ensures ApprovedIntents(a, n) == ApprovedIntents(b, n)
    decreases |a| + n
  {
    if a != [] {
      SameAuthorizations(a[..|a| - 1], b[..|b| - 1], 0);
    }
    if n > 0 {
      SameAuthorizations(a, b, n - 1);
    }
  }

  /** One closed window of a replay, whatever the stage it stops at. */
  method ProcessWindow(job: Job, stage: Stage, s0: Summary) returns (s: Summary)
    requires job.capability == CapabilityForRoute(job.route)
    ensures s.windowsClosed == s0.windowsClosed + 1
    ensures !stage.Includes(Decision) ==> s == s0.(windowsClosed := s0.windowsClosed + 1)
    ensures stage == Decision ==>
              s == s0.(windowsClosed := s0.windowsClosed + 1, intentsTotal := s0.intentsTotal + |job.batch.intents|)
    ensures stage.Includes(PolicyOnly) ==>
              Adds(s0.(windowsClosed := s0.windowsClosed + 1, intentsTotal := s0.intentsTotal + |job.batch.intents|), s,
                   DecisionRulings(Policy.BatchDecisions(job.Rules(), job.batch.intents)), |job.batch.intents|)
  {
    hide Policy.Verdict, SchemaError, Policy.TargetsOf, EffectOf, Policy.BatchDecisions, Records, Dispatches, RecordFor, WellAudited;
    s := s0.(windowsClosed := s0.windowsClosed + 1);
    if !stage.Includes(Decision) {
      return;
    }
    s := s.(intentsTotal := s.intentsTotal + |job.batch.intents|);
    if !stage.Includes(PolicyOnly) {
      return;
    }
    RoutesBarHighRisk(job);
    RulingsAgree(job);
    if stage.Includes(Execute) {
      var records, calls := Run(job);
      TrailIsFinished(job);
      s := ExecuteBranch(s, records, |job.batch.intents|);
      SameAuthorizations(DecisionRulings(Policy.BatchDecisions(job.Rules(), job.batch.intents)), RecordRulings(records),
                         |job.batch.intents|);
      return;
    }
    var decisions := Policy.EvaluateBatchWithContext(job.config, job.batch.intents, job.capability, job.ctx);
    DecisionsFollowCoords(job.Rules(), job.batch.intents);
    s := PolicyBranch(s, decisions, |job.batch.intents|);
  }

  lemma TrailIsFinished(job: Job)
    ensures forall c :: c in Coords(job.batch.intents) ==> job.Has(c)
    ensures Finished(Records(job, Coords(job.batch.intents)))
  {
    hide Policy.Verdict, SchemaError, Policy.TargetsOf, EffectOf, Records, Dispatches, RecordFor, LegalPath;
    AuditTrail(job);
  }

  /* ----- Denial counts ----- */

  /** Actions whose denial for `reason` the schema check anticipates. */
  function Anticipated(job: Job, coords: seq<Coord>, reason: DenialReason): nat
    requires forall c :: c in coords ==> job.Has(c)
  {
    if coords == [] then 0
    else
      var c := coords[|coords| - 1];
      Anticipated(job, coords[..|coords| - 1], reason) +
      if job.SchemaFault(c).Some? && job.Verdict(c) == Denied(reason) then 1 else 0
  }

  /** Per reason, execution reports exactly the denials its schema check did not anticipate. */
  lemma DenialCountsDiffer(job: Job, reason: DenialReason)
    requires SubsumesSchema(job)
    ensures forall c :: c in Coords(job.batch.intents) ==> job.Has(c)
    ensures Total(DecisionRulings(Policy.BatchDecisions(job.Rules(), job.batch.intents)), HasReason(reason)) ==
            Total(RecordRulings(Records(job, Coords(job.batch.intents))), HasReason(reason)) +
            Anticipated(job, Coords(job.batch.intents), reason)
  {
    hide Policy.Verdict, SchemaError, Policy.TargetsOf, Policy.BatchDecisions, Records, RecordRuling, Total, Anticipated;
    RulingsAgree(job);
    DecisionsFollowCoords(job.Rules(), job.batch.intents);
    DenialsBySchema(job, Coords(job.batch.intents),
                    DecisionRulings(Policy.BatchDecisions(job.Rules(), job.batch.intents)),
                    RecordRulings(Records(job, Coords(job.batch.intents))), reason);
  }

  lemma {:induction false} DenialsBySchema(job: Job, coords: seq<Coord>, decided: seq<Ruling>, executed: seq<Ruling>, reason: DenialReason)
    requires forall c :: c in coords ==> job.Has(c)
    requires |decided| == |executed| == |coords|
    requires forall k :: 0 <= k < |coords| ==>
               && decided[k].denial == (if job.Verdict(coords[k]).Denied? then Some(job.Verdict(coords[k]).reason) else None)
               && executed[k].denial == if job.SchemaFault(coords[k]).Some? then None else decided[k].denial
    ensures Total(decided, HasReason(reason)) == Total(executed, HasReason(reason)) + Anticipated(job, coords, reason)
  {
    hide Policy.Verdict, SchemaError, Policy.TargetsOf;
    if coords != [] {
      var n := |coords| - 1;
      DenialsBySchema(job, coords[..n], decided[..n], executed[..n], reason);
    }
  }

  /* ----- Whole replays ----- */

  function ApprovedIn(jobs: seq<Job>): nat {
    if jobs == [] then 0
    else ApprovedIn(jobs[..|jobs| - 1]) + ApprovedIntents(DecidedFor(jobs[|jobs| - 1]), |jobs[|jobs| - 1].batch.intents|)
  }

  function IntentsIn(jobs: seq<Job>): nat {
    if jobs == [] then 0 else IntentsIn(jobs[..|jobs| - 1]) + |jobs[|jobs| - 1].batch.intents|
  }

  function AuthorizedIn(jobs: seq<Job>): nat {
    if jobs == [] then 0 else AuthorizedIn(jobs[..|jobs| - 1]) + Total(DecidedFor(jobs[|jobs| - 1]), IS_AUTHORIZED)
  }

  function ActionsIn(jobs: seq<Job>): nat {
    if jobs == [] then 0 else ActionsIn(jobs[..|jobs| - 1]) + |DecidedFor(jobs[|jobs| - 1])|
  }

  function DecidedFor(job: Job): seq<Ruling> {
    DecisionRulings(Policy.BatchDecisions(job.Rules(), job.batch.intents))
  }

  /** The authorization counters of a replay are those of the policy alone, whether or not the
      approved actions were executed and however the adapter answered. */
  method ReplayAll(jobs: seq<Job>, stage: Stage) returns (s: Summary)
    requires stage.Includes(PolicyOnly)
    requires forall j :: 0 <= j < |jobs| ==> jobs[j].capability == CapabilityForRoute(jobs[j].route)
    ensures s.windowsClosed == |jobs|
    ensures s.intentsTotal == IntentsIn(jobs)
    ensures s.intentsApproved == ApprovedIn(jobs)
    ensures s.intentsApproved + s.intentsRejected == IntentsIn(jobs)
    ensures s.actionsAuthorized == AuthorizedIn(jobs)
    ensures s.actionsAuthorized + s.actionsDenied == ActionsIn(jobs)
  {
    hide Total, ApprovedIntents, DecisionRulings, Policy.BatchDecisions;
    s := Summary(0, 0, 0, 0, 0, 0, 0, 0, map[]);
    for j := 0 to |jobs|
      invariant s.windowsClosed == j
      invariant s.intentsTotal == IntentsIn(jobs[..j])
      invariant s.intentsApproved == ApprovedIn(jobs[..j])
      invariant s.intentsApproved + s.intentsRejected == IntentsIn(jobs[..j])
      invariant s.actionsAuthorized == AuthorizedIn(jobs[..j])
      invariant s.actionsAuthorized + s.actionsDenied == ActionsIn(jobs[..j])
    {
      assert jobs[..j + 1][..j] == jobs[..j];
      s := ProcessWindow(jobs[j], stage, s);
    }
    assert jobs[..|jobs|] == jobs;
  }
}
