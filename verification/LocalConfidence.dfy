/** Which windows push a proposal of the local evaluator below the policy's confidence floor. */
module LocalConfidence {
  import opened Spec
  import opened LocalScore
  import opened LocalBackend
  import CandidateKeys

  const FLOOR := 0.3

  predicate SavingPower(signals: Signals) {
    signals.lowBattery && !signals.charging
  }

  /** What the window takes off a proposal. */
  function Penalty(signals: Signals, userVisible: bool): real {
    (if SavingPower(signals) then 0.18 else 0.0) + (if signals.cellular then 0.06 else 0.0) +
    (if signals.offline then 0.20 else 0.0) + (if signals.screenNoninteractive && userVisible then 0.12 else 0.0)
  }

  /** What boosts without a group amount to, and what grouped ones amount to under their caps. */
  function Gained(boosts: seq<Boost>): real {
    PlainSum(boosts) + MinOf(Cap(Package), Asked(boosts, Package)) + MinOf(Cap(Behavior), Asked(boosts, Behavior)) +
    MinOf(Cap(Correlation), Asked(boosts, Correlation))
  }

  predicate GroupedOnly(boosts: seq<Boost>) {
    forall i :: 0 <= i < |boosts| ==> boosts[i].Grouped? && boosts[i].delta >= 0.0
  }

  lemma {:induction false} PlainBoosts(s: ScoreState, boosts: seq<Boost>)
    requires forall i :: 0 <= i < |boosts| ==> boosts[i].Plain?
    ensures BoostedAll(s, boosts).value == s.value + PlainSum(boosts)
  {
    if boosts != [] {
      PlainBoosts(s, boosts[..|boosts| - 1]);
    }
  }

  lemma OneMorePlain(boosts: seq<Boost>, delta: real, tag: string)
    ensures PlainSum(boosts + [Plain(delta, tag)]) == PlainSum(boosts) + delta
  {
    assert (boosts + [Plain(delta, tag)])[..|boosts|] == boosts;
  }

  lemma PenaltySum(signals: Signals, userVisible: bool)
    ensures forall i :: 0 <= i < |WindowPenalties(signals, userVisible)| ==> WindowPenalties(signals, userVisible)[i].Plain?
    ensures PlainSum(WindowPenalties(signals, userVisible)) == -Penalty(signals, userVisible)
  {
    hide PlainSum;
    var a := if SavingPower(signals) then [Plain(-0.18, "local:penalty:low_battery")] else [];
    var b := if signals.cellular then [Plain(-0.06, "local:penalty:cellular_network")] else [];
    var c := if signals.offline then [Plain(-0.20, "local:penalty:offline")] else [];
    var d := if signals.screenNoninteractive && userVisible then [Plain(-0.12, "local:penalty:screen_noninteractive")] else [];
    NoPlain();
    OneMorePlain([], -0.18, "local:penalty:low_battery");
    OneMorePlain(a, -0.06, "local:penalty:cellular_network");
    OneMorePlain(a + b, -0.20, "local:penalty:offline");
    OneMorePlain(a + b + c, -0.12, "local:penalty:screen_noninteractive");
    assert a + [] == a && a + b + [] == a + b && a + b + c + [] == a + b + c;
    assert [] + [Plain(-0.18, "local:penalty:low_battery")] == [Plain(-0.18, "local:penalty:low_battery")];
    assert WindowPenalties(signals, userVisible) == a + b + c + d;
  }

  lemma NoPlain()
    ensures PlainSum([]) == 0.0
  {
  }

  /** Without feedback a confidence is the base, what the boosts gain and what the window takes, clamped. */
  lemma ConfidenceWithoutFeedback(base: real, boosts: seq<Boost>, signals: Signals, userVisible: bool)
    requires forall i :: 0 <= i < |boosts| && boosts[i].Grouped? ==> boosts[i].delta >= 0.0
    ensures Appraised(base, boosts, signals, userVisible, []).value ==
            MaxOf(0.0, MinOf(base + Gained(boosts) - Penalty(signals, userVisible), 0.99))
  {
    hide WindowPenalties, PlainSum, Asked, Boosted, Penalty;
    GroupsAddUpToTheirCap(base, boosts);
    PenaltySum(signals, userVisible);
    PlainBoosts(BoostedAll(Start(base), boosts), WindowPenalties(signals, userVisible));
  }

  /* ----- Boosts of an event ----- */

  /** What an event's own boosts amount to. */
  function OwnGain(event: SanitizedEvent, signals: Signals): real {
    match event.eventType
    case FileActivity(_, _, hot) => if hot then 0.06 else 0.0
    case Notification(p, hints, _) =>
      (if p in signals.foregroundApps then 0.08 else 0.0) + (if LinkAttachment in hints then 0.03 else 0.0)
    case AppTransitionEvent(_, _) => 0.04
    case _ => 0.0
  }

  lemma OwnBoostsGain(event: SanitizedEvent, signals: Signals)
    ensures forall i :: 0 <= i < |OwnBoosts(event, signals)| ==> OwnBoosts(event, signals)[i].Plain?
    ensures PlainSum(OwnBoosts(event, signals)) == OwnGain(event, signals)
  {
    hide PlainSum;
    NoPlain();
    match event.eventType {
      case FileActivity(_, _, _) => OneMorePlain([], 0.06, "local:boost:hot_file");
      case Notification(p, hints, _) =>
        var a := if p in signals.foregroundApps then [Plain(0.08, "local:boost:foreground_notification_app")] else [];
        OneMorePlain([], 0.08, "local:boost:foreground_notification_app");
        OneMorePlain(a, 0.03, "local:boost:link_attachment");
        assert a + [] == a;
        assert [] + [Plain(0.08, "local:boost:foreground_notification_app")] == [Plain(0.08, "local:boost:foreground_notification_app")];
      case AppTransitionEvent(_, _) => OneMorePlain([], 0.04, "local:boost:foreground");
      case _ =>
    }
    assert [] + [Plain(0.06, "local:boost:hot_file")] == [Plain(0.06, "local:boost:hot_file")];
    assert [] + [Plain(0.04, "local:boost:foreground")] == [Plain(0.04, "local:boost:foreground")];
  }

  lemma {:induction false} GainsAddUp(own: seq<Boost>, grouped: seq<Boost>)
    requires (forall i :: 0 <= i < |own| ==> own[i].Plain?) && GroupedOnly(grouped)
    ensures PlainSum(own + grouped) == PlainSum(own)
    ensures forall g :: Asked(own + grouped, g) == Asked(grouped, g) >= 0.0
  {
    if grouped == [] {
      assert own + grouped == own;
      NothingAsked(own);
    } else {
      var all := own + grouped;
      GainsAddUp(own, grouped[..|grouped| - 1]);
      assert all[..|all| - 1] == own + grouped[..|grouped| - 1];
      assert all[|all| - 1] == grouped[|grouped| - 1];
    }
  }

  lemma {:induction false} NothingAsked(own: seq<Boost>)
    requires forall i :: 0 <= i < |own| ==> own[i].Plain?
    ensures forall g :: Asked(own, g) == 0.0
    ensures forall g :: Asked([], g) == 0.0
  {
    if own != [] {
      NothingAsked(own[..|own| - 1]);
    }
  }

  /** What the groups add at most, whatever is asked for. */
  function GroupGain(grouped: seq<Boost>): real {
    MinOf(Cap(Package), Asked(grouped, Package)) + MinOf(Cap(Behavior), Asked(grouped, Behavior)) +
    MinOf(Cap(Correlation), Asked(grouped, Correlation))
  }

  /** The confidence of a proposal that no feedback lowers, in full. */
  lemma ProposalConfidence(event: SanitizedEvent, draft: Draft, grouped: seq<Boost>, signals: Signals)
    requires GroupedOnly(grouped)
    ensures GroupGain(grouped) >= 0.0
    ensures CandidateFor(event, draft, Appraisal(grouped, []), signals).confidence ==
            MaxOf(0.0, MinOf(BaseConfidence(event) + OwnGain(event, signals) + GroupGain(grouped)
                             - Penalty(signals, draft.userVisible), 0.99))
  {
    hide Asked, PlainSum, OwnBoosts, OwnGain, Penalty, BaseConfidence, Appraised;
    var own := OwnBoosts(event, signals);
    OwnBoostsGain(event, signals);
    GainsAddUp(own, grouped);
    assert forall i :: 0 <= i < |own + grouped| && (own + grouped)[i].Grouped? ==> (own + grouped)[i].delta >= 0.0;
    ConfidenceWithoutFeedback(BaseConfidence(event), own + grouped, signals, draft.userVisible);
  }

  /** The windows and events that sink a proposal which groups do not lift: a switch under all four strains at
      once; an ongoing notification's app that is not in front, saving power and offline, and on a cellular
      network too if the notification has a link. */
  predicate Sinks(event: SanitizedEvent, signals: Signals) {
    match event.eventType
    case AppTransitionEvent(_, _) =>
      SavingPower(signals) && signals.cellular && signals.offline && signals.screenNoninteractive
    case Notification(p, hints, ongoing) =>
      && ongoing && p !in signals.foregroundApps && SavingPower(signals) && signals.offline
      && (LinkAttachment in hints ==> signals.cellular)
    case _ => false
  }

  predicate Survives(event: SanitizedEvent, draft: Draft, appraisal: Appraisal, signals: Signals) {
    Suppressed(CandidateFor(event, draft, appraisal, signals), signals).actions != []
  }

  /** What surviving the backend's own filter says of the window. */
  lemma SurvivorSignals(event: SanitizedEvent, env: Environment, appraisal: Appraisal, signals: Signals)
    requires DraftFor(event, env).Some? && Survives(event, DraftFor(event, env).value, appraisal, signals)
    ensures event.eventType.FileActivity? ==> !SavingPower(signals) && !signals.offline
    ensures event.eventType.Notification? ==> !signals.screenNoninteractive
  {
    hide Appraised, BaseConfidence, OwnBoosts, LooksLikePackageName;
    var draft := DraftFor(event, env).value;
    if event.eventType.FileActivity? || event.eventType.Notification? {
      var action := draft.actions[0];
      assert draft.actions == [action];
      CandidateKeys.KeepOne(action, signals);
      assert IsPolicyAware(action, signals);
    }
  }

  /** Among proposals that no feedback lowers and no group lifts, exactly those that sink have a confidence
      below the policy's floor; boosts in groups can only save them. */
  lemma BelowTheFloorExactly(event: SanitizedEvent, env: Environment, grouped: seq<Boost>, signals: Signals)
    requires GroupedOnly(grouped) && DraftFor(event, env).Some?
    requires Survives(event, DraftFor(event, env).value, Appraisal(grouped, []), signals)
    ensures var c := CandidateFor(event, DraftFor(event, env).value, Appraisal(grouped, []), signals);
            && (c.confidence < FLOOR ==> Sinks(event, signals))
            && (grouped == [] ==> (c.confidence < FLOOR <==> Sinks(event, signals)))
  {
    hide GroupGain, CandidateFor, Suppressed, Survives;
    ProposalConfidence(event, DraftFor(event, env).value, grouped, signals);
    SurvivorSignals(event, env, Appraisal(grouped, []), signals);
    NothingGained();
  }

  lemma NothingGained()
    ensures GroupGain([]) == 0.0
  {
  }
}
