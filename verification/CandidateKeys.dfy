/** What the keys of the local evaluator's proposals tell apart: keys are joined texts, and a package name may
    hold the separator. */
module CandidateKeys {
  import opened Wrappers
  import opened Spec
  import opened Context
  import opened Policy
  import opened LocalScore
  import opened LocalBackend

  /* ----- What keys tell apart ----- */

  function NameIn(t: IntentType): string {
    match t
    case OpenApp(p) => p
    case SwitchToApp(p) => p
    case CheckNotification(p) => p
    case EnterContext(name) => name
    case _ => ""
  }

  lemma IntentKeyIsUnique(a: IntentType, b: IntentType)
    requires IntentKey(a) == IntentKey(b)
    ensures a == b
  {
    assert IntentKey(a)[0] == IntentKey(b)[0];
    match a {
      case OpenApp(p) => assert p == IntentKey(a)[5..];
      case SwitchToApp(p) => assert p == IntentKey(a)[7..];
      case CheckNotification(p) => assert p == IntentKey(a)[7..];
      case EnterContext(p) => assert p == IntentKey(a)[8..];
      case HandleFile(c) =>
        assert ExtensionKey(c) == IntentKey(a)[5..];
        ExtensionKeyIsUnique(c, b.extension);
      case Idle =>
    }
    assert b.OpenApp? ==> NameIn(b) == IntentKey(b)[5..];
    assert b.SwitchToApp? || b.CheckNotification? ==> NameIn(b) == IntentKey(b)[7..];
    assert b.EnterContext? ==> NameIn(b) == IntentKey(b)[8..];
  }

  lemma ExtensionKeyIsUnique(a: ExtensionCategory, b: ExtensionCategory)
    requires "file:" + ExtensionKey(a) == "file:" + ExtensionKey(b)
    ensures a == b
  {
    var x, y := ExtensionKey(a), ExtensionKey(b);
    assert x == ("file:" + x)[5..] && y == ("file:" + y)[5..];
    assert x[0] == y[0] && x[1] == y[1];
  }

  lemma KeyHasNoBar(t: IntentType)
    requires '|' !in NameIn(t)
    ensures '|' !in IntentKey(t)
  {
    match t {
      case HandleFile(c) => assert '|' !in ExtensionKey(c);
      case _ =>
    }
  }

  lemma {:induction false} ActionKeysStartWithBar(actions: seq<SuggestedAction>)
    ensures ActionKeys(actions) == "" || ActionKeys(actions)[0] == '|'
  {
    if actions != [] {
      ActionKeysStartWithBar(actions[..|actions| - 1]);
    }
  }

  /** As long as names hold no separator, proposals with the same key are for the same intent and their
      actions read the same. */
  lemma SameKeySameIntent(a: Candidate, b: Candidate)
    requires '|' !in NameIn(a.intentType) && '|' !in NameIn(b.intentType)
    requires CandidateKey(a) == CandidateKey(b)
    ensures a.intentType == b.intentType && ActionKeys(a.actions) == ActionKeys(b.actions)
  {
    hide IntentKey, ActionKeys, NameIn;
    var x, y := IntentKey(a.intentType), IntentKey(b.intentType);
    KeyHasNoBar(a.intentType);
    KeyHasNoBar(b.intentType);
    ActionKeysStartWithBar(a.actions);
    ActionKeysStartWithBar(b.actions);
    SameHead(x, ActionKeys(a.actions), y, ActionKeys(b.actions));
    IntentKeyIsUnique(a.intentType, b.intentType);
  }

  lemma SameHead(x: string, p: string, y: string, q: string)
    requires x + p == y + q && '|' !in x && '|' !in y
    requires (p == "" || p[0] == '|') && (q == "" || q[0] == '|')
    ensures x == y && p == q
  {
    var t := x + p;
    assert forall i :: 0 <= i < |x| ==> t[i] == x[i] && x[i] in x;
    assert forall i :: 0 <= i < |y| ==> t[i] == y[i] && y[i] in y;
    assert p != "" ==> t[|x|] == '|';
    assert q != "" ==> t[|y|] == '|';
    assert |x| == |y|;
    assert x == t[..|x|] && y == t[..|y|] && p == t[|x|..] && q == t[|y|..];
  }

  function OneActionKey(action: SuggestedAction): string
    requires action.target.Some?
  {
    "|" + ActionName(action.actionType) + ":" + action.target.value
  }

  lemma WarmKey(p: string)
    ensures p + "|PreWarmProcess:pkg:" + p ==
            p + OneActionKey(SuggestedAction(PreWarmProcess, Some("pkg:" + p), Immediate))
  {
    assert "|PreWarmProcess:pkg:" == "|" + "PreWarmProcess" + ":" + "pkg:";
  }

  lemma KeyOfActions(first: SuggestedAction, second: SuggestedAction)
    requires first.target.Some? && second.target.Some?
    ensures ActionKeys([second]) == OneActionKey(second)
    ensures ActionKeys([first, second]) == OneActionKey(first) + OneActionKey(second)
  {
    hide OneActionKey, ActionKeys;
    OneMoreActionKey([], second);
    OneMoreActionKey([], first);
    OneMoreActionKey([first], second);
    assert [] + [second] == [second] && [] + [first] == [first] && [first] + [second] == [first, second];
  }

  lemma OneMoreActionKey(init: seq<SuggestedAction>, last: SuggestedAction)
    requires last.target.Some?
    ensures ActionKeys(init + [last]) == ActionKeys(init) + OneActionKey(last)
    ensures ActionKeys([]) == ""
  {
    assert (init + [last])[..|init|] == init;
  }

  /* ----- The proposals of a window ----- */

  const HEARTBEAT := SuggestedAction(KeepAlive, Some("work:collector_heartbeat"), Immediate)

  const OWN_RESOURCES := SuggestedAction(PreWarmProcess, Some("own:resources"), Immediate)

  function Prewarm(p: string): SuggestedAction {
    SuggestedAction(PreWarmProcess, Some("pkg:" + p), Immediate)
  }

  /** The actions a surviving proposal has left, going by its intent. */
  predicate Shaped(c: Candidate, signals: Signals) {
    match c.intentType
    case OpenApp(p) => LooksLikePackageName(p) && c.actions == [Prewarm(p)]
    case SwitchToApp(p) =>
      c.actions == if LooksLikePackageName(p) && !signals.screenNoninteractive then [Prewarm(p), HEARTBEAT] else [HEARTBEAT]
    case CheckNotification(_) => false
    case HandleFile(_) =>
      && |c.actions| == 1 && c.actions[0].target.Some?
      && c.actions[0] == SuggestedAction(PrefetchFile, c.actions[0].target, IdleTime)
    case EnterContext(name) => name == "inter_app_interaction" && c.actions == [OWN_RESOURCES]
    case Idle => c.actions == [RELEASE_PREFETCH]
  }

  lemma KeepOne(action: SuggestedAction, signals: Signals)
    ensures KeepAware([action], signals) == if IsPolicyAware(action, signals) then [action] else []
  {
    hide IsPolicyAware;
    assert [action][..0] == [];
  }

  lemma KeepTwo(first: SuggestedAction, second: SuggestedAction, signals: Signals)
    ensures KeepAware([first, second], signals) == KeepAware([first], signals) + KeepAware([second], signals)
  {
    hide IsPolicyAware;
    KeepOne(second, signals);
    assert [first, second][..1] == [first];
  }

  lemma PrewarmIsAware(p: string, signals: Signals)
    ensures IsPolicyAware(Prewarm(p), signals) <==> LooksLikePackageName(p) && !signals.screenNoninteractive
    ensures IsPolicyAware(HEARTBEAT, signals)
  {
    hide LooksLikePackageName;
    var target := "pkg:" + p;
    assert target[4..] == p && target[0] == 'p';
  }

  lemma DraftIsShaped(event: SanitizedEvent, env: Environment, appraisal: Appraisal, signals: Signals)
    requires DraftFor(event, env).Some?
    requires Suppressed(CandidateFor(event, DraftFor(event, env).value, appraisal, signals), signals).actions != []
    ensures Shaped(Suppressed(CandidateFor(event, DraftFor(event, env).value, appraisal, signals), signals), signals)
  {
    hide KeepAware, IsPolicyAware, Appraised, BaseConfidence, LooksLikePackageName;
    var draft := DraftFor(event, env).value;
    KeepOne(draft.actions[0], signals);
    if |draft.actions| == 2 {
      KeepTwo(draft.actions[0], draft.actions[1], signals);
      KeepOne(draft.actions[1], signals);
    }
    match event.eventType {
      case AppTransitionEvent(p, _) => PrewarmIsAware(p, signals);
      case Notification(p, _, _) => PrewarmIsAware(p, signals);
      case _ =>
    }
  }

  lemma {:induction false} SurvivingConcat(a: seq<Candidate>, c: Candidate, signals: Signals)
    ensures Surviving(a + [c], signals) ==
            Surviving(a, signals) + if Suppressed(c, signals).actions == [] then [] else [Suppressed(c, signals)]
  {
    hide Suppressed;
    assert (a + [c])[..|a|] == a;
  }

  ghost predicate AllShaped(candidates: seq<Candidate>, signals: Signals) {
    forall i :: 0 <= i < |candidates| ==> Shaped(candidates[i], signals)
  }

  lemma {:induction false} EventProposalsAreShaped(events: seq<SanitizedEvent>, env: Environment, signals: Signals)
    ensures AllShaped(Surviving(EventCandidates(events, env, signals), signals), signals)
  {
    hide Shaped, Suppressed, DraftFor, CandidateFor, Surviving;
    if events == [] {
      NothingSurvives(signals);
    } else {
      var last := |events| - 1;
      var earlier := EventCandidates(events[..last], env, signals);
      var draft := DraftFor(events[last], env);
      EventProposalsAreShaped(events[..last], env, signals);
      if draft.Some? {
        var c := CandidateFor(events[last], draft.value, env.appraise(last), signals);
        SurvivingConcat(earlier, c, signals);
        if Suppressed(c, signals).actions != [] {
          DraftIsShaped(events[last], env, env.appraise(last), signals);
        }
      } else {
        assert earlier + [] == earlier;
      }
    }
  }

  lemma NothingSurvives(signals: Signals)
    ensures Surviving([], signals) == []
  {
  }

  lemma ProposalsAreShaped(ctx: StructuredContext, env: Environment)
    ensures AllShaped(Surviving(Proposals(ctx, env), SignalsOf(ctx)), SignalsOf(ctx))
  {
    hide SignalsOf, EventCandidates, Surviving, KeepAware, BoostedAll;
    var signals := SignalsOf(ctx);
    var earlier := EventCandidates(ctx.events, env, signals);
    EventProposalsAreShaped(ctx.events, env, signals);
    SurvivingConcat(earlier, LowBatteryCandidate(env), signals);
    KeepOne(RELEASE_PREFETCH, signals);
    assert earlier + [] == earlier;
  }

  /* ----- When two of them share a key ----- */

  predicate SameWork(a: Candidate, b: Candidate) {
    a.intentType == b.intentType && a.actions == b.actions
  }

  /** The name that makes a proposal without a prewarm read like the one for `p` with it. */
  function Mimic(p: string): string {
    p + "|PreWarmProcess:pkg:" + p
  }

  predicate ReadsLike(a: Candidate, b: Candidate) {
    && a.intentType.SwitchToApp? && b.intentType == SwitchToApp(Mimic(a.intentType.app))
    && a.actions == [Prewarm(a.intentType.app), HEARTBEAT] && b.actions == [HEARTBEAT]
  }

  /** With the separator in a package name, two different proposals share a key: the one for `p`, and the one
      for a package so named that its intent reads like the first one's first action. */
  lemma KeysMayCollide(a: Candidate, b: Candidate)
    requires ReadsLike(a, b)
    ensures CandidateKey(a) == CandidateKey(b)
  {
    hide ActionKeys;
    var p := a.intentType.app;
    KeyOfActions(Prewarm(p), HEARTBEAT);
    var warm, beat := OneActionKey(Prewarm(p)), OneActionKey(HEARTBEAT);
    WarmKey(p);
    assert "switch:" + p + (warm + beat) == "switch:" + (p + warm) + beat;
  }

  lemma PackageNameHasNoBar(p: string)
    requires LooksLikePackageName(p)
    ensures '|' !in p
  {
  }

  lemma SameIntentKind(a: Candidate, b: Candidate, signals: Signals)
    requires Shaped(a, signals) && Shaped(b, signals) && CandidateKey(a) == CandidateKey(b)
    ensures a.intentType.SwitchToApp? <==> b.intentType.SwitchToApp?
  {
    hide ActionKeys, Shaped;
    assert CandidateKey(a)[0] == IntentKey(a.intentType)[0];
    assert CandidateKey(b)[0] == IntentKey(b.intentType)[0];
  }

  lemma SameFileTarget(x: string, y: string)
    requires OneActionKey(SuggestedAction(PrefetchFile, Some(x), IdleTime)) ==
             OneActionKey(SuggestedAction(PrefetchFile, Some(y), IdleTime))
    ensures x == y
  {
    var head := "|" + "PrefetchFile" + ":";
    assert (head + x)[|head|..] == x && (head + y)[|head|..] == y;
  }

  lemma OtherKeysTellApart(a: Candidate, b: Candidate, signals: Signals)
    requires Shaped(a, signals) && Shaped(b, signals) && CandidateKey(a) == CandidateKey(b)
    requires !a.intentType.SwitchToApp? && !b.intentType.SwitchToApp?
    ensures SameWork(a, b)
  {
    hide CandidateKey, IntentKey, ActionKeys, LooksLikePackageName, OneActionKey;
    if a.intentType.OpenApp? {
      PackageNameHasNoBar(a.intentType.app);
    }
    if b.intentType.OpenApp? {
      PackageNameHasNoBar(b.intentType.app);
    }
    SameKeySameIntent(a, b);
    if a.intentType.HandleFile? {
      SameFileAction(a.actions, b.actions);
    }
  }

  lemma SameFileAction(a: seq<SuggestedAction>, b: seq<SuggestedAction>)
    requires |a| == 1 && a[0].target.Some? && a[0] == SuggestedAction(PrefetchFile, a[0].target, IdleTime)
    requires |b| == 1 && b[0].target.Some? && b[0] == SuggestedAction(PrefetchFile, b[0].target, IdleTime)
    requires ActionKeys(a) == ActionKeys(b)
    ensures a == b
  {
    hide ActionKeys, OneActionKey;
    KeyOfActions(a[0], a[0]);
    KeyOfActions(b[0], b[0]);
    assert a == [a[0]] && b == [b[0]];
    SameFileTarget(a[0].target.value, b[0].target.value);
  }

  lemma SameSuffix(x: string, y: string, suffix: string)
    requires x + suffix == y + suffix
    ensures x == y
  {
    assert |x| == |y|;
    assert x == (x + suffix)[..|x|] && y == (y + suffix)[..|y|];
  }

  /** The key of a surviving switch: its name, the prewarm if it is left, and the heartbeat. */
  lemma SwitchKey(c: Candidate, signals: Signals)
    requires Shaped(c, signals) && c.intentType.SwitchToApp?
    ensures CandidateKey(c) ==
            "switch:" + (if |c.actions| == 2 then Mimic(c.intentType.app) else c.intentType.app) + OneActionKey(HEARTBEAT)
  {
    hide ActionKeys;
    var p := c.intentType.app;
    KeyOfActions(Prewarm(p), HEARTBEAT);
    WarmKey(p);
    var warm, beat := OneActionKey(Prewarm(p)), OneActionKey(HEARTBEAT);
    assert "switch:" + p + (warm + beat) == "switch:" + (p + warm) + beat;
  }

  lemma MimicIsUnique(p: string, q: string)
    requires Mimic(p) == Mimic(q) && LooksLikePackageName(p) && LooksLikePackageName(q)
    ensures p == q
  {
    hide LooksLikePackageName;
    PackageNameHasNoBar(p);
    PackageNameHasNoBar(q);
    var tail := "|PreWarmProcess:pkg:";
    assert p + tail + p == p + (tail + p) && q + tail + q == q + (tail + q);
    SameHead(p, tail + p, q, tail + q);
  }

  lemma SwitchKeysTellApart(a: Candidate, b: Candidate, signals: Signals)
    requires Shaped(a, signals) && Shaped(b, signals) && CandidateKey(a) == CandidateKey(b)
    requires a.intentType.SwitchToApp? && b.intentType.SwitchToApp?
    ensures SameWork(a, b) || ReadsLike(a, b) || ReadsLike(b, a)
  {
    hide CandidateKey, LooksLikePackageName, OneActionKey, Mimic;
    var p, q := a.intentType.app, b.intentType.app;
    var x, y := if |a.actions| == 2 then Mimic(p) else p, if |b.actions| == 2 then Mimic(q) else q;
    SwitchKey(a, signals);
    SwitchKey(b, signals);
    SameSuffix("switch:" + x, "switch:" + y, OneActionKey(HEARTBEAT));
    assert x == ("switch:" + x)[7..] && y == ("switch:" + y)[7..];
    if |a.actions| == 2 && |b.actions| == 2 {
      MimicIsUnique(p, q);
    }
  }

  /** Exactly when two surviving proposals of a window count as duplicates: they do the same work, or one is
      for a package `p` whose prewarm was kept, and the other for the package `p|PreWarmProcess:pkg:p`. */
  lemma KeysAreExact(ctx: StructuredContext, env: Environment, i: nat, j: nat)
    requires i < |Surviving(Proposals(ctx, env), SignalsOf(ctx))| && j < |Surviving(Proposals(ctx, env), SignalsOf(ctx))|
    ensures var a, b := Surviving(Proposals(ctx, env), SignalsOf(ctx))[i], Surviving(Proposals(ctx, env), SignalsOf(ctx))[j];
            CandidateKey(a) == CandidateKey(b) <==> SameWork(a, b) || ReadsLike(a, b) || ReadsLike(b, a)
  {
    hide Surviving, Proposals, SignalsOf, ReadsLike, Shaped;
    var a, b := Surviving(Proposals(ctx, env), SignalsOf(ctx))[i], Surviving(Proposals(ctx, env), SignalsOf(ctx))[j];
    ProposalsAreShaped(ctx, env);
    if ReadsLike(a, b) {
      KeysMayCollide(a, b);
    } else if ReadsLike(b, a) {
      KeysMayCollide(b, a);
    } else if CandidateKey(a) == CandidateKey(b) {
      SameIntentKind(a, b, SignalsOf(ctx));
      if a.intentType.SwitchToApp? {
        SwitchKeysTellApart(a, b, SignalsOf(ctx));
      } else {
        OtherKeysTellApart(a, b, SignalsOf(ctx));
      }
    }
  }

  /* ----- A window in which it happens ----- */

  function ForegroundEvent(t: int, p: string): SanitizedEvent {
    SanitizedEvent(t, AppTransitionEvent(p, Foreground), PublicApi, None)
  }

  /** The package `p` and its mimic come to the foreground in one window. */
  function MimicWindow(t: int, p: string): StructuredContext {
    var events := [ForegroundEvent(t, p), ForegroundEvent(t, Mimic(p))];
    StructuredContext(t, t, 0, events, SummaryOf(events))
  }

  lemma MimicIsNoPackageName(p: string)
    ensures !LooksLikePackageName(Mimic(p))
  {
    assert Mimic(p)[|p|] == '|';
  }

  lemma MimicSignals(t: int, p: string)
    ensures SignalsOf(MimicWindow(t, p)) ==
            Signals(MimicWindow(t, p).summary.foregroundApps, false, false, false, false, false)
  {
    var events := MimicWindow(t, p).events;
    var first := [ForegroundEvent(t, p)];
    assert events[..1] == first && first[..0] == [];
    LatestStatusIsLatest(events);
    var summary := MimicWindow(t, p).summary;
    assert SignalsAfter(summary, first) == SummarySignals(summary);
  }

  lemma MimicSurvivors(t: int, p: string, env: Environment)
    requires LooksLikePackageName(p)
    ensures var s := Surviving(Proposals(MimicWindow(t, p), env), SignalsOf(MimicWindow(t, p)));
            |s| == 2 && ReadsLike(s[0], s[1]) && s[0].intentType == SwitchToApp(p)
  {
    hide KeepAware, IsPolicyAware, Appraised, LooksLikePackageName, SummaryOf, SignalsOf, Surviving, Mimic;
    var ctx := MimicWindow(t, p);
    var signals := SignalsOf(ctx);
    MimicSignals(t, p);
    MimicIsNoPackageName(p);
    var e, f := ctx.events[0], ctx.events[1];
    assert ctx.events[..1] == [e] && [e][..0] == [];
    var a := CandidateFor(e, DraftFor(e, env).value, env.appraise(0), signals);
    var b := CandidateFor(f, DraftFor(f, env).value, env.appraise(1), signals);
    assert EventCandidates([e], env, signals) == [] + [a];
    assert EventCandidates(ctx.events, env, signals) == [a] + [b];
    assert Proposals(ctx, env) == [a] + [b];
    NothingSurvives(signals);
    assert [] + [a] == [a];
    SurvivingConcat([], a, signals);
    SurvivingConcat([a], b, signals);
    SwitchSurvives(p, signals);
    SwitchSurvives(Mimic(p), signals);
    assert Surviving([a] + [b], signals) == [Suppressed(a, signals), Suppressed(b, signals)];
  }

  lemma SwitchSurvives(p: string, signals: Signals)
    requires !signals.screenNoninteractive
    ensures KeepAware([Prewarm(p), HEARTBEAT], signals) ==
            if LooksLikePackageName(p) then [Prewarm(p), HEARTBEAT] else [HEARTBEAT]
  {
    hide KeepAware, IsPolicyAware, LooksLikePackageName;
    KeepTwo(Prewarm(p), HEARTBEAT, signals);
    KeepOne(Prewarm(p), signals);
    KeepOne(HEARTBEAT, signals);
    PrewarmIsAware(p, signals);
  }

  /** Two apps came to the foreground, two different proposals survive, and only one intent is made. */
  lemma CollisionLosesAProposal(t: int, p: string, env: Environment)
    requires LooksLikePackageName(p)
    ensures var ctx := MimicWindow(t, p);
            var s := Surviving(Proposals(ctx, env), SignalsOf(ctx));
            && |s| == 2 && s[0].intentType == SwitchToApp(p) && s[1].intentType == SwitchToApp(Mimic(p)) != SwitchToApp(p)
            && |LocalIntents(ctx, env)| == 1
  {
    hide Surviving, Proposals, SignalsOf, Chosen, CandidateKey, LooksLikePackageName, HoldsBest;
    var ctx := MimicWindow(t, p);
    var s := Surviving(Proposals(ctx, env), SignalsOf(ctx));
    var chosen := Chosen(Proposals(ctx, env), SignalsOf(ctx), MAX_INTENTS_PER_WINDOW);
    MimicSurvivors(t, p, env);
    KeysMayCollide(s[0], s[1]);
    ChosenAreTheBest(Proposals(ctx, env), SignalsOf(ctx), MAX_INTENTS_PER_WINDOW);
    OneKeyOneChoice(s, chosen, CandidateKey(s[0]), MAX_INTENTS_PER_WINDOW);
    MimicIsNoPackageName(p);
  }

  lemma OneKeyOneChoice(surviving: seq<Candidate>, chosen: seq<Candidate>, key: string, maxIntents: nat)
    requires IsBestChoice(surviving, chosen, maxIntents) && maxIntents > 0 && surviving != []
    requires forall i :: 0 <= i < |surviving| ==> CandidateKey(surviving[i]) == key
    ensures |chosen| == 1
  {
    hide CandidateKey, CandidateLe;
    assert CandidateKey(surviving[0]) == key;
    assert forall i :: 0 <= i < |chosen| ==> HoldsBest(surviving, CandidateKey(chosen[i]), chosen[i]);
    assert Listed(chosen, key) ==> chosen != [];
    var last := |chosen| - 1;
    assert chosen != [] ==> CandidateKey(chosen[0]) == CandidateKey(chosen[last]) == key;
  }
}
