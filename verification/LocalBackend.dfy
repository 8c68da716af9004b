/** The local evaluator: proposals scored from a window, filtered, deduplicated and cut to the best. */
module LocalBackend {
  import opened Wrappers
  import opened Text
  import opened Sorting
  import opened Spec
  import opened Policy
  import opened Ensemble
  import opened Ranking
  import opened LocalScore

  const MAX_INTENTS_PER_WINDOW := 5

  datatype Candidate = Candidate(
    intentType: IntentType, confidence: real, actions: seq<SuggestedAction>, tags: seq<string>)

  /** What packages, behavior and correlation add to one proposal, and what feedback takes off it. */
  datatype Appraisal = Appraisal(boosts: seq<Boost>, feedback: seq<Boost>)

  /** Everything the backend draws from outside the window: appraisals from counts, profile and feedback,
      and the table of prefetch addresses. */
  datatype Environment = Environment(
    appraise: nat -> Appraisal,
    lowBatteryFeedback: seq<Boost>,
    url: (ExtensionCategory, Option<string>) -> string)
  {
    ghost predicate Valid() {
      forall c, p :: StartsWith(url(c, p), "https://")
    }
  }

  /* ----- Signals ----- */

  function Low(pct: Option<nat>): bool {
    pct.Some? && pct.value < 20
  }

  function StatusSignals(s: Signals, status: SystemStatus): Signals {
    s.(lowBattery := s.lowBattery || Low(status.batteryPct), charging := s.charging || status.isCharging,
       cellular := s.cellular || status.network == Cellular, offline := s.offline || status.network == Offline)
  }

  /** Signals accumulate: what one status of the window raises, no later one lowers. */
  function EventSignals(s: Signals, event: SanitizedEvent): Signals {
    match event.eventType
    case SystemStatusEvent(status) => StatusSignals(s, status)
    case Screen(state) => if state == Interactive then s else s.(screenNoninteractive := true)
    case _ => s
  }

  function SummarySignals(summary: ContextSummary): Signals {
    var none := Signals(summary.foregroundApps, false, false, false, false, false);
    if summary.latestSystemStatus.Some? then StatusSignals(none, summary.latestSystemStatus.value) else none
  }

  function SignalsAfter(summary: ContextSummary, events: seq<SanitizedEvent>): Signals {
    if events == [] then SummarySignals(summary)
    else EventSignals(SignalsAfter(summary, events[..|events| - 1]), events[|events| - 1])
  }

  function SignalsOf(ctx: StructuredContext): Signals {
    SignalsAfter(ctx.summary, ctx.events)
  }

  method CollectSignals(ctx: StructuredContext) returns (signals: Signals)
    ensures signals == SignalsOf(ctx)
  {
    hide EventSignals;
    signals := SummarySignals(ctx.summary);
    for i := 0 to |ctx.events|
      invariant signals == SignalsAfter(ctx.summary, ctx.events[..i])
    {
      assert ctx.events[..i + 1][..i] == ctx.events[..i];
      signals := EventSignals(signals, ctx.events[i]);
    }
    assert ctx.events[..|ctx.events|] == ctx.events;
  }

  /* ----- Proposals ----- */

  function ExtensionName(c: ExtensionCategory): string {
    match c
    case Document => "Document" case Image => "Image" case Video => "Video" case Audio => "Audio"
    case Archive => "Archive" case Code => "Code" case Other => "Other" case Unknown => "Unknown"
  }

  function ExtensionKey(c: ExtensionCategory): string {
    match c
    case Document => "document" case Image => "image" case Video => "video" case Audio => "audio"
    case Archive => "archive" case Code => "code" case Other => "other" case Unknown => "unknown"
  }

  predicate MentionsAttachment(hints: seq<SemanticHint>) {
    FileMention in hints || ImageMention in hints || LinkAttachment in hints
  }

  function BaseConfidence(event: SanitizedEvent): real {
    match event.eventType
    case FileActivity(_, _, hot) => if hot then 0.80 else 0.72
    case Notification(_, _, ongoing) => if ongoing then 0.66 else 0.74
    case AppTransitionEvent(_, _) => 0.78
    case _ => 0.80
  }

  /** The boosts an event earns by itself. */
  function OwnBoosts(event: SanitizedEvent, signals: Signals): seq<Boost> {
    match event.eventType
    case FileActivity(_, _, hot) => if hot then [Plain(0.06, "local:boost:hot_file")] else []
    case Notification(p, hints, _) =>
      (if p in signals.foregroundApps then [Plain(0.08, "local:boost:foreground_notification_app")] else []) +
      (if LinkAttachment in hints then [Plain(0.03, "local:boost:link_attachment")] else [])
    case AppTransitionEvent(_, _) => [Plain(0.04, "local:boost:foreground")]
    case _ => []
  }

  /** The intent and actions an event suggests, whether its proposal is for the user to see, and its tags. */
  datatype Draft = Draft(intentType: IntentType, actions: seq<SuggestedAction>, userVisible: bool, tags: seq<string>)

  function DraftFor(event: SanitizedEvent, env: Environment): Option<Draft> {
    match event.eventType
    case FileActivity(p, c, _) =>
      Some(Draft(HandleFile(c), [SuggestedAction(PrefetchFile, Some("url:" + env.url(c, p)), IdleTime)], false,
                 ["local:file_activity", "local:extension:" + ExtensionName(c)]))
    case Notification(p, hints, _) =>
      if !MentionsAttachment(hints) then None
      else Some(Draft(OpenApp(p), [SuggestedAction(PreWarmProcess, Some("pkg:" + p), Immediate)], true,
                      ["local:attachment_notification"]))
    case AppTransitionEvent(p, Foreground) =>
      Some(Draft(SwitchToApp(p),
                 [SuggestedAction(PreWarmProcess, Some("pkg:" + p), Immediate),
                  SuggestedAction(KeepAlive, Some("work:collector_heartbeat"), Immediate)], true,
                 ["local:foreground_transition"]))
    case InterAppInteraction(_, kind) =>
      if kind != ActivityLaunch && kind != ShareIntent then None
      else Some(Draft(EnterContext("inter_app_interaction"),
                      [SuggestedAction(PreWarmProcess, Some("own:resources"), Immediate)], false,
                      ["local:inter_app_interaction"]))
    case _ => None
  }

  function CandidateFor(event: SanitizedEvent, draft: Draft, appraisal: Appraisal, signals: Signals): Candidate {
    var boosts := OwnBoosts(event, signals) + appraisal.boosts;
    var score := Appraised(BaseConfidence(event), boosts, signals, draft.userVisible, appraisal.feedback);
    Candidate(draft.intentType, score.value, draft.actions, draft.tags + score.tags)
  }

  function EventCandidates(events: seq<SanitizedEvent>, env: Environment, signals: Signals): seq<Candidate> {
    if events == [] then []
    else
      var last := |events| - 1;
      var draft := DraftFor(events[last], env);
      EventCandidates(events[..last], env, signals) +
      if draft.None? then [] else [CandidateFor(events[last], draft.value, env.appraise(last), signals)]
  }

  const RELEASE_PREFETCH := SuggestedAction(ReleaseMemory, Some("cache:prefetch"), Immediate)

  function LowBatteryCandidate(env: Environment): Candidate {
    var score := BoostedAll(Start(0.84).(tags := ["local:signal:low_battery"]), env.lowBatteryFeedback);
    Candidate(Idle, score.value, [RELEASE_PREFETCH], ["local:low_battery"] + score.tags)
  }

  function Proposals(ctx: StructuredContext, env: Environment): seq<Candidate> {
    var signals := SignalsOf(ctx);
    EventCandidates(ctx.events, env, signals) +
    if signals.lowBattery && !signals.charging then [LowBatteryCandidate(env)] else []
  }

  /* ----- The backend's own filter ----- */

  predicate IsPackageChar(c: char) {
    'a' <= c <= 'z' || 'A' <= c <= 'Z' || '0' <= c <= '9' || c == '.' || c == '_' || c == '-'
  }

  predicate LooksLikePackageName(raw: string) {
    '.' in raw && forall i :: 0 <= i < |raw| ==> IsPackageChar(raw[i])
  }

  predicate IsSafePrewarmTarget(target: string, signals: Signals) {
    if signals.screenNoninteractive && (StartsWith(target, "pkg:") || StartsWith(target, "notif:")) then false
    else
      || StartsWith(target, "own:") || StartsWith(target, "notif:")
      || (StartsWith(target, "pkg:") && LooksLikePackageName(target[4..]))
  }

  predicate IsPolicyAware(action: SuggestedAction, signals: Signals) {
    match action.actionType
    case PrefetchFile =>
      && (!signals.lowBattery || signals.charging) && !signals.offline
      && action.target.Some?
      && (StartsWith(action.target.value, "url:https://") || StartsWith(action.target.value, "uri:content://"))
    case PreWarmProcess => action.target.Some? && IsSafePrewarmTarget(action.target.value, signals)
    case KeepAlive => action.target.Some? ==> StartsWith(action.target.value, "work:")
    case ReleaseMemory => action.target.Some? ==> action.target.value in {"cache:prefetch", "cache:all"}
    case NoOp => action.target.None?
  }

  function KeepAware(actions: seq<SuggestedAction>, signals: Signals): seq<SuggestedAction> {
    if actions == [] then []
    else
      var last := actions[|actions| - 1];
      KeepAware(actions[..|actions| - 1], signals) + if IsPolicyAware(last, signals) then [last] else []
  }

  function Suppressed(c: Candidate, signals: Signals): Candidate {
    var kept := KeepAware(c.actions, signals);
    c.(actions := kept,
       tags := c.tags + if |kept| < |c.actions| then ["local:suppress:policy_aware_filter"] else [])
  }

  /** Every proposal with its unsafe actions removed; those left without an action are dropped. */
  function Surviving(candidates: seq<Candidate>, signals: Signals): seq<Candidate> {
    if candidates == [] then []
    else
      var last := Suppressed(candidates[|candidates| - 1], signals);
      Surviving(candidates[..|candidates| - 1], signals) + if last.actions == [] then [] else [last]
  }

  /* ----- Keys ----- */

  function IntentKey(t: IntentType): string {
    match t
    case OpenApp(p) => "open:" + p
    case SwitchToApp(p) => "switch:" + p
    case CheckNotification(p) => "notify:" + p
    case HandleFile(c) => "file:" + ExtensionKey(c)
    case EnterContext(name) => "context:" + name
    case Idle => "idle"
  }

  function ActionKeys(actions: seq<SuggestedAction>): string {
    if actions == [] then ""
    else
      var last := actions[|actions| - 1];
      ActionKeys(actions[..|actions| - 1]) +
      "|" + ActionName(last.actionType) + ":" + if last.target.Some? then last.target.value else ""
  }

  function CandidateKey(c: Candidate): string {
    IntentKey(c.intentType) + ActionKeys(c.actions)
  }

  /* ----- Deduplication ----- */

  function MergeTags(target: seq<string>, source: seq<string>): seq<string> {
    if source == [] then target
    else
      var merged := MergeTags(target, source[..|source| - 1]);
      if source[|source| - 1] in merged then merged else merged + [source[|source| - 1]]
  }

  /** The more confident of two equal proposals, the earlier one on a tie, with the tags of both. */
  function Merged(existing: Candidate, candidate: Candidate): Candidate {
    if existing.confidence >= candidate.confidence
    then existing.(tags := MergeTags(existing.tags, candidate.tags))
    else candidate.(tags := MergeTags(candidate.tags, existing.tags))
  }

  function Dedup(candidates: seq<Candidate>): map<string, Candidate> {
    if candidates == [] then map[]
    else
      var deduped := Dedup(candidates[..|candidates| - 1]);
      var last := candidates[|candidates| - 1];
      var key := CandidateKey(last);
      deduped[key := if key in deduped then Merged(deduped[key], last) else last]
  }

  /** What a candidate proposes, its tags aside. */
  predicate SameProposal(a: Candidate, b: Candidate) {
    a.intentType == b.intentType && a.confidence == b.confidence && a.actions == b.actions
  }

  /** `candidates[i]` is the first of those with its key that reach the highest confidence. */
  ghost predicate BestOfKey(candidates: seq<Candidate>, i: int) {
    && 0 <= i < |candidates|
    && forall j :: 0 <= j < |candidates| && CandidateKey(candidates[j]) == CandidateKey(candidates[i]) ==>
         candidates[j].confidence < candidates[i].confidence ||
         (candidates[j].confidence == candidates[i].confidence && i <= j)
  }

  ghost predicate HoldsBest(candidates: seq<Candidate>, key: string, c: Candidate) {
    exists i :: BestOfKey(candidates, i) && CandidateKey(candidates[i]) == key && SameProposal(c, candidates[i])
  }

  predicate HasKey(candidates: seq<Candidate>, key: string) {
    exists i :: 0 <= i < |candidates| && CandidateKey(candidates[i]) == key
  }

  /** Each key keeps its most confident proposal, and no key is lost or invented. */
  lemma {:induction false} DedupKeepsTheBest(candidates: seq<Candidate>, key: string)
    ensures key in Dedup(candidates) <==> HasKey(candidates, key)
    ensures key in Dedup(candidates) ==>
              CandidateKey(Dedup(candidates)[key]) == key && HoldsBest(candidates, key, Dedup(candidates)[key])
  {
    hide CandidateKey, MergeTags, HoldsBest, HasKey;
    if candidates == [] {
      NoKeys(key);
    } else {
      var n := |candidates| - 1;
      var init, last := candidates[..n], candidates[n];
      assert candidates == init + [last];
      DedupKeepsTheBest(init, key);
      OneMoreKey(init, last, key);
      if key in Dedup(init) {
        OneMoreCandidate(init, last, key, Dedup(init)[key]);
        MergingKeepsKey(Dedup(init)[key], last);
      } else if CandidateKey(last) == key {
        FirstOfKey(init, last);
      }
    }
  }

  lemma NoKeys(key: string)
    ensures !HasKey([], key)
  {
  }

  lemma OneMoreKey(init: seq<Candidate>, last: Candidate, key: string)
    ensures HasKey(init + [last], key) <==> HasKey(init, key) || CandidateKey(last) == key
  {
    hide CandidateKey;
    var all := init + [last];
    assert forall i :: 0 <= i < |init| ==> all[i] == init[i];
    assert all[|init|] == last;
  }

  lemma MergingKeepsKey(existing: Candidate, last: Candidate)
    ensures CandidateKey(Merged(existing, last)) in {CandidateKey(existing), CandidateKey(last)}
  {
  }

  lemma FirstOfKey(init: seq<Candidate>, last: Candidate)
    requires !HasKey(init, CandidateKey(last))
    ensures HoldsBest(init + [last], CandidateKey(last), last)
  {
    hide CandidateKey;
    var all := init + [last];
    assert forall i :: 0 <= i < |init| ==> all[i] == init[i];
    assert BestOfKey(all, |init|);
  }

  lemma OneMoreCandidate(init: seq<Candidate>, last: Candidate, key: string, existing: Candidate)
    requires HoldsBest(init, key, existing)
    ensures HoldsBest(init + [last], key, if CandidateKey(last) == key then Merged(existing, last) else existing)
  {
    hide CandidateKey, MergeTags;
    var all := init + [last];
    var i :| BestOfKey(init, i) && CandidateKey(init[i]) == key && SameProposal(existing, init[i]);
    assert forall j :: 0 <= j < |init| ==> all[j] == init[j];
    assert all[|init|] == last;
    if CandidateKey(last) == key && existing.confidence < last.confidence {
      assert BestOfKey(all, |init|);
    } else {
      assert BestOfKey(all, i);
    }
  }

  lemma {:induction false} MergeTagsIsUnion(target: seq<string>, source: seq<string>)
    ensures forall t :: t in MergeTags(target, source) <==> t in target || t in source
  {
    if source != [] {
      MergeTagsIsUnion(target, source[..|source| - 1]);
      assert source == source[..|source| - 1] + [source[|source| - 1]];
    }
  }

  /** No tag of a surviving proposal is lost when duplicates of it are dropped. */
  lemma {:induction false} DedupKeepsTags(candidates: seq<Candidate>, key: string, tag: string)
    requires key in Dedup(candidates)
    ensures tag in Dedup(candidates)[key].tags <==>
            exists i :: 0 <= i < |candidates| && CandidateKey(candidates[i]) == key && tag in candidates[i].tags
  {
    hide CandidateKey, MergeTags;
    var n := |candidates| - 1;
    var init, last := candidates[..n], candidates[n];
    assert forall i :: 0 <= i < n ==> candidates[i] == init[i];
    if key in Dedup(init) {
      DedupKeepsTags(init, key, tag);
      MergeTagsIsUnion(Dedup(init)[key].tags, last.tags);
      MergeTagsIsUnion(last.tags, Dedup(init)[key].tags);
    } else {
      DedupKeepsTheBest(init, key);
    }
  }

  /* ----- Ranking and cutting ----- */

  function Scored(c: Candidate): AppScore {
    AppScore(CandidateKey(c), c.confidence)
  }

  predicate CandidateLe(a: Candidate, b: Candidate) {
    RankLe(Scored(a), Scored(b))
  }

  function Confidences(deduped: map<string, Candidate>): map<string, real> {
    map key | key in deduped :: deduped[key].confidence
  }

  /** The deduplicated proposals by confidence and then key. */
  ghost function Ordered(deduped: map<string, Candidate>): (r: seq<Candidate>)
    ensures |r| == |RankingOf(Confidences(deduped))|
  {
    var order := RankingOf(Confidences(deduped));
    assert forall i :: 0 <= i < |order| ==> order[i] in order;
    seq(|order|, i requires 0 <= i < |order| => deduped[order[i].app])
  }

  ghost function Chosen(candidates: seq<Candidate>, signals: Signals, maxIntents: nat): seq<Candidate> {
    var ordered := Ordered(Dedup(Surviving(candidates, signals)));
    if |ordered| <= maxIntents then ordered else ordered[..maxIntents]
  }

  ghost predicate Keyed(deduped: map<string, Candidate>) {
    forall key :: key in deduped ==> CandidateKey(deduped[key]) == key
  }

  lemma CandidateLeIsOrder()
    ensures TotalOrder(CandidateLe)
  {
    hide RankLe, Scored;
    RankLeIsOrder();
  }

  /** Sorting the values, collected in whatever order, gives that arrangement. */
  lemma SortedValues(deduped: map<string, Candidate>, values: seq<Candidate>)
    requires Keyed(deduped) && Distinct(values)
    requires forall c :: c in values <==> CandidateKey(c) in deduped && deduped[CandidateKey(c)] == c
    ensures Sort(CandidateLe, values) == Ordered(deduped)
  {
    hide RankLe, CandidateKey, Sort, Ordered, Confidences;
    var sorted := Sort(CandidateLe, values);
    CandidateLeIsOrder();
    SortSorted(CandidateLe, values);
    SortElements(CandidateLe, values);
    ScoresRank(deduped, sorted);
  }

  lemma ScoresRank(deduped: map<string, Candidate>, sorted: seq<Candidate>)
    requires Keyed(deduped) && Distinct(sorted) && Sorted(CandidateLe, sorted)
    requires forall c :: c in sorted <==> CandidateKey(c) in deduped && deduped[CandidateKey(c)] == c
    ensures sorted == Ordered(deduped)
  {
    hide RankLe, CandidateKey, RankingOf;
    var scores := seq(|sorted|, i requires 0 <= i < |sorted| => Scored(sorted[i]));
    forall i | 0 <= i < |sorted| ensures deduped[CandidateKey(sorted[i])] == sorted[i] && CandidateKey(sorted[i]) in deduped {
      assert sorted[i] in sorted;
    }
    assert Distinct(scores);
    ScoreElements(deduped, sorted, scores);
    RankingIsUnique(Confidences(deduped), scores, RankingOf(Confidences(deduped)));
  }

  lemma ScoreElements(deduped: map<string, Candidate>, sorted: seq<Candidate>, scores: seq<AppScore>)
    requires Keyed(deduped)
    requires forall c :: c in sorted <==> CandidateKey(c) in deduped && deduped[CandidateKey(c)] == c
    requires |scores| == |sorted| && forall i :: 0 <= i < |sorted| ==> scores[i] == Scored(sorted[i])
    ensures forall s :: s in scores <==> s.app in Confidences(deduped) && Confidences(deduped)[s.app] == s.score
  {
    hide CandidateKey;
    forall s | s in scores ensures s.app in deduped && deduped[s.app].confidence == s.score {
      var i :| 0 <= i < |scores| && scores[i] == s;
      assert sorted[i] in sorted;
    }
    forall s: AppScore | s.app in deduped && deduped[s.app].confidence == s.score ensures s in scores {
      var c := deduped[s.app];
      assert c in sorted;
      var i :| 0 <= i < |sorted| && sorted[i] == c;
      assert scores[i] == s;
    }
  }

  ghost predicate IsArranged(deduped: map<string, Candidate>, ordered: seq<Candidate>) {
    && (forall i, j :: 0 <= i < j < |ordered| ==>
          CandidateLe(ordered[i], ordered[j]) && CandidateKey(ordered[i]) != CandidateKey(ordered[j]))
    && (forall i :: 0 <= i < |ordered| ==>
          CandidateKey(ordered[i]) in deduped && deduped[CandidateKey(ordered[i])] == ordered[i])
    && (forall key :: key in deduped ==> deduped[key] in ordered)
  }

  lemma OrderedIsArranged(deduped: map<string, Candidate>)
    requires Keyed(deduped)
    ensures IsArranged(deduped, Ordered(deduped))
  {
    hide RankLe, CandidateKey, RankingOf;
    var order, ordered := RankingOf(Confidences(deduped)), Ordered(deduped);
    assert forall i :: 0 <= i < |order| ==> order[i] in order;
    assert forall i :: 0 <= i < |ordered| ==> Scored(ordered[i]) == order[i];
    forall key | key in deduped ensures deduped[key] in ordered {
      var s := AppScore(key, deduped[key].confidence);
      assert s in order;
      var i :| 0 <= i < |order| && order[i] == s;
      assert ordered[i] == deduped[key];
    }
  }

  ghost predicate Listed(chosen: seq<Candidate>, key: string) {
    exists i :: 0 <= i < |chosen| && CandidateKey(chosen[i]) == key
  }

  /** What the cut keeps: at most `maxIntents` distinct keys in order, each with its best proposal, and a
      key is left out only when the cut is full and everything in it ranks at least as high. */
  ghost predicate IsBestChoice(surviving: seq<Candidate>, chosen: seq<Candidate>, maxIntents: nat) {
    && |chosen| <= maxIntents
    && (forall i, j :: 0 <= i < j < |chosen| ==>
          CandidateLe(chosen[i], chosen[j]) && CandidateKey(chosen[i]) != CandidateKey(chosen[j]))
    && (forall i :: 0 <= i < |chosen| ==> HoldsBest(surviving, CandidateKey(chosen[i]), chosen[i]))
    && (forall j :: 0 <= j < |surviving| && !Listed(chosen, CandidateKey(surviving[j])) ==>
          |chosen| == maxIntents && forall i :: 0 <= i < |chosen| ==> CandidateLe(chosen[i], surviving[j]))
  }

  lemma ChosenAreTheBest(candidates: seq<Candidate>, signals: Signals, maxIntents: nat)
    ensures IsBestChoice(Surviving(candidates, signals), Chosen(candidates, signals, maxIntents), maxIntents)
  {
    hide CandidateKey, CandidateLe, Dedup, Ordered, HoldsBest, HasKey, Surviving, IsBestChoice;
    var surviving := Surviving(candidates, signals);
    var deduped := Dedup(surviving);
    forall key { DedupKeepsTheBest(surviving, key); }
    OrderedIsArranged(deduped);
    CutIsBest(surviving, deduped, Ordered(deduped), maxIntents);
  }

  lemma CutIsBest(surviving: seq<Candidate>, deduped: map<string, Candidate>, ordered: seq<Candidate>, maxIntents: nat)
    requires IsArranged(deduped, ordered)
    requires forall key :: key in deduped <==> HasKey(surviving, key)
    requires forall key :: key in deduped ==>
                CandidateKey(deduped[key]) == key && HoldsBest(surviving, key, deduped[key])
    ensures IsBestChoice(surviving, if |ordered| <= maxIntents then ordered else ordered[..maxIntents], maxIntents)
  {
    hide CandidateKey, CandidateLe, HoldsBest, HasKey, Listed;
    var chosen := if |ordered| <= maxIntents then ordered else ordered[..maxIntents];
    forall j | 0 <= j < |surviving| && !Listed(chosen, CandidateKey(surviving[j]))
      ensures |chosen| == maxIntents && forall i :: 0 <= i < |chosen| ==> CandidateLe(chosen[i], surviving[j])
    {
      KeyOfSurvivor(surviving, j);
      UnlistedRanksBelow(surviving, deduped, ordered, maxIntents, j);
    }
  }

  lemma KeyOfSurvivor(surviving: seq<Candidate>, j: nat)
    requires j < |surviving|
    ensures HasKey(surviving, CandidateKey(surviving[j]))
  {
    hide CandidateKey;
  }

  lemma UnlistedRanksBelow(surviving: seq<Candidate>, deduped: map<string, Candidate>, ordered: seq<Candidate>,
                           maxIntents: nat, j: nat)
    requires IsArranged(deduped, ordered) && j < |surviving|
    requires var key := CandidateKey(surviving[j]);
             key in deduped && CandidateKey(deduped[key]) == key && HoldsBest(surviving, key, deduped[key])
    requires !Listed(if |ordered| <= maxIntents then ordered else ordered[..maxIntents], CandidateKey(surviving[j]))
    ensures |ordered| > maxIntents
    ensures forall i :: 0 <= i < maxIntents ==> CandidateLe(ordered[i], surviving[j])
  {
    hide CandidateKey, CandidateLe, HoldsBest;
    var key := CandidateKey(surviving[j]);
    var chosen := if |ordered| <= maxIntents then ordered else ordered[..maxIntents];
    var at :| 0 <= at < |ordered| && ordered[at] == deduped[key];
    assert forall i :: 0 <= i < |chosen| ==> chosen[i] == ordered[i];
    assert at >= |chosen|;
    BestIsNotBelow(surviving, key, deduped[key], j);
    forall i | 0 <= i < maxIntents ensures CandidateLe(ordered[i], surviving[j]) {
      assert CandidateLe(ordered[i], ordered[at]);
      LeOfBetter(ordered[i], ordered[at], surviving[j]);
    }
  }

  lemma BestIsNotBelow(surviving: seq<Candidate>, key: string, best: Candidate, j: nat)
    requires HoldsBest(surviving, key, best) && j < |surviving| && CandidateKey(surviving[j]) == key
    ensures surviving[j].confidence <= best.confidence
  {
    hide CandidateKey;
  }

  lemma LeOfBetter(a: Candidate, b: Candidate, c: Candidate)
    requires CandidateLe(a, b) && CandidateKey(b) == CandidateKey(c) && c.confidence <= b.confidence
    ensures CandidateLe(a, c)
  {
    hide CandidateKey, Le;
  }

  /* ----- The steps as they are taken ----- */

  method MergeTagsInto(target: seq<string>, source: seq<string>) returns (tags: seq<string>)
    ensures tags == MergeTags(target, source)
  {
    tags := target;
    for i := 0 to |source|
      invariant tags == MergeTags(target, source[..i])
    {
      assert source[..i + 1][..i] == source[..i];
      if source[i] !in tags {
        tags := tags + [source[i]];
      }
    }
    assert source[..|source|] == source;
  }

  method DropUnsafe(candidates: seq<Candidate>, signals: Signals) returns (surviving: seq<Candidate>)
    ensures surviving == Surviving(candidates, signals)
  {
    hide Suppressed;
    surviving := [];
    for i := 0 to |candidates|
      invariant surviving == Surviving(candidates[..i], signals)
    {
      assert candidates[..i + 1][..i] == candidates[..i];
      var suppressed := Suppressed(candidates[i], signals);
      if suppressed.actions != [] {
        surviving := surviving + [suppressed];
      }
    }
    assert candidates[..|candidates|] == candidates;
  }

  method Deduplicate(candidates: seq<Candidate>) returns (deduped: map<string, Candidate>)
    ensures deduped == Dedup(candidates)
  {
    hide CandidateKey, MergeTags;
    deduped := map[];
    for i := 0 to |candidates|
      invariant deduped == Dedup(candidates[..i])
    {
      assert candidates[..i + 1][..i] == candidates[..i];
      var candidate := candidates[i];
      var key := CandidateKey(candidate);
      if key !in deduped {
        deduped := deduped[key := candidate];
      } else if deduped[key].confidence >= candidate.confidence {
        var existing := deduped[key];
        var tags := MergeTagsInto(existing.tags, candidate.tags);
        deduped := deduped[key := existing.(tags := tags)];
      } else {
        var tags := MergeTagsInto(candidate.tags, deduped[key].tags);
        deduped := deduped[key := candidate.(tags := tags)];
      }
    }
    assert candidates[..|candidates|] == candidates;
  }

  /** The values of the table in whatever order it yields them. */
  method Values(deduped: map<string, Candidate>) returns (values: seq<Candidate>)
    requires Keyed(deduped)
    ensures Distinct(values)
    ensures forall c :: c in values <==> CandidateKey(c) in deduped && deduped[CandidateKey(c)] == c
  {
    hide CandidateKey;
    values := [];
    var rest := deduped.Keys;
    while rest != {}
      invariant rest <= deduped.Keys
      invariant Distinct(values)
      invariant forall c :: c in values <==>
                  CandidateKey(c) in deduped && CandidateKey(c) !in rest && deduped[CandidateKey(c)] == c
      decreases rest
    {
      var key :| key in rest;
      rest := rest - {key};
      values := values + [deduped[key]];
    }
  }

  function IntentOf(c: Candidate): Intent {
    Intent("", c.intentType, c.confidence, RiskLevel.Low, c.actions, c.tags)
  }

  function IntentsOf(chosen: seq<Candidate>): (r: seq<Intent>)
    ensures |r| == |chosen|
  {
    seq(|chosen|, i requires 0 <= i < |chosen| => IntentOf(chosen[i]))
  }

  method FinalizeCandidates(candidates: seq<Candidate>, signals: Signals, maxIntents: nat) returns (intents: seq<Intent>)
    ensures intents == IntentsOf(Chosen(candidates, signals, maxIntents))
  {
    hide CandidateKey, CandidateLe, Sort, Ordered, Surviving, Dedup, HasKey, HoldsBest;
    var surviving := DropUnsafe(candidates, signals);
    var deduped := Deduplicate(surviving);
    forall key { DedupKeepsTheBest(surviving, key); }
    var values := Values(deduped);
    var sorted := Sort(CandidateLe, values);
    SortedValues(deduped, values);
    intents := IntentsOf(if |sorted| <= maxIntents then sorted else sorted[..maxIntents]);
  }

  const IDLE_INTENT :=
    Intent("", Idle, 0.60, RiskLevel.Low, [SuggestedAction(NoOp, None, IdleTime)], ["local:idle_window"])

  ghost function LocalIntents(ctx: StructuredContext, env: Environment): seq<Intent> {
    var chosen := Chosen(Proposals(ctx, env), SignalsOf(ctx), MAX_INTENTS_PER_WINDOW);
    if chosen == [] then [IDLE_INTENT] else IntentsOf(chosen)
  }

  method EvaluateIntents(ctx: StructuredContext, env: Environment) returns (intents: seq<Intent>)
    ensures intents == LocalIntents(ctx, env)
  {
    hide SignalsOf, DraftFor, BaseConfidence, OwnBoosts, Chosen, BoostedAll, Appraised;
    var signals := CollectSignals(ctx);
    var candidates: seq<Candidate> := [];
    for i := 0 to |ctx.events|
      invariant candidates == EventCandidates(ctx.events[..i], env, signals)
    {
      assert ctx.events[..i + 1][..i] == ctx.events[..i];
      var event := ctx.events[i];
      var draft := DraftFor(event, env);
      if draft.Some? {
        var appraisal := env.appraise(i);
        var boosts := OwnBoosts(event, signals) + appraisal.boosts;
        var value, tags := Appraise(BaseConfidence(event), boosts, signals, draft.value.userVisible, appraisal.feedback);
        candidates := candidates + [Candidate(draft.value.intentType, value, draft.value.actions, draft.value.tags + tags)];
      }
    }
    assert ctx.events[..|ctx.events|] == ctx.events;
    if signals.lowBattery && !signals.charging {
      candidates := candidates + [LowBatteryCandidate(env)];
    }
    assert candidates == Proposals(ctx, env);
    intents := FinalizeCandidates(candidates, signals, MAX_INTENTS_PER_WINDOW);
    if intents == [] {
      intents := [IDLE_INTENT];
    }
  }

  /* ----- Never more than the policy allows ----- */

  function LocalRules(ctx: StructuredContext): Rules {
    Rules(DEFAULT_CONFIG, CapabilityForRoute(DecisionRoute.LocalEvaluator), Some(TargetsOf(ctx)))
  }

  /** Few enough actions for the cap, each of which passes every gate of its own. */
  predicate Permissible(rules: Rules, actions: seq<SuggestedAction>) {
    |actions| <= 2 && forall i :: 0 <= i < |actions| ==> Passes(rules, actions[i])
  }

  predicate NeverIdles(actions: seq<SuggestedAction>) {
    forall i :: 0 <= i < |actions| ==> actions[i].actionType != NoOp
  }

  ghost predicate AllPermissible(rules: Rules, candidates: seq<Candidate>) {
    forall i :: 0 <= i < |candidates| ==>
      Permissible(rules, candidates[i].actions) && NeverIdles(candidates[i].actions)
  }

  lemma DraftIsPermissible(ctx: StructuredContext, env: Environment, i: nat)
    requires env.Valid() && i < |ctx.events| && DraftFor(ctx.events[i], env).Some?
    ensures Permissible(LocalRules(ctx), DraftFor(ctx.events[i], env).value.actions)
    ensures NeverIdles(DraftFor(ctx.events[i], env).value.actions)
  {
    hide EventPackages;
    var event := ctx.events[i];
    match event.eventType {
      case FileActivity(p, c, _) =>
        assert StartsWith("url:" + env.url(c, p), "url:");
      case AppTransitionEvent(p, _) =>
        NamedPackage(ctx, i, p);
      case Notification(p, _, _) =>
        NamedPackage(ctx, i, p);
      case _ =>
    }
  }

  /** A package an event names may be prewarmed. */
  lemma NamedPackage(ctx: StructuredContext, i: nat, p: string)
    requires i < |ctx.events| && Mentions(ctx.events[i], p)
    ensures AllowedPrewarmTarget("pkg:" + p, TargetsOf(ctx))
  {
    hide EventPackages, Mentions;
    assert Knows(ctx, p);
    assert ("pkg:" + p)[4..] == p;
    assert !StartsWith("pkg:" + p, "own:") && !StartsWith("pkg:" + p, "notif:") by {
      assert ("pkg:" + p)[0] == 'p';
    }
  }

  lemma {:induction false} EventCandidatesPermissible(ctx: StructuredContext, env: Environment, signals: Signals, n: nat)
    requires env.Valid() && n <= |ctx.events|
    ensures AllPermissible(LocalRules(ctx), EventCandidates(ctx.events[..n], env, signals))
  {
    hide Permissible, NeverIdles, DraftFor, LocalRules, Appraised, BaseConfidence;
    if n > 0 {
      EventCandidatesPermissible(ctx, env, signals, n - 1);
      assert ctx.events[..n][..n - 1] == ctx.events[..n - 1];
      if DraftFor(ctx.events[n - 1], env).Some? {
        DraftIsPermissible(ctx, env, n - 1);
      }
    }
  }

  lemma ProposalsPermissible(ctx: StructuredContext, env: Environment)
    requires env.Valid()
    ensures AllPermissible(LocalRules(ctx), Proposals(ctx, env))
  {
    hide EventCandidates, SignalsOf, BoostedAll, TargetsOf;
    EventCandidatesPermissible(ctx, env, SignalsOf(ctx), |ctx.events|);
    assert ctx.events[..|ctx.events|] == ctx.events;
    assert Permissible(LocalRules(ctx), [RELEASE_PREFETCH]);
  }

  lemma {:induction false} KeepAwareKeepsPermissible(rules: Rules, actions: seq<SuggestedAction>, signals: Signals)
    requires forall i :: 0 <= i < |actions| ==> Passes(rules, actions[i])
    requires NeverIdles(actions)
    ensures NeverIdles(KeepAware(actions, signals))
    ensures |KeepAware(actions, signals)| <= |actions|
    ensures forall i :: 0 <= i < |KeepAware(actions, signals)| ==>
              Passes(rules, KeepAware(actions, signals)[i]) && IsPolicyAware(KeepAware(actions, signals)[i], signals)
  {
    hide Passes, IsPolicyAware;
    if actions != [] {
      KeepAwareKeepsPermissible(rules, actions[..|actions| - 1], signals);
    }
  }

  lemma {:induction false} SurvivingPermissible(rules: Rules, candidates: seq<Candidate>, signals: Signals)
    requires AllPermissible(rules, candidates)
    ensures AllPermissible(rules, Surviving(candidates, signals))
  {
    hide Passes, KeepAware;
    if candidates != [] {
      SurvivingPermissible(rules, candidates[..|candidates| - 1], signals);
      KeepAwareKeepsPermissible(rules, candidates[|candidates| - 1].actions, signals);
    }
  }

  lemma {:induction false} SurvivingHaveActions(candidates: seq<Candidate>, signals: Signals)
    ensures forall i :: 0 <= i < |Surviving(candidates, signals)| ==> Surviving(candidates, signals)[i].actions != []
  {
    hide Suppressed;
    if candidates != [] {
      SurvivingHaveActions(candidates[..|candidates| - 1], signals);
    }
  }

  ghost predicate AllAware(candidates: seq<Candidate>, signals: Signals) {
    forall i, j :: 0 <= i < |candidates| && 0 <= j < |candidates[i].actions| ==>
      IsPolicyAware(candidates[i].actions[j], signals)
  }

  lemma {:induction false} KeptAreAware(actions: seq<SuggestedAction>, signals: Signals)
    ensures forall j :: 0 <= j < |KeepAware(actions, signals)| ==> IsPolicyAware(KeepAware(actions, signals)[j], signals)
  {
    hide IsPolicyAware;
    if actions != [] {
      KeptAreAware(actions[..|actions| - 1], signals);
    }
  }

  lemma {:induction false} SurvivingAreAware(candidates: seq<Candidate>, signals: Signals)
    ensures AllAware(Surviving(candidates, signals), signals)
  {
    hide IsPolicyAware, KeepAware;
    if candidates != [] {
      SurvivingAreAware(candidates[..|candidates| - 1], signals);
      KeptAreAware(candidates[|candidates| - 1].actions, signals);
    }
  }

  lemma ChosenAreAware(candidates: seq<Candidate>, signals: Signals, maxIntents: nat)
    ensures AllAware(Chosen(candidates, signals, maxIntents), signals)
  {
    hide IsPolicyAware, CandidateKey, CandidateLe, Surviving, Chosen;
    SurvivingAreAware(candidates, signals);
    ChosenAreTheBest(candidates, signals, maxIntents);
    var chosen := Chosen(candidates, signals, maxIntents);
    forall i, j | 0 <= i < |chosen| && 0 <= j < |chosen[i].actions| ensures IsPolicyAware(chosen[i].actions[j], signals) {
      assert HoldsBest(Surviving(candidates, signals), CandidateKey(chosen[i]), chosen[i]);
    }
  }

  /** What the backend holds back on its own: no prefetch while offline or running low on battery, no
      package prewarm while the screen is off or locked or for a name that is no package's. */
  lemma LocalRestraint(ctx: StructuredContext, env: Environment, n: nat, i: nat)
    requires n < |LocalIntents(ctx, env)| && i < |LocalIntents(ctx, env)[n].suggestedActions|
    ensures var action, signals := LocalIntents(ctx, env)[n].suggestedActions[i], SignalsOf(ctx);
            && (action.actionType == PrefetchFile ==> !signals.offline && (signals.lowBattery ==> signals.charging))
            && (action.actionType == PreWarmProcess && action.target.Some? && StartsWith(action.target.value, "pkg:") ==>
                  !signals.screenNoninteractive && LooksLikePackageName(action.target.value[4..]))
  {
    hide Chosen, Proposals, SignalsOf, LooksLikePackageName;
    ChosenAreAware(Proposals(ctx, env), SignalsOf(ctx), MAX_INTENTS_PER_WINDOW);
    var action := LocalIntents(ctx, env)[n].suggestedActions[i];
    assert action.actionType != NoOp ==> IsPolicyAware(action, SignalsOf(ctx));
    if action.target.Some? && StartsWith(action.target.value, "pkg:") {
      assert action.target.value[0] == 'p';
    }
  }

  datatype SignalName = BatterySignal | ChargingSignal | CellularSignal | OfflineSignal | ScreenSignal

  function Raised(s: Signals, name: SignalName): bool {
    match name
    case BatterySignal => s.lowBattery
    case ChargingSignal => s.charging
    case CellularSignal => s.cellular
    case OfflineSignal => s.offline
    case ScreenSignal => s.screenNoninteractive
  }

  predicate StatusRaises(status: SystemStatus, name: SignalName) {
    match name
    case BatterySignal => status.batteryPct.Some? && status.batteryPct.value < 20
    case ChargingSignal => status.isCharging
    case CellularSignal => status.network == Cellular
    case OfflineSignal => status.network == Offline
    case ScreenSignal => false
  }

  predicate EventRaises(event: SanitizedEvent, name: SignalName) {
    match event.eventType
    case SystemStatusEvent(status) => StatusRaises(status, name)
    case Screen(state) => name == ScreenSignal && state != Interactive
    case _ => false
  }

  /** A signal is raised exactly when the summary's status or some event of the window raises it; no later
      event lowers it. */
  lemma {:induction false} SignalsAccumulate(summary: ContextSummary, events: seq<SanitizedEvent>, name: SignalName)
    ensures Raised(SignalsAfter(summary, events), name) <==>
            || (summary.latestSystemStatus.Some? && StatusRaises(summary.latestSystemStatus.value, name))
            || exists i :: 0 <= i < |events| && EventRaises(events[i], name)
    ensures SignalsAfter(summary, events).foregroundApps == summary.foregroundApps
  {
    hide EventRaises;
    if events != [] {
      var init, last := events[..|events| - 1], events[|events| - 1];
      SignalsAccumulate(summary, init, name);
      assert forall i :: 0 <= i < |init| ==> events[i] == init[i];
      OneMoreSignal(SignalsAfter(summary, init), last, name);
    }
  }

  lemma OneMoreSignal(s: Signals, event: SanitizedEvent, name: SignalName)
    ensures Raised(EventSignals(s, event), name) <==> Raised(s, name) || EventRaises(event, name)
    ensures EventSignals(s, event).foregroundApps == s.foregroundApps
  {
  }

  lemma ChosenPermissible(rules: Rules, candidates: seq<Candidate>, signals: Signals, maxIntents: nat)
    requires AllPermissible(rules, candidates)
    ensures AllPermissible(rules, Chosen(candidates, signals, maxIntents))
    ensures forall i :: 0 <= i < |Chosen(candidates, signals, maxIntents)| ==>
              Chosen(candidates, signals, maxIntents)[i].actions != []
  {
    hide Permissible, NeverIdles, CandidateKey, CandidateLe, Surviving, Chosen;
    SurvivingPermissible(rules, candidates, signals);
    SurvivingHaveActions(candidates, signals);
    ChosenAreTheBest(candidates, signals, maxIntents);
    var chosen := Chosen(candidates, signals, maxIntents);
    forall i | 0 <= i < |chosen|
      ensures Permissible(rules, chosen[i].actions) && NeverIdles(chosen[i].actions) && chosen[i].actions != []
    {
      assert HoldsBest(Surviving(candidates, signals), CandidateKey(chosen[i]), chosen[i]);
    }
  }

  /** Every action of such an intent gets the same verdict: approved if the intent is confident enough. */
  lemma PermissibleVerdict(rules: Rules, intent: Intent, i: nat)
    requires rules.config == DEFAULT_CONFIG && intent.riskLevel == RiskLevel.Low
    requires Permissible(rules, intent.suggestedActions) && i < |intent.suggestedActions|
    ensures Verdict(rules, intent, i) == if intent.confidence >= 0.3 then Approved else Denied(ConfidenceTooLow)
  {
    hide Passing, ActionReason;
    assert Passing(rules, intent.suggestedActions[..i]) <= 1;
    assert Passes(rules, intent.suggestedActions[i]);
  }

  /** The backend never proposes what the default policy forbids: whatever the window and the scores,
      an action of the local evaluator is approved, unless its intent's confidence is below the floor. */
  lemma LocalActionsAreApproved(ctx: StructuredContext, env: Environment, n: nat, i: nat)
    requires env.Valid() && n < |LocalIntents(ctx, env)| && i < |LocalIntents(ctx, env)[n].suggestedActions|
    ensures Verdict(LocalRules(ctx), LocalIntents(ctx, env)[n], i) ==
            if LocalIntents(ctx, env)[n].confidence >= 0.3 then Approved else Denied(ConfidenceTooLow)
  {
    hide Chosen, Proposals, SignalsOf, TargetsOf, Verdict, Permissible, NeverIdles;
    var chosen := Chosen(Proposals(ctx, env), SignalsOf(ctx), MAX_INTENTS_PER_WINDOW);
    ProposalsPermissible(ctx, env);
    ChosenPermissible(LocalRules(ctx), Proposals(ctx, env), SignalsOf(ctx), MAX_INTENTS_PER_WINDOW);
    IdlePermissible(ctx);
    PermissibleVerdict(LocalRules(ctx), LocalIntents(ctx, env)[n], i);
  }

  lemma IdlePermissible(ctx: StructuredContext)
    ensures Permissible(LocalRules(ctx), IDLE_INTENT.suggestedActions)
  {
    hide TargetsOf;
  }
}
