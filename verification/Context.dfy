/** Windows of sanitized events and the summary a closed window carries. */
module Context {
  import opened Wrappers
  import opened Spec
  import opened Sorting

  /* ----- What each event contributes to the summary ----- */

  function ForegroundOf(event: SanitizedEvent): Option<string> {
    match event.eventType
    case AppTransitionEvent(p, Foreground) => Some(p)
    case ProcessResource(p, _, _) => p
    case InterAppInteraction(p, _) => p
    case _ => None
  }

  function NotifiedOf(event: SanitizedEvent): Option<string> {
    match event.eventType
    case Notification(p, _, _) => Some(p)
    case _ => None
  }

  function HintsOf(event: SanitizedEvent): seq<SemanticHint> {
    match event.eventType
    case Notification(_, hints, _) => hints
    case _ => []
  }

  function AppendNew<T(==)>(s: seq<T>, x: T): seq<T> {
    if x in s then s else s + [x]
  }

  /** Packages seen in the foreground: each once, in order of first appearance. */
  function ForegroundApps(events: seq<SanitizedEvent>): seq<string> {
    if events == [] then []
    else
      var apps := ForegroundApps(events[..|events| - 1]);
      var app := ForegroundOf(events[|events| - 1]);
      if app.Some? then AppendNew(apps, app.value) else apps
  }

  function NotifiedApps(events: seq<SanitizedEvent>): seq<string> {
    if events == [] then []
    else
      var apps := NotifiedApps(events[..|events| - 1]);
      var app := NotifiedOf(events[|events| - 1]);
      if app.Some? then AppendNew(apps, app.value) else apps
  }

  function AppendAllNew(s: seq<SemanticHint>, xs: seq<SemanticHint>): seq<SemanticHint> {
    if xs == [] then s else AppendNew(AppendAllNew(s, xs[..|xs| - 1]), xs[|xs| - 1])
  }

  function SemanticHints(events: seq<SanitizedEvent>): seq<SemanticHint> {
    if events == [] then []
    else AppendAllNew(SemanticHints(events[..|events| - 1]), HintsOf(events[|events| - 1]))
  }

  function CountIn(counts: map<ExtensionCategory, nat>, c: ExtensionCategory): nat {
    if c in counts then counts[c] else 0
  }

  function FileCounts(events: seq<SanitizedEvent>): map<ExtensionCategory, nat> {
    if events == [] then map[]
    else
      var counts := FileCounts(events[..|events| - 1]);
      match events[|events| - 1].eventType
      case FileActivity(_, c, _) => counts[c := CountIn(counts, c) + 1]
      case _ => counts
  }

  function LatestStatus(events: seq<SanitizedEvent>): Option<SystemStatus> {
    if events == [] then None
    else match events[|events| - 1].eventType
      case SystemStatusEvent(status) => Some(status)
      case _ => LatestStatus(events[..|events| - 1])
  }

  function TierOf(events: seq<SanitizedEvent>): SourceTier {
    if events == [] then PublicApi
    else if events[|events| - 1].sourceTier == Daemon then Daemon
    else TierOf(events[..|events| - 1])
  }

  function SummaryOf(events: seq<SanitizedEvent>): ContextSummary {
    ContextSummary(ForegroundApps(events), NotifiedApps(events), SemanticHints(events), FileCounts(events),
                   LatestStatus(events), TierOf(events))
  }

  method AddHints(hints0: seq<SemanticHint>, found: seq<SemanticHint>) returns (hints: seq<SemanticHint>)
    ensures hints == AppendAllNew(hints0, found)
  {
    hints := hints0;
    for n := 0 to |found|
      invariant hints == AppendAllNew(hints0, found[..n])
    {
      assert found[..n + 1][..n] == found[..n];
      hints := AppendNew(hints, found[n]);
    }
    assert found[..|found|] == found;
  }

  /** One event folded into the summary under construction. */
  method Absorb(ghost seen: seq<SanitizedEvent>, summary: ContextSummary, event: SanitizedEvent) returns (r: ContextSummary)
    requires summary == SummaryOf(seen)
    ensures r == SummaryOf(seen + [event])
  {
    assert (seen + [event])[..|seen|] == seen;
    assert AppendAllNew(summary.semanticHints, []) == summary.semanticHints;
    r := summary;
    if event.sourceTier == Daemon {
      r := r.(sourceTier := Daemon);
    }
    match event.eventType {
      case AppTransitionEvent(p, Foreground) => r := r.(foregroundApps := AppendNew(r.foregroundApps, p));
      case ProcessResource(Some(p), _, _) => r := r.(foregroundApps := AppendNew(r.foregroundApps, p));
      case InterAppInteraction(Some(p), _) => r := r.(foregroundApps := AppendNew(r.foregroundApps, p));
      case Notification(p, found, _) =>
        var hints := AddHints(r.semanticHints, found);
        r := r.(notifiedApps := AppendNew(r.notifiedApps, p), semanticHints := hints);
      case FileActivity(_, c, _) => r := r.(fileActivity := r.fileActivity[c := CountIn(r.fileActivity, c) + 1]);
      case SystemStatusEvent(latest) => r := r.(latestSystemStatus := Some(latest));
      case _ =>
    }
  }

  /** The summary as it is built: one sweep that updates every part. */
  method BuildSummary(events: seq<SanitizedEvent>) returns (summary: ContextSummary)
    ensures summary == SummaryOf(events)
  {
    summary := ContextSummary([], [], [], map[], None, PublicApi);
    assert summary == SummaryOf(events[..0]);
    for n := 0 to |events|
      invariant summary == SummaryOf(events[..n])
    {
      hide SummaryOf;
      assert events[..n + 1] == events[..n] + [events[n]];
      summary := Absorb(events[..n], summary, events[n]);
    }
    assert events[..|events|] == events;
  }

  /* ----- What the app lists of a summary hold ----- */

  predicate SomeForeground(events: seq<SanitizedEvent>, app: string) {
    exists i :: 0 <= i < |events| && ForegroundOf(events[i]) == Some(app)
  }

  predicate SomeNotified(events: seq<SanitizedEvent>, app: string) {
    exists i :: 0 <= i < |events| && NotifiedOf(events[i]) == Some(app)
  }

  /** Each app is listed once, and exactly the apps that some event shows are listed. */
  lemma {:induction false} AppListsAreExact(events: seq<SanitizedEvent>)
    ensures Distinct(ForegroundApps(events)) && Distinct(NotifiedApps(events))
    ensures forall p :: p in ForegroundApps(events) <==> SomeForeground(events, p)
    ensures forall p :: p in NotifiedApps(events) <==> SomeNotified(events, p)
  {
    hide ForegroundOf, NotifiedOf;
    if events != [] {
      var last := |events| - 1;
      var init := events[..last];
      AppListsAreExact(init);
      forall p
        ensures SomeForeground(events, p) <==> SomeForeground(init, p) || ForegroundOf(events[last]) == Some(p)
        ensures SomeNotified(events, p) <==> SomeNotified(init, p) || NotifiedOf(events[last]) == Some(p)
      {
        assert forall i :: 0 <= i < last ==> events[i] == init[i];
      }
    }
  }

  function ActivityOf(events: seq<SanitizedEvent>, c: ExtensionCategory): nat {
    if events == [] then 0
    else
      var here := match events[|events| - 1].eventType case FileActivity(_, d, _) => d == c case _ => false;
      ActivityOf(events[..|events| - 1], c) + if here then 1 else 0
  }

  /** File activity is counted per category, and only categories that occur are listed. */
  lemma {:induction false} FileCountsAreExact(events: seq<SanitizedEvent>, c: ExtensionCategory)
    ensures CountIn(FileCounts(events), c) == ActivityOf(events, c)
    ensures c in FileCounts(events) <==> ActivityOf(events, c) > 0
  {
    if events != [] {
      FileCountsAreExact(events[..|events| - 1], c);
    }
  }

  /** Each hint is listed once, and exactly the hints that some notification carries are listed. */
  lemma {:induction false} HintListIsExact(events: seq<SanitizedEvent>)
    ensures Distinct(SemanticHints(events))
    ensures forall h :: h in SemanticHints(events) <==> exists i :: 0 <= i < |events| && h in HintsOf(events[i])
  {
    hide HintsOf;
    if events != [] {
      var init, last := events[..|events| - 1], events[|events| - 1];
      HintListIsExact(init);
      AppendingAddsAll(SemanticHints(init), HintsOf(last));
      forall h ensures (exists i :: 0 <= i < |events| && h in HintsOf(events[i])) <==>
                       h in HintsOf(last) || exists i :: 0 <= i < |init| && h in HintsOf(init[i])
      {
        assert forall i :: 0 <= i < |init| ==> events[i] == init[i];
      }
    }
  }

  lemma {:induction false} AppendingAddsAll(s: seq<SemanticHint>, xs: seq<SemanticHint>)
    requires Distinct(s)
    ensures Distinct(AppendAllNew(s, xs))
    ensures forall h :: h in AppendAllNew(s, xs) <==> h in s || h in xs
  {
    if xs != [] {
      AppendingAddsAll(s, xs[..|xs| - 1]);
      assert xs == xs[..|xs| - 1] + [xs[|xs| - 1]];
    }
  }

  /** The status kept is the one reported last, and there is none only if none was reported. */
  lemma {:induction false} LatestStatusIsLatest(events: seq<SanitizedEvent>)
    ensures LatestStatus(events).None? <==> forall i :: 0 <= i < |events| ==> !events[i].eventType.SystemStatusEvent?
    ensures LatestStatus(events).Some? ==>
              exists i :: 0 <= i < |events| && events[i].eventType == SystemStatusEvent(LatestStatus(events).value)
                          && forall j :: i < j < |events| ==> !events[j].eventType.SystemStatusEvent?
  {
    if events != [] {
      var n := |events| - 1;
      var init := events[..n];
      LatestStatusIsLatest(init);
      assert forall i :: 0 <= i < n ==> events[i] == init[i];
      if events[n].eventType.SystemStatusEvent? {
        assert events[n].eventType == SystemStatusEvent(LatestStatus(events).value);
      } else if LatestStatus(init).Some? {
        var i :| 0 <= i < n && init[i].eventType == SystemStatusEvent(LatestStatus(init).value)
                 && forall j :: i < j < n ==> !init[j].eventType.SystemStatusEvent?;
        assert events[i].eventType == SystemStatusEvent(LatestStatus(events).value);
      }
    }
  }

  /** A window is of the daemon's tier exactly if some event of it is, and of the public tier otherwise. */
  lemma {:induction false} TierIsExact(events: seq<SanitizedEvent>)
    ensures TierOf(events) == if exists i :: 0 <= i < |events| && events[i].sourceTier == Daemon then Daemon else PublicApi
  {
    if events != [] {
      var init := events[..|events| - 1];
      TierIsExact(init);
      assert forall i :: 0 <= i < |init| ==> events[i] == init[i];
    }
  }

  /* ----- The window aggregator ----- */

  const I64_MIN := -0x8000_0000_0000_0000
  const I64_MAX := 0x7fff_ffff_ffff_ffff

  predicate IsI64(n: int) {
    I64_MIN <= n <= I64_MAX
  }

  function SaturatingSub(a: int, b: int): int {
    if a - b < I64_MIN then I64_MIN else if a - b > I64_MAX then I64_MAX else a - b
  }

  class WindowAggregator {
    var buffer: seq<SanitizedEvent>
    const windowSecs: nat
    var windowStartMs: int

    constructor (windowSecs: nat, nowMs: int)
      ensures this.windowSecs == windowSecs && buffer == [] && windowStartMs == nowMs
    {
      this.windowSecs := windowSecs;
      buffer, windowStartMs := [], nowMs;
    }

    method Push(event: SanitizedEvent)
      modifies this`buffer
      ensures buffer == old(buffer) + [event]
    {
      buffer := buffer + [event];
    }

    predicate IsExpired(nowMs: int)
      reads this`windowStartMs
    {
      SaturatingSub(nowMs, windowStartMs) >= windowSecs * 1000
    }

    /** Hands out everything buffered since the previous close, if anything; the next window
        starts at the closing time either way. */
    method Close(nowMs: int) returns (ctx: Option<StructuredContext>)
      modifies this
      ensures buffer == [] && windowStartMs == nowMs
      ensures ctx.None? <==> old(buffer) == []
      ensures ctx.Some? ==>
                ctx.value == StructuredContext(old(windowStartMs), nowMs, DurationSecs(old(windowStartMs), nowMs),
                                               old(buffer), SummaryOf(old(buffer)))
    {
      if buffer == [] {
        windowStartMs := nowMs;
        return None;
      }
      var events := buffer;
      buffer := [];
      var summary := BuildSummary(events);
      ctx := Some(StructuredContext(windowStartMs, nowMs, DurationSecs(windowStartMs, nowMs), events, summary));
      windowStartMs := nowMs;
    }
  }

  /** Whole seconds of a window, never negative, in 32 bits. */
  function DurationSecs(startMs: int, endMs: int): nat {
    (if endMs > startMs then endMs - startMs else 0) / 1000 % 0x1_0000_0000
  }
}
