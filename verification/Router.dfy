/** The decision router: which backend gets a window, and the circuit breaker that falls back to
    doing nothing after repeated failures. */
module Router {
  import opened Wrappers
  import opened Spec

  datatype RouterConfig = RouterConfig(privacyThreshold: nat, breakerThreshold: nat, breakerWindow: nat)

  /* ----- Routing by content ----- */

  function SensitiveHints(hints: seq<SemanticHint>): nat {
    if hints == [] then 0
    else
      SensitiveHints(hints[..|hints| - 1]) +
      if hints[|hints| - 1] in {VerificationCode, FinancialContext} then 1 else 0
  }

  function PrivacyScore(events: seq<SanitizedEvent>): nat {
    if events == [] then 0
    else
      PrivacyScore(events[..|events| - 1]) +
      match events[|events| - 1].eventType
      case Notification(_, hints, _) => SensitiveHints(hints)
      case _ => 0
  }

  predicate IsActionable(event: SanitizedEvent) {
    match event.eventType
    case FileActivity(_, _, _) => true
    case Notification(_, hints, _) => FileMention in hints || ImageMention in hints || LinkAttachment in hints
    case AppTransitionEvent(_, Foreground) => true
    case _ => false
  }

  predicate HasLocalSignal(events: seq<SanitizedEvent>) {
    exists i :: 0 <= i < |events| && IsActionable(events[i])
  }

  function HintTypes(events: seq<SanitizedEvent>): set<SemanticHint> {
    if events == [] then {}
    else
      HintTypes(events[..|events| - 1]) +
      match events[|events| - 1].eventType
      case Notification(_, hints, _) => set h | h in hints
      case _ => {}
  }

  function ContentRoute(config: RouterConfig, cloudReady: bool, ctx: StructuredContext): DecisionRoute {
    if PrivacyScore(ctx.events) > config.privacyThreshold then RuleBased
    else if HasLocalSignal(ctx.events) then LocalEvaluator
    else if |HintTypes(ctx.events)| <= 1 then RuleBased
    else if cloudReady then CloudLlm
    else LocalEvaluator
  }

  /* ----- One call ----- */

  /** What the backends answered: whether each of them reported an error. */
  datatype Answers = Answers(ruleBasedFails: bool, localFails: bool, cloudFails: bool)

  /** One call of the router: the clock when the route is chosen, read twice in a row, and when the
      outcome is noted. */
  datatype Call = Call(ctx: StructuredContext, answers: Answers, routedAt: int, againAt: int, notedAt: int)

  /** A router as it is configured, the earliest instant its clock can represent, and the failure times
      it remembers. */
  datatype RouterState = RouterState(config: RouterConfig, cloudReady: bool, earliest: int, errors: seq<int>)

  /** From when on failures are recent: one window back, or, where the clock cannot represent that
      instant, the second reading of the clock. */
  function Cutoff(now: int, again: int, window: nat, earliest: int): int {
    if now - window >= earliest then now - window else again
  }

  function RecentErrors(errors: seq<int>, cutoff: int): (n: nat)
    ensures n <= |errors|
  {
    if errors == [] then 0
    else RecentErrors(errors[..|errors| - 1], cutoff) + if errors[|errors| - 1] >= cutoff then 1 else 0
  }

  function CutoffAt(s: RouterState, call: Call): int {
    Cutoff(call.routedAt, call.againAt, s.config.breakerWindow, s.earliest)
  }

  function RouteOf(s: RouterState, call: Call): DecisionRoute {
    if RecentErrors(s.errors, CutoffAt(s, call)) >= s.config.breakerThreshold then FallbackNoOp
    else ContentRoute(s.config, s.cloudReady, call.ctx)
  }

  /** Whether the call counts as a failure.  A failing cloud is replaced by the rules, and counts;
      the fallback never does. */
  function Fails(s: RouterState, call: Call): bool {
    match RouteOf(s, call)
    case RuleBased => call.answers.ruleBasedFails
    case LocalEvaluator => call.answers.localFails
    case CloudLlm => if s.cloudReady then call.answers.cloudFails else call.answers.ruleBasedFails
    case FallbackNoOp => false
    case Mock => call.answers.ruleBasedFails
  }

  function Evaluate(s: RouterState, call: Call): RouterState {
    s.(errors := if Fails(s, call) then s.errors + [call.notedAt] else [])
  }

  /** The router as an object: its failure times change behind every call. */
  class DecisionRouter {
    const config: RouterConfig
    const cloudReady: bool
    const earliest: int
    var errors: seq<int>

    function State(): RouterState
      reads this
    {
      RouterState(config, cloudReady, earliest, errors)
    }

    constructor (config: RouterConfig, cloudReady: bool, earliest: int)
      ensures State() == RouterState(config, cloudReady, earliest, [])
    {
      this.config, this.cloudReady, this.earliest, errors := config, cloudReady, earliest, [];
    }

    method CountRecentErrors(now: int, again: int) returns (count: nat)
      ensures count == RecentErrors(errors, Cutoff(now, again, config.breakerWindow, earliest))
    {
      var cutoff := if now - config.breakerWindow >= earliest then now - config.breakerWindow else again;
      count := 0;
      for n := 0 to |errors|
        invariant count == RecentErrors(errors[..n], cutoff)
      {
        assert errors[..n + 1][..n] == errors[..n];
        if errors[n] >= cutoff {
          count := count + 1;
        }
      }
      assert errors[..|errors|] == errors;
    }

    method EvaluateModelInput(call: Call) returns (route: DecisionRoute, failed: bool)
      modifies this`errors
      ensures route == RouteOf(old(State()), call)
      ensures failed == Fails(old(State()), call)
      ensures State() == Evaluate(old(State()), call)
    {
      hide ContentRoute, RecentErrors, Cutoff;
      var count := CountRecentErrors(call.routedAt, call.againAt);
      route := if count >= config.breakerThreshold then FallbackNoOp else ContentRoute(config, cloudReady, call.ctx);
      match route {
        case RuleBased => failed := call.answers.ruleBasedFails;
        case LocalEvaluator => failed := call.answers.localFails;
        case CloudLlm =>
          if cloudReady {
            failed := call.answers.cloudFails;
          } else {
            failed := call.answers.ruleBasedFails;
          }
        case FallbackNoOp => failed := false;
        case Mock => failed := call.answers.ruleBasedFails;
      }
      if failed {
        errors := errors + [call.notedAt];
      } else {
        errors := [];
      }
    }
  }

  /* ----- Runs ----- */

  function StateAfter(s0: RouterState, calls: seq<Call>): RouterState {
    if calls == [] then s0 else Evaluate(StateAfter(s0, calls[..|calls| - 1]), calls[|calls| - 1])
  }

  predicate FailedAt(s0: RouterState, calls: seq<Call>, k: nat)
    requires k < |calls|
  {
    Fails(StateAfter(s0, calls[..k]), calls[k])
  }

  function RouteAt(s0: RouterState, calls: seq<Call>, k: nat): DecisionRoute
    requires k < |calls|
  {
    RouteOf(StateAfter(s0, calls[..k]), calls[k])
  }

  /** How many calls at the end of the run failed in a row. */
  function Streak(s0: RouterState, calls: seq<Call>): (n: nat)
    ensures n <= |calls|
  {
    if calls == [] || !FailedAt(s0, calls, |calls| - 1) then 0
    else 1 + Streak(s0, calls[..|calls| - 1])
  }

  function NotedTimes(calls: seq<Call>): seq<int> {
    seq(|calls|, i requires 0 <= i < |calls| => calls[i].notedAt)
  }

  predicate Monotone(calls: seq<Call>) {
    && (forall k :: 0 <= k < |calls| ==> calls[k].routedAt <= calls[k].againAt <= calls[k].notedAt)
    && (forall j, k :: 0 <= j < k < |calls| ==> calls[j].notedAt <= calls[k].routedAt)
  }

  /** The remembered failures are exactly those since the last call that did not fail. */
  lemma {:induction false} ErrorsAreTheStreak(s0: RouterState, calls: seq<Call>)
    requires s0.errors == []
    ensures StateAfter(s0, calls) == s0.(errors := StateAfter(s0, calls).errors)
    ensures StateAfter(s0, calls).errors == NotedTimes(calls[|calls| - Streak(s0, calls)..])
  {
    hide Fails;
    if calls != [] {
      var last := |calls| - 1;
      ErrorsAreTheStreak(s0, calls[..last]);
      var k := Streak(s0, calls[..last]);
      assert calls[last - k..] == calls[..last][last - k..] + [calls[last]];
    }
  }

  /** A streak is made of failing calls only, and is as long as can be. */
  lemma {:induction false} StreakMeaning(s0: RouterState, calls: seq<Call>)
    ensures forall j :: |calls| - Streak(s0, calls) <= j < |calls| ==> FailedAt(s0, calls, j)
    ensures Streak(s0, calls) < |calls| ==> !FailedAt(s0, calls, |calls| - Streak(s0, calls) - 1)
  {
    hide FailedAt;
    if calls != [] {
      var init := calls[..|calls| - 1];
      StreakMeaning(s0, init);
      forall j | 0 <= j < |init| ensures FailedAt(s0, calls, j) == FailedAt(s0, init, j) {
        SameFailure(s0, calls, j);
      }
    }
  }

  lemma SameFailure(s0: RouterState, calls: seq<Call>, j: nat)
    requires j < |calls| - 1
    ensures FailedAt(s0, calls, j) == FailedAt(s0, calls[..|calls| - 1], j)
  {
    hide Fails, StateAfter;
    assert calls[..j] == calls[..|calls| - 1][..j];
  }

  /** The breaker trips exactly when at least `threshold` of the failures in the current streak
      are recent; in particular at least that many calls in a row have just failed. */
  lemma TripsOnlyAfterStreak(s0: RouterState, calls: seq<Call>, next: Call)
    requires s0.errors == []
    ensures var s := StateAfter(s0, calls);
            var streak := NotedTimes(calls[|calls| - Streak(s0, calls)..]);
            && (RouteOf(s, next) == FallbackNoOp <==>
                RecentErrors(streak, CutoffAt(s0, next)) >= s0.config.breakerThreshold)
            && (RouteOf(s, next) == FallbackNoOp ==> Streak(s0, calls) >= s0.config.breakerThreshold)
  {
    hide ContentRoute, Cutoff, Streak, RecentErrors, StateAfter;
    ErrorsAreTheStreak(s0, calls);
    ContentNeverFallsBack(s0.config, s0.cloudReady, next.ctx);
  }

  lemma ContentNeverFallsBack(config: RouterConfig, cloudReady: bool, ctx: StructuredContext)
    ensures ContentRoute(config, cloudReady, ctx) != FallbackNoOp
  {
  }

  /** Over a run, a window goes to the cloud exactly when the breaker is closed, the cloud is ready, the
      window carries no more sensitive hints than allowed, nothing in it can be handled locally, and
      it shows several kinds of hints. */
  lemma CloudOnlySeesInsensitiveWindows(s0: RouterState, calls: seq<Call>, k: nat)
    requires s0.errors == [] && k < |calls|
    ensures var events := calls[k].ctx.events;
            var streak := NotedTimes(calls[k - Streak(s0, calls[..k])..k]);
            RouteAt(s0, calls, k) == CloudLlm <==>
              && RecentErrors(streak, CutoffAt(s0, calls[k])) < s0.config.breakerThreshold
              && s0.cloudReady
              && PrivacyScore(events) <= s0.config.privacyThreshold
              && (forall i :: 0 <= i < |events| ==> !IsActionable(events[i]))
              && |HintTypes(events)| >= 2
  {
    hide Cutoff, Streak, RecentErrors, StateAfter;
    ErrorsAreTheStreak(s0, calls[..k]);
    var n := Streak(s0, calls[..k]);
    assert calls[..k][k - n..] == calls[k - n..k];
  }

  /** The fallback closes the breaker: it is never chosen twice in a row. */
  lemma NeverFallsBackTwice(s0: RouterState, calls: seq<Call>, k: nat)
    requires s0.errors == [] && s0.config.breakerThreshold >= 1
    requires k + 1 < |calls| && RouteAt(s0, calls, k) == FallbackNoOp
    ensures RouteAt(s0, calls, k + 1) != FallbackNoOp
  {
    hide ContentRoute;
    var s := StateAfter(s0, calls[..k]);
    assert calls[..k + 1][..k] == calls[..k];
    ErrorsAreTheStreak(s0, calls[..k]);
    assert StateAfter(s0, calls[..k + 1]) == Evaluate(s, calls[k]);
    ContentNeverFallsBack(s.config, s.cloudReady, calls[k + 1].ctx);
  }

  lemma {:induction false} FewerAreRecent(errors: seq<int>, early: int, late: int)
    requires early <= late
    ensures RecentErrors(errors, late) <= RecentErrors(errors, early)
  {
    if errors != [] {
      FewerAreRecent(errors[..|errors| - 1], early, late);
    }
  }

  lemma {:induction false} AllAreRecent(errors: seq<int>, cutoff: int)
    requires forall i :: 0 <= i < |errors| ==> errors[i] >= cutoff
    ensures RecentErrors(errors, cutoff) == |errors|
  {
    if errors != [] {
      AllAreRecent(errors[..|errors| - 1], cutoff);
    }
  }

  /* ----- When the recent failures stay within the threshold ----- */

  /** A run from clock value `origin` on, and the two readings at which its failures are counted. */
  predicate RunFrom(origin: int, calls: seq<Call>, now: int, again: int) {
    && Monotone(calls)
    && (calls != [] ==> origin <= calls[0].routedAt && calls[|calls| - 1].notedAt <= now)
    && origin <= now <= again
  }

  /** The clock does not move between its two readings. */
  predicate ReadsOnce(calls: seq<Call>) {
    forall k :: 0 <= k < |calls| ==> calls[k].againAt == calls[k].routedAt
  }

  predicate WithinThreshold(s: RouterState, now: int, again: int) {
    RecentErrors(s.errors, Cutoff(now, again, s.config.breakerWindow, s.earliest)) <= s.config.breakerThreshold
  }

  lemma RunUpToLast(origin: int, calls: seq<Call>, now: int, again: int)
    requires RunFrom(origin, calls, now, again) && calls != []
    ensures var last := calls[|calls| - 1];
            && RunFrom(origin, calls[..|calls| - 1], last.routedAt, last.againAt)
            && origin <= last.routedAt <= last.againAt <= last.notedAt <= now
  {
    var n := |calls| - 1;
    if n > 0 {
      assert calls[0].routedAt <= calls[0].notedAt <= calls[n].routedAt;
      assert calls[n - 1].notedAt <= calls[n].routedAt;
    }
  }

  lemma {:induction false} NotedFromOrigin(origin: int, calls: seq<Call>, now: int, again: int)
    requires RunFrom(origin, calls, now, again)
    ensures forall k :: 0 <= k < |calls| ==> origin <= calls[k].notedAt
  {
    forall k | 0 <= k < |calls| ensures origin <= calls[k].notedAt {
      if k > 0 {
        assert calls[0].notedAt <= calls[k].routedAt;
      }
    }
  }

  /** A failure is only added while fewer than the threshold are recent, so that a cutoff that does not
      move back keeps the bound. */
  lemma StaysBounded(s: RouterState, call: Call, now: int, again: int)
    requires s.config.breakerThreshold >= 1
    requires WithinThreshold(s, call.routedAt, call.againAt)
    requires CutoffAt(s, call) <= Cutoff(now, again, s.config.breakerWindow, s.earliest)
    ensures WithinThreshold(Evaluate(s, call), now, again)
  {
    hide ContentRoute, Cutoff;
    FewerAreRecent(s.errors, CutoffAt(s, call), Cutoff(now, again, s.config.breakerWindow, s.earliest));
    assert (s.errors + [call.notedAt])[..|s.errors|] == s.errors;
  }

  /** Where every remembered failure is recent, a failing call leaves at most the threshold of them. */
  lemma StaysFew(s: RouterState, call: Call, now: int, again: int)
    requires s.config.breakerThreshold >= 1
    requires forall i :: 0 <= i < |s.errors| ==> s.errors[i] >= CutoffAt(s, call)
    ensures WithinThreshold(Evaluate(s, call), now, again)
  {
    hide ContentRoute, CutoffAt, RecentErrors;
    AllAreRecent(s.errors, CutoffAt(s, call));
  }

  /** Whether the run stays clear of an earliest instant that could be less than a window back, or at most
      touches the last instant for which it is. */
  predicate ClockIsOldEnough(s0: RouterState, origin: int, calls: seq<Call>) {
    || s0.earliest + s0.config.breakerWindow <= origin
    || (s0.earliest + s0.config.breakerWindow <= origin + 1 && ReadsOnce(calls))
  }

  lemma {:induction false} RecentErrorsAreBounded(s0: RouterState, origin: int, calls: seq<Call>, now: int, again: int)
    requires s0.errors == [] && s0.config.breakerThreshold >= 1
    requires RunFrom(origin, calls, now, again) && ClockIsOldEnough(s0, origin, calls)
    ensures WithinThreshold(StateAfter(s0, calls), now, again)
  {
    hide Evaluate, RecentErrors, Streak, NotedTimes, RunFrom;
    if calls == [] {
      NoRecentErrors(Cutoff(now, again, s0.config.breakerWindow, s0.earliest));
    } else {
      var n := |calls| - 1;
      var init, last := calls[..n], calls[n];
      RunUpToLast(origin, calls, now, again);
      RecentErrorsAreBounded(s0, origin, init, last.routedAt, last.againAt);
      ErrorsAreTheStreak(s0, init);
      var s := StateAfter(s0, init);
      if last.routedAt - s0.config.breakerWindow >= s0.earliest {
        StaysBounded(s, last, now, again);
      } else {
        assert CutoffAt(s, last) == origin;
        RememberedFromOrigin(s0, origin, init, last.routedAt, last.againAt);
        StaysFew(s, last, now, again);
      }
    }
  }

  lemma RememberedFromOrigin(s0: RouterState, origin: int, calls: seq<Call>, now: int, again: int)
    requires s0.errors == [] && RunFrom(origin, calls, now, again)
    ensures forall i :: 0 <= i < |StateAfter(s0, calls).errors| ==> StateAfter(s0, calls).errors[i] >= origin
  {
    hide Streak, StateAfter, RunFrom;
    ErrorsAreTheStreak(s0, calls);
    NotedFromOrigin(origin, calls, now, again);
  }

  lemma NoRecentErrors(cutoff: int)
    ensures RecentErrors([], cutoff) == 0
  {
  }

  /* ----- When they do not ----- */

  const QUIET := StructuredContext(0, 0, 0, [], ContextSummary([], [], [], map[], None, PublicApi))

  const ALL_FAIL := Answers(true, true, true)

  function Copies<T>(x: T, n: nat): (r: seq<T>)
    ensures |r| == n
  {
    seq(n, _ => x)
  }

  /** As many failures as the threshold allows at the origin, and one more for which the subtraction
      fails after the origin has passed. */
  function Overflow(threshold: nat, origin: int, lastRoutedAt: int): seq<Call> {
    Copies(Call(QUIET, ALL_FAIL, origin, origin, origin), threshold) +
    [Call(QUIET, ALL_FAIL, lastRoutedAt, origin + 1, origin + 1)]
  }

  lemma FailsQuietly(s: RouterState, routedAt: int, againAt: int, notedAt: int)
    requires s.config.breakerThreshold >= 1
    requires routedAt - s.config.breakerWindow < s.earliest
    requires RecentErrors(s.errors, againAt) < s.config.breakerThreshold
    ensures Evaluate(s, Call(QUIET, ALL_FAIL, routedAt, againAt, notedAt)) == s.(errors := s.errors + [notedAt])
  {
    assert ContentRoute(s.config, s.cloudReady, QUIET) == RuleBased;
  }

  lemma {:induction false} FailsAtOrigin(s0: RouterState, origin: int, n: nat)
    requires s0.errors == [] && n <= s0.config.breakerThreshold
    requires origin - s0.config.breakerWindow < s0.earliest
    ensures StateAfter(s0, Copies(Call(QUIET, ALL_FAIL, origin, origin, origin), n)) == s0.(errors := Copies(origin, n))
  {
    hide Evaluate, RecentErrors;
    if n > 0 {
      var calls := Copies(Call(QUIET, ALL_FAIL, origin, origin, origin), n);
      FailsAtOrigin(s0, origin, n - 1);
      assert calls[..n - 1] == Copies(Call(QUIET, ALL_FAIL, origin, origin, origin), n - 1);
      var s := s0.(errors := Copies(origin, n - 1));
      AllAreRecent(s.errors, origin);
      FailsQuietly(s, origin, origin, origin);
      assert Copies(origin, n - 1) + [origin] == Copies(origin, n);
    }
  }

  lemma {:induction false} NoneOfOrigin(origin: int, n: nat)
    ensures RecentErrors(Copies(origin, n), origin + 1) == 0
  {
    if n > 0 {
      NoneOfOrigin(origin, n - 1);
      assert Copies(origin, n)[..n - 1] == Copies(origin, n - 1);
    }
  }

  /** On a clock younger than the window these failures drop out of the count, and are all counted
      once the clock is one window old. */
  lemma YoungClockOverflows(s0: RouterState, origin: int, lastRoutedAt: int)
    requires s0.errors == [] && s0.config.breakerThreshold >= 1 && s0.earliest <= origin
    requires origin <= lastRoutedAt <= origin + 1
    requires lastRoutedAt < s0.earliest + s0.config.breakerWindow
    ensures var calls := Overflow(s0.config.breakerThreshold, origin, lastRoutedAt);
            var now := s0.earliest + s0.config.breakerWindow;
            RunFrom(origin, calls, now, now) && !WithinThreshold(StateAfter(s0, calls), now, now)
  {
    hide Evaluate, RecentErrors;
    var n := s0.config.breakerThreshold;
    var calls, now := Overflow(n, origin, lastRoutedAt), s0.earliest + s0.config.breakerWindow;
    var before := Copies(Call(QUIET, ALL_FAIL, origin, origin, origin), n);
    assert calls[..n] == before;
    FailsAtOrigin(s0, origin, n);
    NoneOfOrigin(origin, n);
    FailsQuietly(s0.(errors := Copies(origin, n)), lastRoutedAt, origin + 1, origin + 1);
    AllAreRecent(Copies(origin, n) + [origin + 1], s0.earliest);
    assert forall k :: 0 <= k < n ==> calls[k] == before[k] && calls[k].notedAt == origin;
  }

  /** The recent failures stay within the threshold in every run from `origin` on exactly if the clock can
      always go back one window: the cutoff subtraction never fails. */
  lemma BoundIsExact(s0: RouterState, origin: int)
    requires s0.errors == [] && s0.config.breakerThreshold >= 1 && s0.earliest <= origin
    ensures (forall calls, now, again :: RunFrom(origin, calls, now, again) ==>
               WithinThreshold(StateAfter(s0, calls), now, again)) <==>
            s0.earliest + s0.config.breakerWindow <= origin
  {
    hide RunFrom, WithinThreshold, StateAfter;
    if s0.earliest + s0.config.breakerWindow <= origin {
      forall calls, now, again | RunFrom(origin, calls, now, again)
        ensures WithinThreshold(StateAfter(s0, calls), now, again)
      {
        RecentErrorsAreBounded(s0, origin, calls, now, again);
      }
    } else {
      YoungClockOverflows(s0, origin, origin);
    }
  }

  /** If the clock never moves between its two readings, one instant more is harmless: the last one at
      which the subtraction fails. */
  lemma BoundIsExactWhenReadOnce(s0: RouterState, origin: int)
    requires s0.errors == [] && s0.config.breakerThreshold >= 1 && s0.earliest <= origin
    ensures (forall calls, now, again :: RunFrom(origin, calls, now, again) && ReadsOnce(calls) ==>
               WithinThreshold(StateAfter(s0, calls), now, again)) <==>
            s0.earliest + s0.config.breakerWindow <= origin + 1
  {
    hide RunFrom, WithinThreshold, StateAfter;
    if s0.earliest + s0.config.breakerWindow <= origin + 1 {
      forall calls, now, again | RunFrom(origin, calls, now, again) && ReadsOnce(calls)
        ensures WithinThreshold(StateAfter(s0, calls), now, again)
      {
        RecentErrorsAreBounded(s0, origin, calls, now, again);
      }
    } else {
      YoungClockOverflows(s0, origin, origin + 1);
      assert ReadsOnce(Overflow(s0.config.breakerThreshold, origin, origin + 1));
    }
  }
}
