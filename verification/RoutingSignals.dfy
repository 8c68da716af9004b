/** What in a window decides its route, said of the events themselves. */
module RoutingSignals {
  import opened Spec
  import opened Router

  /* ----- Sensitive hints ----- */

  /** A place in a window: the event's position, and the hint's position in its notification. */
  datatype Place = Place(event: nat, hint: nat)

  predicate IsSensitive(hint: SemanticHint) {
    hint == VerificationCode || hint == FinancialContext
  }

  predicate IsSensitivePlace(events: seq<SanitizedEvent>, p: Place) {
    && p.event < |events| && events[p.event].eventType.Notification?
    && p.hint < |events[p.event].eventType.semanticHints|
    && IsSensitive(events[p.event].eventType.semanticHints[p.hint])
  }

  /** All places of a window that hold a sensitive hint. */
  function SensitivePlaces(events: seq<SanitizedEvent>): (places: set<Place>)
    ensures forall p :: p in places <==> IsSensitivePlace(events, p)
  {
    if events == [] then {}
    else
      var last := |events| - 1;
      var init := events[..last];
      assert forall p: Place :: p.event < last ==> IsSensitivePlace(init, p) == IsSensitivePlace(events, p);
      SensitivePlaces(init) +
      match events[last].eventType
      case Notification(_, hints, _) => PlacesIn(hints, last)
      case _ => {}
  }

  function PlacesIn(hints: seq<SemanticHint>, event: nat): set<Place> {
    set j: nat | j < |hints| && IsSensitive(hints[j]) :: Place(event, j)
  }

  lemma {:induction false} HintsAreCounted(hints: seq<SemanticHint>, event: nat)
    ensures SensitiveHints(hints) == |PlacesIn(hints, event)|
  {
    if hints == [] {
      assert PlacesIn(hints, event) == {};
    } else {
      var n := |hints| - 1;
      var before := PlacesIn(hints[..n], event);
      HintsAreCounted(hints[..n], event);
      assert PlacesIn(hints, event) == before + if IsSensitive(hints[n]) then {Place(event, n)} else {};
      assert Place(event, n) !in before;
    }
  }

  /** The privacy score is the number of places that hold a verification code or a financial context. */
  lemma {:induction false} ScoreCountsPlaces(events: seq<SanitizedEvent>)
    ensures PrivacyScore(events) == |SensitivePlaces(events)|
  {
    hide SensitiveHints, IsSensitive;
    if events != [] {
      var last := |events| - 1;
      var earlier := SensitivePlaces(events[..last]);
      ScoreCountsPlaces(events[..last]);
      match events[last].eventType {
        case Notification(_, hints, _) =>
          HintsAreCounted(hints, last);
          assert earlier !! PlacesIn(hints, last);
        case _ =>
          assert earlier + {} == earlier;
      }
    }
  }

  /* ----- Local signals and kinds of hints ----- */

  /** An event that can be handled locally: file activity, an app coming to the foreground, or a notification
      that mentions a file or an image or has a link attached. */
  predicate IsLocal(event: SanitizedEvent) {
    || event.eventType.FileActivity?
    || (event.eventType.AppTransitionEvent? && event.eventType.transition == Foreground)
    || (event.eventType.Notification? &&
        exists j :: 0 <= j < |event.eventType.semanticHints| &&
          (event.eventType.semanticHints[j] == FileMention || event.eventType.semanticHints[j] == ImageMention ||
           event.eventType.semanticHints[j] == LinkAttachment))
  }

  lemma LocalSignalIsExact(events: seq<SanitizedEvent>)
    ensures HasLocalSignal(events) <==> exists i :: 0 <= i < |events| && IsLocal(events[i])
  {
    forall event: SanitizedEvent ensures IsActionable(event) <==> IsLocal(event) {
      match event.eventType {
        case Notification(_, hints, _) =>
          assert forall j :: 0 <= j < |hints| ==> hints[j] in hints;
        case _ =>
      }
    }
  }

  /** Some notification of the window carries the hint. */
  predicate Carries(events: seq<SanitizedEvent>, hint: SemanticHint) {
    exists i :: 0 <= i < |events| && events[i].eventType.Notification? && hint in events[i].eventType.semanticHints
  }

  lemma {:induction false} HintTypesAreExact(events: seq<SanitizedEvent>)
    ensures forall hint :: hint in HintTypes(events) <==> Carries(events, hint)
  {
    if events != [] {
      var last := |events| - 1;
      var init := events[..last];
      HintTypesAreExact(init);
      assert forall i :: 0 <= i < last ==> events[i] == init[i];
    }
  }

  /** At least two different hints occur in the window's notifications. */
  predicate SeveralKinds(events: seq<SanitizedEvent>) {
    exists g, h :: g != h && Carries(events, g) && Carries(events, h)
  }

  lemma TwoMembers(kinds: set<SemanticHint>)
    ensures |kinds| >= 2 <==> exists g, h :: g != h && g in kinds && h in kinds
  {
    if |kinds| >= 2 {
      var g :| g in kinds;
      assert |kinds - {g}| >= 1;
      var h :| h in kinds - {g};
      assert g != h && g in kinds && h in kinds;
    } else if |kinds| == 1 {
      var g :| g in kinds;
      assert |kinds - {g}| == 0 && kinds == {g} + (kinds - {g});
      assert forall h :: h in kinds ==> h == g;
    }
  }

  lemma SeveralKindsAreTwo(events: seq<SanitizedEvent>)
    ensures |HintTypes(events)| >= 2 <==> SeveralKinds(events)
  {
    hide HintTypes, Carries;
    HintTypesAreExact(events);
    TwoMembers(HintTypes(events));
  }

  /* ----- Routes over runs ----- */

  /** How many of the failures since the last call that did not fail are recent. */
  function RecentFailures(s0: RouterState, calls: seq<Call>, k: nat): nat
    requires k < |calls|
  {
    RecentErrors(NotedTimes(calls[k - Streak(s0, calls[..k])..k]), CutoffAt(s0, calls[k]))
  }

  /** Over every run, what decides a call's route, in this order: the breaker, too many sensitive hints, a local
      signal, too few kinds of hints, and whether the cloud is ready. */
  lemma RouteIsExact(s0: RouterState, calls: seq<Call>, k: nat)
    requires s0.errors == [] && k < |calls|
    ensures var events := calls[k].ctx.events;
            RouteAt(s0, calls, k) ==
            if RecentFailures(s0, calls, k) >= s0.config.breakerThreshold then FallbackNoOp
            else if |SensitivePlaces(events)| > s0.config.privacyThreshold then RuleBased
            else if exists i :: 0 <= i < |events| && IsLocal(events[i]) then LocalEvaluator
            else if !SeveralKinds(events) then RuleBased
            else if s0.cloudReady then CloudLlm
            else LocalEvaluator
  {
    hide Cutoff, Streak, RecentErrors, StateAfter, PrivacyScore, HasLocalSignal, HintTypes, IsLocal, SensitivePlaces, SeveralKinds;
    var events := calls[k].ctx.events;
    ScoreCountsPlaces(events);
    LocalSignalIsExact(events);
    SeveralKindsAreTwo(events);
    ErrorsAreTheStreak(s0, calls[..k]);
    var n := Streak(s0, calls[..k]);
    assert calls[..k][k - n..] == calls[k - n..k];
  }

  /** Whatever the run, a window with more sensitive hints than allowed never reaches the cloud: it goes to the
      rules, or the breaker is open. */
  lemma SensitiveWindowsStayLocal(s0: RouterState, calls: seq<Call>, k: nat)
    requires s0.errors == [] && k < |calls|
    requires |SensitivePlaces(calls[k].ctx.events)| > s0.config.privacyThreshold
    ensures RouteAt(s0, calls, k) == RuleBased || RouteAt(s0, calls, k) == FallbackNoOp
    ensures RouteAt(s0, calls, k) == RuleBased <==> RecentFailures(s0, calls, k) < s0.config.breakerThreshold
  {
    hide RouteAt, RecentFailures, SensitivePlaces, IsLocal, SeveralKinds;
    RouteIsExact(s0, calls, k);
  }

  /** A call fails exactly when the backend that answers it reports an error; a call that falls back never does. */
  lemma FailureIsExact(s0: RouterState, calls: seq<Call>, k: nat)
    requires k < |calls|
    ensures var route, answers := RouteAt(s0, calls, k), calls[k].answers;
            FailedAt(s0, calls, k) <==>
              || (route == RuleBased && answers.ruleBasedFails)
              || (route == LocalEvaluator && answers.localFails)
              || (route == CloudLlm && answers.cloudFails)
  {
    hide StateAfter, RecentErrors, PrivacyScore, HasLocalSignal, HintTypes;
    StateKeepsCloud(s0, calls[..k]);
  }

  lemma {:induction false} StateKeepsCloud(s0: RouterState, calls: seq<Call>)
    ensures StateAfter(s0, calls).cloudReady == s0.cloudReady
  {
    hide Fails;
    if calls != [] {
      StateKeepsCloud(s0, calls[..|calls| - 1]);
    }
  }

  function RecentPlaces(errors: seq<int>, cutoff: int): set<int> {
    set i | 0 <= i < |errors| && errors[i] >= cutoff
  }

  /** The recent failures are the remembered times at or after the cutoff, each counted once. */
  lemma {:induction false} RecentErrorsAreCounted(errors: seq<int>, cutoff: int)
    ensures RecentErrors(errors, cutoff) == |RecentPlaces(errors, cutoff)|
  {
    if errors == [] {
      assert RecentPlaces(errors, cutoff) == {};
    } else {
      var n := |errors| - 1;
      RecentErrorsAreCounted(errors[..n], cutoff);
      assert RecentPlaces(errors, cutoff) == RecentPlaces(errors[..n], cutoff) + if errors[n] >= cutoff then {n} else {};
    }
  }
}
