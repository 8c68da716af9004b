/** The scores of prewarms that were proved right or wrong, against the history of their outcomes. */
module PrewarmScores {
  import opened Memory

  /** The two kinds of outcome a waiting prewarm can come to. */
  datatype Outcome = Opened | NotOpened

  function TallyFor(outcome: Outcome, s: Store): Tally {
    match outcome case Opened => s.hits case NotOpened => s.misses
  }

  function FateFor(outcome: Outcome, at: nat): Fate {
    match outcome case Opened => Hit(at) case NotOpened => Miss(at)
  }

  /** The packages of the registrations whose look-ahead comes to this outcome in window `at`, in the order
      in which they were registered. */
  function SettledIn(windows: seq<Window>, regs: seq<Registered>, horizon: nat, at: nat, outcome: Outcome): seq<string>
    requires at < |windows|
  {
    if regs == [] then []
    else
      var r := regs[|regs| - 1];
      SettledIn(windows, regs[..|regs| - 1], horizon, at, outcome) +
      if RegistrationFate(windows, r, horizon, at + 1) == FateFor(outcome, at) then [r.prewarm.package] else []
  }

  /** Outcomes are noted before the fade of their window, unlike everything else the store notes. */
  function OutcomeHistory(windows: seq<Window>, seen: nat, horizon: nat, outcome: Outcome): seq<Event>
    requires seen <= |windows|
  {
    if seen == 0 then []
    else
      OutcomeHistory(windows, seen - 1, horizon, outcome) +
      SeenAll(SettledIn(windows, AllRegistered(windows, seen - 1), horizon, seen - 1, outcome)) + [Faded]
  }

  /** Resolving the queue notes exactly the outcomes that fall in the window. */
  lemma {:induction false} ResolvingNotes(s: Store, windows: seq<Window>, regs: seq<Registered>, seen: nat, outcome: Outcome)
    requires seen < |windows| && ValidStore(s) && s.pending == []
    requires forall i :: 0 <= i < |regs| ==> regs[i].at < seen
    ensures var s' := ResolveAll(s, StillWaiting(windows, regs, s.horizon, seen), windows[seen].summary.foregroundApps);
            && s'.horizon == s.horizon
            && TallyFor(outcome, s') == NoteAll(TallyFor(outcome, s), SettledIn(windows, regs, s.horizon, seen, outcome))
  {
    hide Look, ResolveOne, Note, FateOf, NoteAll, StillWaiting, HitsOn, MissesOn, ResolveAll, RegistrationFate;
    var apps := windows[seen].summary.foregroundApps;
    if regs == [] {
      NothingToResolve(s, windows, seen);
      NoteNone(TallyFor(outcome, s));
    } else {
      var init, r := regs[..|regs| - 1], regs[|regs| - 1];
      assert init + [r] == regs;
      ResolvingNotes(s, windows, init, seen, outcome);
      var waiting := StillWaiting(windows, init, s.horizon, seen);
      var s1 := ResolveAll(s, waiting, apps);
      ResolvingTouchesOnlyPrewarms(s, waiting, apps);
      ResolvingOneLooksFurther(s1, windows, r, seen);
      SettledNow(windows, r, s.horizon, seen);
      WithOneMore(windows, init, r, s.horizon, seen);
      ResolveOneMore(s, waiting, r.prewarm.(windowsObserved := seen - 1 - r.at), apps);
      NoteOneMore(TallyFor(outcome, s), SettledIn(windows, init, s.horizon, seen, outcome), r.prewarm.package);
      assert waiting + [] == waiting;
    }
  }

  /** What was settled earlier is not settled again, and what is settled now is so in this window. */
  lemma SettledNow(windows: seq<Window>, r: Registered, horizon: nat, seen: nat)
    requires seen < |windows| && horizon >= 1 && r.at < seen
    ensures var before := RegistrationFate(windows, r, horizon, seen);
            var now := RegistrationFate(windows, r, horizon, seen + 1);
            && (!before.Waiting? ==> now != Hit(seen) && now != Miss(seen))
            && (before.Waiting? ==> now in {Hit(seen), Miss(seen), Waiting})
  {
    hide Look;
    LookOneFurther(windows, r.prewarm.package, r.at + 1, r.at + horizon, seen);
    FateIsFirstShowing(windows, r.prewarm.package, r.at, horizon, seen);
  }

  lemma ObservingOutcomes(s: Store, w: Window, outcome: Outcome)
    ensures TallyFor(outcome, Observe(s, w)) ==
            Decay(TallyFor(outcome, ResolvePending(s, w.summary.foregroundApps)), DecayFactor(s))
    ensures Observe(s, w).decayMilli == s.decayMilli
  {
    hide Note, Decay, NoteAll, Registrations, ResolveAll, HintNames, Ended;
    ResolvingTouchesOnlyPrewarms(s.(pending := []), s.pending, w.summary.foregroundApps);
  }

  lemma {:induction false} OutcomesHaveHistory(decayMilli: nat, horizon: nat, windows: seq<Window>, seen: nat, outcome: Outcome)
    requires seen <= |windows|
    ensures var s := ObserveAll(NewStore(decayMilli, horizon), windows[..seen]);
            && DecayFactor(s) == DecayFactor(NewStore(decayMilli, horizon))
            && TallyFor(outcome, s) == After(OutcomeHistory(windows, seen, s.horizon, outcome), DecayFactor(s))
  {
    hide Observe, ResolveAll, Registrations, StillWaiting, HitsOn, MissesOn, CountOf, Decay, NoteAll, SettledIn;
    hide AllRegistered;
    QueueIsLookAhead(decayMilli, horizon, windows, seen);
    if seen > 0 {
      var n := seen - 1;
      var s := ObserveAll(NewStore(decayMilli, horizon), windows[..n]);
      var regs := AllRegistered(windows, n);
      OutcomesHaveHistory(decayMilli, horizon, windows, n, outcome);
      QueueIsLookAhead(decayMilli, horizon, windows, n);
      assert windows[..seen][..n] == windows[..n];
      ObservingOutcomes(s, windows[n], outcome);
      ResolvingNotes(s.(pending := []), windows, regs, n, outcome);
      var before := OutcomeHistory(windows, n, s.horizon, outcome);
      var settled := SettledIn(windows, regs, s.horizon, n, outcome);
      AfterSightings(before, settled, DecayFactor(s));
      AfterFade(before + SeenAll(settled), DecayFactor(s));
    }
  }

  /** Over any run from a new store the momentum of hits and of misses tracks the exact discounted sum of the
      look-ahead's outcomes, window by window, and their counts are the outcomes' numbers. */
  lemma OutcomesTrackRun(decayMilli: nat, horizon: nat, windows: seq<Window>, outcome: Outcome, package: string)
    ensures var s := ObserveAll(NewStore(decayMilli, horizon), windows);
            var history := OutcomeHistory(windows, |windows|, s.horizon, outcome);
            && Tracks(TallyFor(outcome, s), Discounted(history, DecayFactor(s), package), package)
            && CountOf(TallyFor(outcome, s), package) == Sightings(history, package)
  {
    hide Tracks, Observe, OutcomeHistory, ObserveAll;
    assert windows[..|windows|] == windows;
    OutcomesHaveHistory(decayMilli, horizon, windows, |windows|, outcome);
    var s := ObserveAll(NewStore(decayMilli, horizon), windows);
    MomentumTracksHistory(OutcomeHistory(windows, |windows|, s.horizon, outcome), DecayFactor(s), package);
  }
}
