/** The model memory: decayed, pruned scores standing in for a discounted history, and a queue of
    prewarms waiting to be proved right or wrong. */
module Memory {
  import opened Wrappers
  import opened Spec
  import opened Text
  import Context
  import Sorting
  import Lifecycle
  import Policy

  /* ----- Scores that fade ----- */

  /** How often each key was seen, and how much of that still matters. */
  datatype Tally = Tally(counts: map<string, nat>, momentum: map<string, real>)

  const EMPTY_TALLY := Tally(map[], map[])

  function CountOf(t: Tally, key: string): nat {
    if key in t.counts then t.counts[key] else 0
  }

  function MomentumOf(t: Tally, key: string): real {
    if key in t.momentum then t.momentum[key] else 0.0
  }

  function Note(t: Tally, key: string): Tally {
    Tally(t.counts[key := CountOf(t, key) + 1], t.momentum[key := MomentumOf(t, key) + 1.0])
  }

  function NoteAll(t: Tally, keys: seq<string>): Tally {
    if keys == [] then t else Note(NoteAll(t, keys[..|keys| - 1]), keys[|keys| - 1])
  }

  const PRUNE_BELOW := 0.01

  /** One window's decay: scores that fall under the threshold are forgotten. */
  function Decay(t: Tally, decay: real): Tally {
    if decay <= 0.0 then t.(momentum := map[])
    else t.(momentum := map k | k in t.momentum && Fade(t.momentum[k], decay) >= PRUNE_BELOW :: Fade(t.momentum[k], decay))
  }

  /* ----- The history they stand in for ----- */

  /** What happened to a tally, oldest first. */
  datatype Event = Seen(key: string) | Faded

  function After(events: seq<Event>, decay: real): Tally {
    if events == [] then EMPTY_TALLY
    else match events[|events| - 1]
      case Seen(key) => Note(After(events[..|events| - 1], decay), key)
      case Faded => Decay(After(events[..|events| - 1], decay), decay)
  }

  /** The exact discounted sum: each sighting counts one, times the decay for every fade since. */
  function Discounted(events: seq<Event>, decay: real, key: string): real {
    if events == [] then 0.0
    else
      var earlier := Discounted(events[..|events| - 1], decay, key);
      match events[|events| - 1]
      case Seen(k) => if k == key then earlier + 1.0 else earlier
      case Faded => Fade(earlier, decay)
  }

  function Fade(score: real, decay: real): real {
    if decay <= 0.0 then 0.0 else score * decay
  }

  function Sightings(events: seq<Event>, key: string): nat {
    if events == [] then 0
    else Sightings(events[..|events| - 1], key) + if events[|events| - 1] == Seen(key) then 1 else 0
  }

  /** Pruning loses little: the kept score never exceeds the exact one; for a key still present
      it is short by at most a 99th of itself, and an absent key is owed at most a 99th. */
  predicate Tracks(t: Tally, exact: real, key: string) {
    && MomentumOf(t, key) <= exact
    && (key in t.momentum ==> 0.0 < t.momentum[key] && (exact - t.momentum[key]) * 99.0 <= t.momentum[key])
    && (key !in t.momentum ==> exact * 99.0 <= 1.0)
  }

  lemma SeenTracks(t: Tally, exact: real, seen: string, key: string)
    requires Tracks(t, exact, key)
    ensures Tracks(Note(t, seen), if seen == key then exact + 1.0 else exact, key)
  {
  }

  /** The step that prunes. */
  lemma FadeTracks(t: Tally, exact: real, decay: real, key: string)
    requires 0.0 <= decay < 1.0 && Tracks(t, exact, key)
    ensures Tracks(Decay(t, decay), Fade(exact, decay), key)
  {
    hide Fade;
    if decay <= 0.0 {
      ClearedFade(exact, decay);
    } else {
      AbsentFades(exact, decay);
      if key in t.momentum {
        GapFades(t.momentum[key], exact, decay);
        LittleIsOwed(Fade(t.momentum[key], decay), Fade(exact, decay));
      }
    }
  }

  lemma ClearedFade(exact: real, decay: real)
    requires decay <= 0.0
    ensures Fade(exact, decay) == 0.0
  {
  }

  lemma AbsentFades(exact: real, decay: real)
    requires 0.0 < decay < 1.0
    ensures 0.0 <= exact ==> 0.0 <= Fade(exact, decay) <= exact
  {
    if 0.0 <= exact {
      Scale(0.0, exact, decay);
    }
  }

  lemma LittleIsOwed(kept: real, exact: real)
    requires (exact - kept) * 99.0 <= kept
    ensures kept < PRUNE_BELOW ==> exact * 99.0 <= 1.0
  {
  }

  lemma GapFades(kept: real, exact: real, decay: real)
    requires 0.0 < decay < 1.0 && 0.0 < kept <= exact && (exact - kept) * 99.0 <= kept
    ensures 0.0 < Fade(kept, decay) <= Fade(exact, decay)
    ensures (Fade(exact, decay) - Fade(kept, decay)) * 99.0 <= Fade(kept, decay)
  {
    Scale(kept, exact, decay);
    Scale((exact - kept) * 99.0, kept, decay);
  }

  /** Over any history the score tracks the exact sum, and the count is exact. */
  lemma {:induction false} MomentumTracksHistory(events: seq<Event>, decay: real, key: string)
    requires 0.0 <= decay < 1.0
    ensures Tracks(After(events, decay), Discounted(events, decay, key), key)
    ensures CountOf(After(events, decay), key) == Sightings(events, key)
  {
    hide Tracks, Fade;
    if events == [] {
      NothingTracked(key);
    } else {
      var earlier := events[..|events| - 1];
      MomentumTracksHistory(earlier, decay, key);
      match events[|events| - 1] {
        case Seen(seen) => SeenTracks(After(earlier, decay), Discounted(earlier, decay, key), seen, key);
        case Faded => FadeTracks(After(earlier, decay), Discounted(earlier, decay, key), decay, key);
      }
    }
  }

  lemma NothingTracked(key: string)
    ensures Tracks(EMPTY_TALLY, 0.0, key)
  {
  }

  lemma Scale(a: real, b: real, decay: real)
    requires a <= b && 0.0 < decay < 1.0
    ensures a * decay <= b * decay
    ensures 0.0 <= b ==> b * decay <= b
  {
    assert (b - a) * decay >= 0.0;
  }

  /* ----- The store ----- */

  /** A prewarm that succeeded and now waits for its app to be opened. */
  datatype PendingPrewarm = PendingPrewarm(target: string, package: string, windowsObserved: nat)

  datatype Store = Store(
    decayMilli: nat,
    horizon: nat,
    observationWindows: nat,
    foreground: Tally,
    notifying: Tally,
    hints: Tally,
    successes: Tally,
    denials: Tally,
    failures: Tally,
    hits: Tally,
    misses: Tally,
    pending: seq<PendingPrewarm>)

  /** One window as the store observes it. */
  datatype Window = Window(summary: ContextSummary, records: seq<Lifecycle.AuditRecord>)

  predicate ValidStore(s: Store) {
    s.decayMilli <= 999 && 1 <= s.horizon <= 20
  }

  function DecayFactor(s: Store): real {
    s.decayMilli as real / 1000.0
  }

  function NewStore(decayMilli: nat, horizon: nat): Store {
    var t := EMPTY_TALLY;
    Store(if decayMilli > 999 then 999 else decayMilli,
          if horizon < 1 then 1 else if horizon > 20 then 20 else horizon,
          0, t, t, t, t, t, t, t, t, [])
  }

  const U8_MAX := 255
  const U32_MAX := 0xffff_ffff

  function SaturatingIncrement(n: nat, max: nat): nat {
    if n < max then n + 1 else max
  }

  function ResolveOne(s: Store, prewarm: PendingPrewarm, foregroundApps: seq<string>): Store {
    var p := prewarm.(windowsObserved := SaturatingIncrement(prewarm.windowsObserved, U8_MAX));
    if p.package in foregroundApps then s.(hits := Note(s.hits, p.package))
    else if p.windowsObserved >= s.horizon then s.(misses := Note(s.misses, p.package))
    else s.(pending := s.pending + [p])
  }

  function ResolveAll(s: Store, prewarms: seq<PendingPrewarm>, foregroundApps: seq<string>): Store {
    if prewarms == [] then s
    else
      ResolveOne(ResolveAll(s, prewarms[..|prewarms| - 1], foregroundApps), prewarms[|prewarms| - 1], foregroundApps)
  }

  function ResolvePending(s: Store, foregroundApps: seq<string>): Store {
    ResolveAll(s.(pending := []), s.pending, foregroundApps)
  }

  function DecayAll(s: Store): Store {
    var d := DecayFactor(s);
    s.(foreground := Decay(s.foreground, d), notifying := Decay(s.notifying, d), hints := Decay(s.hints, d),
       successes := Decay(s.successes, d), denials := Decay(s.denials, d), failures := Decay(s.failures, d),
       hits := Decay(s.hits, d), misses := Decay(s.misses, d))
  }

  function HintName(hint: SemanticHint): string {
    match hint
    case FileMention => "FileMention"
    case ImageMention => "ImageMention"
    case AudioMessage => "AudioMessage"
    case LinkAttachment => "LinkAttachment"
    case UserMentioned => "UserMentioned"
    case CalendarInvitation => "CalendarInvitation"
    case FinancialContext => "FinancialContext"
    case VerificationCode => "VerificationCode"
  }

  function HintNames(hints: seq<SemanticHint>): seq<string> {
    seq(|hints|, i requires 0 <= i < |hints| => HintName(hints[i]))
  }

  /** The action names of the records that ended in one of `states`, in order. */
  function Ended(records: seq<Lifecycle.AuditRecord>, states: set<ActionState>): seq<string> {
    if records == [] then []
    else
      var last := records[|records| - 1];
      Ended(records[..|records| - 1], states) + if last.terminal in states then [Policy.ActionName(last.actionType)] else []
  }

  const SUCCESS := {Succeeded}
  const DENIAL := {DeniedByCapability, DeniedByPolicy, RejectedInvalidSchema}
  const FAILURE := {Failed}

  function NoteWindow(s: Store, w: Window): Store {
    s.(observationWindows := SaturatingIncrement(s.observationWindows, U32_MAX),
       foreground := NoteAll(s.foreground, w.summary.foregroundApps),
       notifying := NoteAll(s.notifying, w.summary.notifiedApps),
       hints := NoteAll(s.hints, HintNames(w.summary.semanticHints)),
       successes := NoteAll(s.successes, Ended(w.records, SUCCESS)),
       denials := NoteAll(s.denials, Ended(w.records, DENIAL)),
       failures := NoteAll(s.failures, Ended(w.records, FAILURE)))
  }

  /** The package a prewarm target names, without surrounding blanks; none if there is none. */
  function NormalizePackage(target: string): Option<string> {
    var package := StripPrefix(target, "pkg:");
    if package.Some? && Trim(package.value) != "" then Some(Trim(package.value)) else None
  }

  function Registration(record: Lifecycle.AuditRecord): seq<PendingPrewarm> {
    if record.actionType != PreWarmProcess || record.terminal != Succeeded || record.target.None? then []
    else
      var package := NormalizePackage(record.target.value);
      if package.None? then [] else [PendingPrewarm(record.target.value, package.value, 0)]
  }

  function Registrations(records: seq<Lifecycle.AuditRecord>): seq<PendingPrewarm> {
    if records == [] then []
    else Registrations(records[..|records| - 1]) + Registration(records[|records| - 1])
  }

  function Observe(s: Store, w: Window): Store {
    var s1 := NoteWindow(DecayAll(ResolvePending(s, w.summary.foregroundApps)), w);
    s1.(pending := s1.pending + Registrations(w.records))
  }

  function ObserveAll(s: Store, windows: seq<Window>): Store {
    if windows == [] then s else Observe(ObserveAll(s, windows[..|windows| - 1]), windows[|windows| - 1])
  }

  /** The store as an object whose fields are updated window by window. */
  class ModelMemoryStore {
    var decayMilli: nat
    var horizon: nat
    var observationWindows: nat
    var foreground: Tally
    var notifying: Tally
    var hints: Tally
    var successes: Tally
    var denials: Tally
    var failures: Tally
    var hits: Tally
    var misses: Tally
    var pending: seq<PendingPrewarm>

    function State(): Store
      reads this
    {
      Store(decayMilli, horizon, observationWindows, foreground, notifying, hints, successes, denials, failures,
            hits, misses, pending)
    }

    constructor (decayMilli: nat, horizon: nat)
      ensures State() == NewStore(decayMilli, horizon)
      ensures ValidStore(State())
    {
      this.decayMilli := if decayMilli > 999 then 999 else decayMilli;
      this.horizon := if horizon < 1 then 1 else if horizon > 20 then 20 else horizon;
      observationWindows := 0;
      foreground, notifying, hints, successes := EMPTY_TALLY, EMPTY_TALLY, EMPTY_TALLY, EMPTY_TALLY;
      denials, failures, hits, misses := EMPTY_TALLY, EMPTY_TALLY, EMPTY_TALLY, EMPTY_TALLY;
      pending := [];
    }

    method ResolvePendingPrewarms(foregroundApps: seq<string>)
      modifies this`hits, this`misses, this`pending
      ensures State() == ResolvePending(old(State()), foregroundApps)
    {
      hide Note;
      var waiting := pending;
      pending := [];
      var stillPending := [];
      ghost var s0 := State();
      for n := 0 to |waiting|
        invariant pending == []
        invariant State().(pending := stillPending) == ResolveAll(s0, waiting[..n], foregroundApps)
      {
        assert waiting[..n + 1][..n] == waiting[..n];
        var prewarm := waiting[n].(windowsObserved := SaturatingIncrement(waiting[n].windowsObserved, U8_MAX));
        if prewarm.package in foregroundApps {
          hits := Note(hits, prewarm.package);
        } else if prewarm.windowsObserved >= horizon {
          misses := Note(misses, prewarm.package);
        } else {
          stillPending := stillPending + [prewarm];
        }
      }
      assert waiting[..|waiting|] == waiting;
      pending := stillPending;
    }

    method DecayMomentum()
      modifies this
      ensures State() == DecayAll(old(State()))
    {
      hide Decay;
      var d := decayMilli as real / 1000.0;
      foreground, notifying, hints := Decay(foreground, d), Decay(notifying, d), Decay(hints, d);
      successes, denials, failures := Decay(successes, d), Decay(denials, d), Decay(failures, d);
      hits, misses := Decay(hits, d), Decay(misses, d);
    }

    method NoteRecords(records: seq<Lifecycle.AuditRecord>)
      modifies this`successes, this`denials, this`failures
      ensures successes == NoteAll(old(successes), Ended(records, SUCCESS))
      ensures denials == NoteAll(old(denials), Ended(records, DENIAL))
      ensures failures == NoteAll(old(failures), Ended(records, FAILURE))
    {
      hide Note, NoteAll, Policy.ActionName;
      NoteNone(successes);
      NoteNone(denials);
      NoteNone(failures);
      for n := 0 to |records|
        invariant successes == NoteAll(old(successes), Ended(records[..n], SUCCESS))
        invariant denials == NoteAll(old(denials), Ended(records[..n], DENIAL))
        invariant failures == NoteAll(old(failures), Ended(records[..n], FAILURE))
      {
        var action := Policy.ActionName(records[n].actionType);
        ghost var before := (Ended(records[..n], SUCCESS), Ended(records[..n], DENIAL), Ended(records[..n], FAILURE));
        NoteOneMore(old(successes), before.0, action);
        NoteOneMore(old(denials), before.1, action);
        NoteOneMore(old(failures), before.2, action);
        EndedOneMore(records[..n], records[n]);
        assert records[..n + 1] == records[..n] + [records[n]];
        match records[n].terminal {
          case Succeeded => successes := Note(successes, action);
          case DeniedByCapability | DeniedByPolicy | RejectedInvalidSchema => denials := Note(denials, action);
          case Failed => failures := Note(failures, action);
          case _ =>
        }
      }
      assert records[..|records|] == records;
    }

    method RegisterPendingPrewarms(records: seq<Lifecycle.AuditRecord>)
      modifies this`pending
      ensures pending == old(pending) + Registrations(records)
    {
      for n := 0 to |records|
        invariant pending == old(pending) + Registrations(records[..n])
      {
        assert records[..n + 1][..n] == records[..n];
        pending := pending + Registration(records[n]);
      }
      assert records[..|records|] == records;
    }

    method ObserveWindow(w: Window)
      modifies this
      ensures State() == Observe(old(State()), w)
    {
      hide Note, Decay, NoteAll, Registrations, ResolveAll, HintNames, Ended;
      ResolvePendingPrewarms(w.summary.foregroundApps);
      DecayMomentum();
      observationWindows := SaturatingIncrement(observationWindows, U32_MAX);
      foreground := NoteEach(foreground, w.summary.foregroundApps);
      notifying := NoteEach(notifying, w.summary.notifiedApps);
      hints := NoteEach(hints, HintNames(w.summary.semanticHints));
      NoteRecords(w.records);
      RegisterPendingPrewarms(w.records);
    }
  }

  method NoteEach(t0: Tally, keys: seq<string>) returns (t: Tally)
    ensures t == NoteAll(t0, keys)
  {
    hide Note;
    t := t0;
    for n := 0 to |keys|
      invariant t == NoteAll(t0, keys[..n])
    {
      assert keys[..n + 1][..n] == keys[..n];
      t := Note(t, keys[n]);
    }
    assert keys[..|keys|] == keys;
  }

  lemma NoteOneMore(t: Tally, keys: seq<string>, key: string)
    ensures NoteAll(t, keys + [key]) == Note(NoteAll(t, keys), key)
    ensures NoteAll(t, keys + []) == NoteAll(t, keys)
  {
    assert (keys + [key])[..|keys|] == keys;
    assert keys + [] == keys;
  }

  lemma NoteNone(t: Tally)
    ensures NoteAll(t, []) == t
  {
  }

  lemma EndedOneMore(records: seq<Lifecycle.AuditRecord>, r: Lifecycle.AuditRecord)
    ensures forall states :: Ended(records + [r], states) ==
              Ended(records, states) + if r.terminal in states then [Policy.ActionName(r.actionType)] else []
  {
    assert (records + [r])[..|records|] == records;
  }

  /* ----- Histories of the store's tallies ----- */

  function SeenAll(keys: seq<string>): seq<Event> {
    seq(|keys|, i requires 0 <= i < |keys| => Seen(keys[i]))
  }

  /** A tally that fades at every window and then notes that window's keys. */
  function History(windows: seq<seq<string>>): seq<Event> {
    if windows == [] then []
    else History(windows[..|windows| - 1]) + [Faded] + SeenAll(windows[|windows| - 1])
  }

  lemma {:induction false} AfterSightings(events: seq<Event>, keys: seq<string>, decay: real)
    ensures After(events + SeenAll(keys), decay) == NoteAll(After(events, decay), keys)
  {
    hide Note, Decay;
    if keys == [] {
      assert events + SeenAll([]) == events;
    } else {
      var init := keys[..|keys| - 1];
      AfterSightings(events, init, decay);
      var all := events + SeenAll(keys);
      assert all[..|all| - 1] == events + SeenAll(init);
    }
  }

  lemma AfterFade(events: seq<Event>, decay: real)
    ensures After(events + [Faded], decay) == Decay(After(events, decay), decay)
  {
    assert (events + [Faded])[..|events|] == events;
  }

  /** What each tally of the store notes in a window. */
  datatype Field = ForegroundField | NotifyingField | HintField | SuccessField | DenialField | FailureField

  function KeysFor(field: Field, w: Window): seq<string> {
    match field
    case ForegroundField => w.summary.foregroundApps
    case NotifyingField => w.summary.notifiedApps
    case HintField => HintNames(w.summary.semanticHints)
    case SuccessField => Ended(w.records, SUCCESS)
    case DenialField => Ended(w.records, DENIAL)
    case FailureField => Ended(w.records, FAILURE)
  }

  function TallyOf(field: Field, s: Store): Tally {
    match field
    case ForegroundField => s.foreground
    case NotifyingField => s.notifying
    case HintField => s.hints
    case SuccessField => s.successes
    case DenialField => s.denials
    case FailureField => s.failures
  }

  function KeysOver(field: Field, windows: seq<Window>): seq<seq<string>> {
    seq(|windows|, i requires 0 <= i < |windows| => KeysFor(field, windows[i]))
  }

  lemma {:induction false} ResolvingTouchesOnlyPrewarms(s: Store, prewarms: seq<PendingPrewarm>, apps: seq<string>)
    ensures var s' := ResolveAll(s, prewarms, apps); s' == s.(hits := s'.hits, misses := s'.misses, pending := s'.pending)
  {
    hide Note;
    if prewarms != [] {
      ResolvingTouchesOnlyPrewarms(s, prewarms[..|prewarms| - 1], apps);
    }
  }

  lemma ObservingOneField(s: Store, w: Window, field: Field)
    ensures TallyOf(field, Observe(s, w)) == NoteAll(Decay(TallyOf(field, s), DecayFactor(s)), KeysFor(field, w))
    ensures Observe(s, w).decayMilli == s.decayMilli && Observe(s, w).horizon == s.horizon
  {
    hide Note, Decay, NoteAll, Registrations, ResolveAll, HintNames, Ended;
    ResolvingTouchesOnlyPrewarms(s.(pending := []), s.pending, w.summary.foregroundApps);
  }

  lemma {:induction false} FieldHasHistory(s0: Store, windows: seq<Window>, field: Field)
    requires TallyOf(field, s0) == EMPTY_TALLY
    ensures TallyOf(field, ObserveAll(s0, windows)) == After(History(KeysOver(field, windows)), DecayFactor(s0))
    ensures ObserveAll(s0, windows).decayMilli == s0.decayMilli && ObserveAll(s0, windows).horizon == s0.horizon
  {
    hide Note, Decay, NoteAll, Observe, TallyOf, KeysFor;
    if windows != [] {
      var last := |windows| - 1;
      var before := History(KeysOver(field, windows[..last]));
      FieldHasHistory(s0, windows[..last], field);
      ObservingOneField(ObserveAll(s0, windows[..last]), windows[last], field);
      assert KeysOver(field, windows)[..last] == KeysOver(field, windows[..last]);
      AfterFade(before, DecayFactor(s0));
      AfterSightings(before + [Faded], KeysFor(field, windows[last]), DecayFactor(s0));
    }
  }

  /** Over any run of windows from a new store, each tally's momentum tracks the exact discounted
      sum of what the windows showed, and its count is the number of sightings. */
  lemma StoreTracksRun(decayMilli: nat, horizon: nat, windows: seq<Window>, field: Field, key: string)
    ensures var s := ObserveAll(NewStore(decayMilli, horizon), windows);
            var history := History(KeysOver(field, windows));
            && Tracks(TallyOf(field, s), Discounted(history, DecayFactor(s), key), key)
            && CountOf(TallyOf(field, s), key) == Sightings(history, key)
  {
    hide Tracks, Note, Decay, NoteAll, Observe;
    var s0 := NewStore(decayMilli, horizon);
    FieldHasHistory(s0, windows, field);
    MomentumTracksHistory(History(KeysOver(field, windows)), DecayFactor(s0), key);
  }

  /** At most the sum of the whole geometric series. */
  predicate InSeries(x: real, decay: real) {
    0.0 <= x && x * (1.0 - decay) <= 1.0
  }

  /** A key noted at most once a window never exceeds the sum of the whole geometric series. */
  lemma {:induction false} DiscountedIsBounded(windows: seq<seq<string>>, decay: real, key: string)
    requires 0.0 <= decay < 1.0
    requires forall w :: w in windows ==> Sorting.Distinct(w)
    ensures InSeries(Discounted(History(windows), decay, key), decay)
  {
    hide InSeries, Fade, Sorting.Distinct;
    if windows == [] {
      SeriesStart(decay);
    } else {
      var last := |windows| - 1;
      DiscountedIsBounded(windows[..last], decay, key);
      var before := History(windows[..last]);
      assert (before + [Faded])[..|before|] == before;
      DiscountedSightings(before + [Faded], windows[last], decay, key);
      SeriesStep(Discounted(before, decay, key), decay);
    }
  }

  lemma SeriesStart(decay: real)
    ensures InSeries(0.0, decay)
  {
  }

  lemma SeriesStep(x: real, decay: real)
    requires 0.0 <= decay < 1.0 && InSeries(x, decay)
    ensures InSeries(Fade(x, decay), decay)
    ensures InSeries(Fade(x, decay) + 1.0, decay)
  {
    if decay > 0.0 {
      Scale(0.0, x, decay);
      Scale(x * (1.0 - decay), 1.0, decay);
      Regroup(x, decay, 1.0 - decay);
      OneMoreTerm(x * decay, decay);
    }
  }

  lemma Regroup(a: real, b: real, c: real)
    ensures a * b * c == a * c * b
  {
  }

  lemma OneMoreTerm(x: real, decay: real)
    requires x * (1.0 - decay) <= decay
    ensures (x + 1.0) * (1.0 - decay) <= 1.0
  {
    assert (x + 1.0) * (1.0 - decay) == x * (1.0 - decay) + (1.0 - decay);
  }

  lemma {:induction false} DiscountedSightings(events: seq<Event>, keys: seq<string>, decay: real, key: string)
    requires Sorting.Distinct(keys)
    ensures Discounted(events + SeenAll(keys), decay, key) == Discounted(events, decay, key) + if key in keys then 1.0 else 0.0
  {
    hide Fade;
    if keys == [] {
      assert events + SeenAll([]) == events;
    } else {
      var init := keys[..|keys| - 1];
      DiscountedSightings(events, init, decay, key);
      var all := events + SeenAll(keys);
      assert all[..|all| - 1] == events + SeenAll(init);
      assert keys == init + [keys[|init|]];
      assert keys[|init|] !in init;
    }
  }

  ghost predicate IsSummary(summary: ContextSummary) {
    exists events :: summary == Context.SummaryOf(events)
  }

  lemma ForegroundListedOnce(windows: seq<Window>)
    requires forall i :: 0 <= i < |windows| ==> IsSummary(windows[i].summary)
    ensures forall w :: w in KeysOver(ForegroundField, windows) ==> Sorting.Distinct(w)
  {
    hide Sorting.Distinct, Context.NotifiedApps, Context.ForegroundApps;
    forall w | w in KeysOver(ForegroundField, windows) ensures Sorting.Distinct(w) {
      var i :| 0 <= i < |windows| && w == KeysOver(ForegroundField, windows)[i];
      var events :| windows[i].summary == Context.SummaryOf(events);
      Context.AppListsAreExact(events);
    }
  }

  /** Foreground momentum is bounded, because a window's summary lists each app at most once. */
  lemma ForegroundMomentumBounded(decayMilli: nat, horizon: nat, windows: seq<Window>, key: string)
    requires forall i :: 0 <= i < |windows| ==> IsSummary(windows[i].summary)
    ensures var s := ObserveAll(NewStore(decayMilli, horizon), windows);
            MomentumOf(s.foreground, key) * (1000 - s.decayMilli) as real <= 1000.0
  {
    hide Note, Decay, NoteAll, Observe, ObserveAll, History, Discounted, InSeries, Sorting.Distinct, KeysOver, IsSummary;
    var s0 := NewStore(decayMilli, horizon);
    var history := History(KeysOver(ForegroundField, windows));
    ForegroundListedOnce(windows);
    StoreTracksRun(decayMilli, horizon, windows, ForegroundField, key);
    FieldHasHistory(s0, windows, ForegroundField);
    DiscountedIsBounded(KeysOver(ForegroundField, windows), DecayFactor(s0), key);
    SeriesInMilli(MomentumOf(ObserveAll(s0, windows).foreground, key), Discounted(history, DecayFactor(s0), key), s0.decayMilli);
  }

  lemma SeriesInMilli(kept: real, exact: real, decayMilli: nat)
    requires decayMilli <= 999
    requires kept <= exact && InSeries(exact, decayMilli as real / 1000.0)
    ensures kept * (1000 - decayMilli) as real <= 1000.0
  {
    var rest := 1.0 - decayMilli as real / 1000.0;
    assert (exact - kept) * rest >= 0.0;
    assert (1000 - decayMilli) as real == 1000.0 * rest;
    assert kept * (1000.0 * rest) == 1000.0 * (kept * rest);
  }

  /* ----- Prewarms: the look-ahead the pending queue stands in for ----- */

  /** What became of a prewarm: its app was in the foreground of window `at`, or window `at` was
      the last chance, or the chances are not used up. */
  datatype Fate = Waiting | Hit(at: nat) | Miss(at: nat)

  /** Looks through windows `from`, `from + 1`, ... up to and including `last`, of which the first `seen` are there. */
  function Look(windows: seq<Window>, package: string, from: nat, last: nat, seen: nat): Fate
    requires seen <= |windows|
    decreases seen - from
  {
    if from >= seen then Waiting
    else if package in windows[from].summary.foregroundApps then Hit(from)
    else if from >= last then Miss(from)
    else Look(windows, package, from + 1, last, seen)
  }

  /** The fate, as of the first `seen` windows, of a prewarm registered in window `registeredAt`. */
  function FateOf(windows: seq<Window>, package: string, registeredAt: nat, horizon: nat, seen: nat): Fate
    requires seen <= |windows|
  {
    Look(windows, package, registeredAt + 1, registeredAt + horizon, seen)
  }

  predicate ShowsApp(windows: seq<Window>, package: string, j: nat)
    requires j < |windows|
  {
    package in windows[j].summary.foregroundApps
  }

  /** A hit is the first of the next `horizon` windows that shows the app; a miss falls exactly on
      the last of them, when none did; and waiting means fewer than `horizon` have passed, none a hit. */
  lemma FateIsFirstShowing(windows: seq<Window>, package: string, registeredAt: nat, horizon: nat, seen: nat)
    requires seen <= |windows| && horizon >= 1
    ensures match FateOf(windows, package, registeredAt, horizon, seen)
            case Hit(at) =>
              && registeredAt < at <= registeredAt + horizon && at < seen && ShowsApp(windows, package, at)
              && forall j :: registeredAt < j < at ==> !ShowsApp(windows, package, j)
            case Miss(at) =>
              && at == registeredAt + horizon < seen
              && forall j :: registeredAt < j <= at ==> !ShowsApp(windows, package, j)
            case Waiting =>
              && seen <= registeredAt + horizon
              && forall j :: registeredAt < j < seen ==> !ShowsApp(windows, package, j)
  {
    LookFindsFirst(windows, package, registeredAt, registeredAt + 1, registeredAt + horizon, seen);
  }

  lemma {:induction false} LookFindsFirst(windows: seq<Window>, package: string, registeredAt: nat, from: nat, last: nat, seen: nat)
    requires seen <= |windows| && registeredAt < from <= last
    requires forall j :: registeredAt < j < from && j < seen ==> !ShowsApp(windows, package, j)
    ensures match Look(windows, package, from, last, seen)
            case Hit(at) =>
              && from <= at <= last && at < seen && ShowsApp(windows, package, at)
              && forall j :: registeredAt < j < at ==> !ShowsApp(windows, package, j)
            case Miss(at) =>
              && at == last < seen
              && forall j :: registeredAt < j <= at ==> !ShowsApp(windows, package, j)
            case Waiting =>
              && seen <= last
              && forall j :: registeredAt < j < seen ==> !ShowsApp(windows, package, j)
    decreases seen - from
  {
    if from < seen && !ShowsApp(windows, package, from) && from < last {
      LookFindsFirst(windows, package, registeredAt, from + 1, last, seen);
    }
  }

  /** A registration made in window `at`. */
  datatype Registered = Registered(at: nat, prewarm: PendingPrewarm)

  function RegisteredIn(at: nat, prewarms: seq<PendingPrewarm>): seq<Registered> {
    seq(|prewarms|, i requires 0 <= i < |prewarms| => Registered(at, prewarms[i]))
  }

  /** Every registration of the first `seen` windows, in order. */
  function AllRegistered(windows: seq<Window>, seen: nat): seq<Registered>
    requires seen <= |windows|
  {
    if seen == 0 then []
    else AllRegistered(windows, seen - 1) + RegisteredIn(seen - 1, Registrations(windows[seen - 1].records))
  }

  function RegistrationFate(windows: seq<Window>, r: Registered, horizon: nat, seen: nat): Fate
    requires seen <= |windows|
  {
    FateOf(windows, r.prewarm.package, r.at, horizon, seen)
  }

  /** The queue as the look-ahead predicts it: who is still waiting, and for how many windows. */
  function StillWaiting(windows: seq<Window>, regs: seq<Registered>, horizon: nat, seen: nat): seq<PendingPrewarm>
    requires seen <= |windows|
    requires forall i :: 0 <= i < |regs| ==> regs[i].at < seen
  {
    if regs == [] then []
    else
      var r := regs[|regs| - 1];
      StillWaiting(windows, regs[..|regs| - 1], horizon, seen) +
      if RegistrationFate(windows, r, horizon, seen).Waiting?
      then [r.prewarm.(windowsObserved := seen - 1 - r.at)] else []
  }

  function HitsOn(windows: seq<Window>, regs: seq<Registered>, horizon: nat, seen: nat, package: string): nat
    requires seen <= |windows|
  {
    if regs == [] then 0
    else
      var r := regs[|regs| - 1];
      HitsOn(windows, regs[..|regs| - 1], horizon, seen, package) +
      if r.prewarm.package == package && RegistrationFate(windows, r, horizon, seen).Hit? then 1 else 0
  }

  function MissesOn(windows: seq<Window>, regs: seq<Registered>, horizon: nat, seen: nat, package: string): nat
    requires seen <= |windows|
  {
    if regs == [] then 0
    else
      var r := regs[|regs| - 1];
      MissesOn(windows, regs[..|regs| - 1], horizon, seen, package) +
      if r.prewarm.package == package && RegistrationFate(windows, r, horizon, seen).Miss? then 1 else 0
  }

  /** One more window decides a waiting prewarm by that window alone, and leaves decided ones. */
  lemma {:induction false} LookOneFurther(windows: seq<Window>, package: string, from: nat, last: nat, seen: nat)
    requires seen < |windows| && from <= seen
    ensures var before := Look(windows, package, from, last, seen);
            var now := Look(windows, package, from, last, seen + 1);
            if !before.Waiting? then now == before
            else if ShowsApp(windows, package, seen) then now == Hit(seen)
            else if seen >= last then now == Miss(seen)
            else now == Waiting
    decreases seen - from
  {
    if from < seen {
      LookOneFurther(windows, package, from + 1, last, seen);
    }
  }

  /** What one more registration adds to the look-ahead's queue and counts. */
  lemma WithOneMore(windows: seq<Window>, init: seq<Registered>, r: Registered, horizon: nat, seen: nat)
    requires seen <= |windows| && r.at < seen
    requires forall i :: 0 <= i < |init| ==> init[i].at < seen
    ensures forall i :: 0 <= i < |init + [r]| ==> (init + [r])[i].at < seen
    ensures var fate := RegistrationFate(windows, r, horizon, seen);
            && StillWaiting(windows, init + [r], horizon, seen) ==
               StillWaiting(windows, init, horizon, seen) +
               (if fate.Waiting? then [r.prewarm.(windowsObserved := seen - 1 - r.at)] else [])
            && (forall p :: HitsOn(windows, init + [r], horizon, seen, p) ==
                  HitsOn(windows, init, horizon, seen, p) + if r.prewarm.package == p && fate.Hit? then 1 else 0)
            && (forall p :: MissesOn(windows, init + [r], horizon, seen, p) ==
                  MissesOn(windows, init, horizon, seen, p) + if r.prewarm.package == p && fate.Miss? then 1 else 0)
  {
    hide RegistrationFate;
    assert (init + [r])[..|init|] == init;
  }

  lemma ResolveOneMore(s: Store, prewarms: seq<PendingPrewarm>, p: PendingPrewarm, apps: seq<string>)
    ensures ResolveAll(s, prewarms + [p], apps) == ResolveOne(ResolveAll(s, prewarms, apps), p, apps)
  {
    hide ResolveOne;
    assert (prewarms + [p])[..|prewarms|] == prewarms;
  }

  /** Resolving the queue against one window is what one more window does to the look-ahead. */
  lemma {:induction false} ResolvingLooksFurther(s: Store, windows: seq<Window>, regs: seq<Registered>, seen: nat)
    requires seen < |windows| && ValidStore(s) && s.pending == []
    requires forall i :: 0 <= i < |regs| ==> regs[i].at < seen
    ensures var s' := ResolveAll(s, StillWaiting(windows, regs, s.horizon, seen), windows[seen].summary.foregroundApps);
            && s'.horizon == s.horizon
            && s'.pending == StillWaiting(windows, regs, s.horizon, seen + 1)
            && forall p ::
                 && CountOf(s'.hits, p) + HitsOn(windows, regs, s.horizon, seen, p) ==
                    CountOf(s.hits, p) + HitsOn(windows, regs, s.horizon, seen + 1, p)
                 && CountOf(s'.misses, p) + MissesOn(windows, regs, s.horizon, seen, p) ==
                    CountOf(s.misses, p) + MissesOn(windows, regs, s.horizon, seen + 1, p)
  {
    hide Look, ResolveOne, Note, CountOf, FateOf, StillWaiting, HitsOn, MissesOn, ResolveAll, RegistrationFate;
    var apps := windows[seen].summary.foregroundApps;
    if regs == [] {
      NothingToResolve(s, windows, seen);
    } else {
      var init, r := regs[..|regs| - 1], regs[|regs| - 1];
      assert init + [r] == regs;
      ResolvingLooksFurther(s, windows, init, seen);
      var waiting := StillWaiting(windows, init, s.horizon, seen);
      var s1 := ResolveAll(s, waiting, apps);
      ResolvingTouchesOnlyPrewarms(s, waiting, apps);
      ResolvingOneLooksFurther(s1, windows, r, seen);
      WithOneMore(windows, init, r, s.horizon, seen);
      WithOneMore(windows, init, r, s.horizon, seen + 1);
      ResolveOneMore(s, waiting, r.prewarm.(windowsObserved := seen - 1 - r.at), apps);
      NotingCountsOne(s1.hits, r.prewarm.package);
      NotingCountsOne(s1.misses, r.prewarm.package);
      assert waiting + [] == waiting && s1.pending + [] == s1.pending;
    }
  }

  lemma NothingToResolve(s: Store, windows: seq<Window>, seen: nat)
    requires seen < |windows| && s.pending == []
    ensures ResolveAll(s, StillWaiting(windows, [], s.horizon, seen), windows[seen].summary.foregroundApps) == s
    ensures StillWaiting(windows, [], s.horizon, seen + 1) == []
    ensures forall p, n: nat | n <= |windows| :: HitsOn(windows, [], s.horizon, n, p) == 0 && MissesOn(windows, [], s.horizon, n, p) == 0
  {
  }

  lemma NotingCountsOne(t: Tally, key: string)
    ensures forall p :: CountOf(Note(t, key), p) == CountOf(t, p) + if p == key then 1 else 0
  {
  }

  /** Resolving one queue entry against a window is what that window does to its look-ahead. */
  lemma ResolvingOneLooksFurther(s: Store, windows: seq<Window>, r: Registered, seen: nat)
    requires seen < |windows| && ValidStore(s) && r.at < seen
    ensures var before := RegistrationFate(windows, r, s.horizon, seen);
            var now := RegistrationFate(windows, r, s.horizon, seen + 1);
            && (!before.Waiting? ==> now == before)
            && (before.Waiting? ==>
                  ResolveOne(s, r.prewarm.(windowsObserved := seen - 1 - r.at), windows[seen].summary.foregroundApps) ==
                  match now
                  case Hit(_) => s.(hits := Note(s.hits, r.prewarm.package))
                  case Miss(_) => s.(misses := Note(s.misses, r.prewarm.package))
                  case Waiting => s.(pending := s.pending + [r.prewarm.(windowsObserved := seen - r.at)]))
  {
    hide Look, Note;
    LookOneFurther(windows, r.prewarm.package, r.at + 1, r.at + s.horizon, seen);
    WaitingIsShort(windows, r, s.horizon, seen);
  }

  lemma WaitingIsShort(windows: seq<Window>, r: Registered, horizon: nat, seen: nat)
    requires seen <= |windows| && horizon >= 1 && r.at < seen
    ensures RegistrationFate(windows, r, horizon, seen).Waiting? ==> seen - 1 - r.at < horizon
  {
    FateIsFirstShowing(windows, r.prewarm.package, r.at, horizon, seen);
  }

  lemma {:induction false} RegisteredBefore(windows: seq<Window>, seen: nat)
    requires seen <= |windows|
    ensures forall i :: 0 <= i < |AllRegistered(windows, seen)| ==> AllRegistered(windows, seen)[i].at < seen
  {
    if seen > 0 {
      RegisteredBefore(windows, seen - 1);
    }
  }

  /** A window's own registrations join the queue, unobserved, and change no count. */
  lemma {:induction false} NewcomersWait(windows: seq<Window>, regs: seq<Registered>, news: seq<PendingPrewarm>, horizon: nat,
                                         at: nat, seen: nat)
    requires seen <= |windows| && seen == at + 1
    requires forall i :: 0 <= i < |regs| ==> regs[i].at < at
    requires forall i :: 0 <= i < |news| ==> news[i].windowsObserved == 0
    ensures var all := regs + RegisteredIn(at, news);
            && (forall i :: 0 <= i < |all| ==> all[i].at < seen)
            && StillWaiting(windows, all, horizon, seen) == StillWaiting(windows, regs, horizon, seen) + news
            && (forall p :: HitsOn(windows, all, horizon, seen, p) == HitsOn(windows, regs, horizon, seen, p))
            && (forall p :: MissesOn(windows, all, horizon, seen, p) == MissesOn(windows, regs, horizon, seen, p))
  {
    hide Look, FateOf, StillWaiting, HitsOn, MissesOn;
    var all := regs + RegisteredIn(at, news);
    if news == [] {
      assert all == regs;
      assert StillWaiting(windows, regs, horizon, seen) + [] == StillWaiting(windows, regs, horizon, seen);
    } else {
      var init, last := news[..|news| - 1], news[|news| - 1];
      var before := regs + RegisteredIn(at, init);
      NewcomersWait(windows, regs, init, horizon, at, seen);
      assert all == before + [Registered(at, last)];
      OneNewcomer(windows, before, last, horizon, at, seen);
      assert StillWaiting(windows, regs, horizon, seen) + news == StillWaiting(windows, regs, horizon, seen) + init + [last];
    }
  }

  lemma OneNewcomer(windows: seq<Window>, regs: seq<Registered>, last: PendingPrewarm, horizon: nat, at: nat, seen: nat)
    requires seen <= |windows| && seen == at + 1 && last.windowsObserved == 0
    requires forall i :: 0 <= i < |regs| ==> regs[i].at < seen
    ensures var all := regs + [Registered(at, last)];
            && (forall i :: 0 <= i < |all| ==> all[i].at < seen)
            && StillWaiting(windows, all, horizon, seen) == StillWaiting(windows, regs, horizon, seen) + [last]
            && (forall p :: HitsOn(windows, all, horizon, seen, p) == HitsOn(windows, regs, horizon, seen, p))
            && (forall p :: MissesOn(windows, all, horizon, seen, p) == MissesOn(windows, regs, horizon, seen, p))
  {
    hide Look, FateOf;
    var all := regs + [Registered(at, last)];
    assert all[..|regs|] == regs && all[|regs|] == Registered(at, last);
    NotYetLooked(windows, last.package, at, horizon, seen);
    assert last.(windowsObserved := seen - 1 - at) == last;
  }

  lemma NotYetLooked(windows: seq<Window>, package: string, at: nat, horizon: nat, seen: nat)
    requires seen <= |windows| && seen == at + 1
    ensures FateOf(windows, package, at, horizon, seen).Waiting?
  {
  }

  lemma {:induction false} RegistrationsAreNew(records: seq<Lifecycle.AuditRecord>)
    ensures forall i :: 0 <= i < |Registrations(records)| ==> Registrations(records)[i].windowsObserved == 0
  {
    hide NormalizePackage;
    if records != [] {
      RegistrationsAreNew(records[..|records| - 1]);
    }
  }

  /** Only the counts, the queue and the horizon matter to prewarms; fading and noting leave them be. */
  lemma ObservingPrewarms(s: Store, w: Window)
    ensures var resolved := ResolvePending(s, w.summary.foregroundApps);
            var s' := Observe(s, w);
            && s'.pending == resolved.pending + Registrations(w.records)
            && s'.horizon == s.horizon && s'.decayMilli == s.decayMilli
            && forall p :: CountOf(s'.hits, p) == CountOf(resolved.hits, p) && CountOf(s'.misses, p) == CountOf(resolved.misses, p)
  {
    hide Note, NoteAll, Registrations, ResolveAll, HintNames, Ended;
    ResolvingTouchesOnlyPrewarms(s.(pending := []), s.pending, w.summary.foregroundApps);
  }

  /** Over any run from a new store the queue and the counts are those of the look-ahead: who is
      waiting and for how long, and per package how many were hit and how many missed so far. */
  lemma {:induction false} QueueIsLookAhead(decayMilli: nat, horizon: nat, windows: seq<Window>, seen: nat)
    requires seen <= |windows|
    ensures var s := ObserveAll(NewStore(decayMilli, horizon), windows[..seen]);
            var regs := AllRegistered(windows, seen);
            && ValidStore(s) && s.horizon == NewStore(decayMilli, horizon).horizon
            && (forall i :: 0 <= i < |regs| ==> regs[i].at < seen)
            && s.pending == StillWaiting(windows, regs, s.horizon, seen)
            && forall p ::
                 && CountOf(s.hits, p) == HitsOn(windows, regs, s.horizon, seen, p)
                 && CountOf(s.misses, p) == MissesOn(windows, regs, s.horizon, seen, p)
  {
    hide Observe, ResolveAll, Registrations, StillWaiting, HitsOn, MissesOn, CountOf;
    if seen == 0 {
      NobodyWaits(windows, NewStore(decayMilli, horizon).horizon);
    } else {
      var n := seen - 1;
      QueueIsLookAhead(decayMilli, horizon, windows, n);
      var s := ObserveAll(NewStore(decayMilli, horizon), windows[..n]);
      var regs := AllRegistered(windows, n);
      assert windows[..seen][..n] == windows[..n];
      ObservingPrewarms(s, windows[n]);
      ResolvingLooksFurther(s.(pending := []), windows, regs, n);
      RegistrationsAreNew(windows[n].records);
      NewcomersWait(windows, regs, Registrations(windows[n].records), s.horizon, n, seen);
    }
  }

  lemma NobodyWaits(windows: seq<Window>, horizon: nat)
    ensures StillWaiting(windows, [], horizon, 0) == []
    ensures forall p :: HitsOn(windows, [], horizon, 0, p) == 0 && MissesOn(windows, [], horizon, 0, p) == 0
    ensures forall p :: CountOf(EMPTY_TALLY, p) == 0
  {
  }

  /* ----- Conservation ----- */

  function RegisteredFor(regs: seq<Registered>, package: string): nat {
    if regs == [] then 0
    else RegisteredFor(regs[..|regs| - 1], package) + if regs[|regs| - 1].prewarm.package == package then 1 else 0
  }

  function WaitingFor(queue: seq<PendingPrewarm>, package: string): nat {
    if queue == [] then 0
    else WaitingFor(queue[..|queue| - 1], package) + if queue[|queue| - 1].package == package then 1 else 0
  }

  lemma {:induction false} EachHasOneFate(windows: seq<Window>, regs: seq<Registered>, horizon: nat, seen: nat, package: string)
    requires seen <= |windows| && horizon >= 1
    requires forall i :: 0 <= i < |regs| ==> regs[i].at < seen
    ensures var queue := StillWaiting(windows, regs, horizon, seen);
            && HitsOn(windows, regs, horizon, seen, package) + MissesOn(windows, regs, horizon, seen, package) +
               WaitingFor(queue, package) == RegisteredFor(regs, package)
            && forall i :: 0 <= i < |queue| ==> queue[i].windowsObserved < horizon
  {
    hide FateOf, StillWaiting, HitsOn, MissesOn, RegistrationFate, WaitingFor, RegisteredFor;
    if regs == [] {
      NobodyHasFate(windows, horizon, seen, package);
    } else {
      var init, r := regs[..|regs| - 1], regs[|regs| - 1];
      assert init + [r] == regs;
      EachHasOneFate(windows, init, horizon, seen, package);
      OneMoreFate(windows, init, r, horizon, seen, package);
    }
  }

  lemma OneMoreFate(windows: seq<Window>, init: seq<Registered>, r: Registered, horizon: nat, seen: nat, package: string)
    requires seen <= |windows| && horizon >= 1 && r.at < seen
    requires forall i :: 0 <= i < |init| ==> init[i].at < seen
    requires HitsOn(windows, init, horizon, seen, package) + MissesOn(windows, init, horizon, seen, package) +
             WaitingFor(StillWaiting(windows, init, horizon, seen), package) == RegisteredFor(init, package)
    requires forall i :: 0 <= i < |StillWaiting(windows, init, horizon, seen)| ==>
               StillWaiting(windows, init, horizon, seen)[i].windowsObserved < horizon
    ensures forall i :: 0 <= i < |init + [r]| ==> (init + [r])[i].at < seen
    ensures HitsOn(windows, init + [r], horizon, seen, package) + MissesOn(windows, init + [r], horizon, seen, package) +
            WaitingFor(StillWaiting(windows, init + [r], horizon, seen), package) == RegisteredFor(init + [r], package)
    ensures forall i :: 0 <= i < |StillWaiting(windows, init + [r], horizon, seen)| ==>
              StillWaiting(windows, init + [r], horizon, seen)[i].windowsObserved < horizon
  {
    hide FateOf, StillWaiting, HitsOn, MissesOn, RegistrationFate, WaitingFor;
    WaitingIsShort(windows, r, horizon, seen);
    WithOneMore(windows, init, r, horizon, seen);
    WaitingForOneMore(StillWaiting(windows, init, horizon, seen), r.prewarm.(windowsObserved := seen - 1 - r.at), package);
    assert (init + [r])[..|init|] == init;
  }

  lemma NobodyHasFate(windows: seq<Window>, horizon: nat, seen: nat, package: string)
    requires seen <= |windows|
    ensures StillWaiting(windows, [], horizon, seen) == []
    ensures HitsOn(windows, [], horizon, seen, package) == MissesOn(windows, [], horizon, seen, package) == 0
    ensures WaitingFor([], package) == RegisteredFor([], package) == 0
  {
  }

  lemma WaitingForOneMore(queue: seq<PendingPrewarm>, p: PendingPrewarm, package: string)
    ensures WaitingFor(queue + [p], package) == WaitingFor(queue, package) + if p.package == package then 1 else 0
    ensures WaitingFor(queue + [], package) == WaitingFor(queue, package)
  {
    assert (queue + [p])[..|queue|] == queue;
    assert queue + [] == queue;
  }

  /** Per package, every registered prewarm is a hit, a miss or still pending, and never two of
      these; and no pending one has been watched for the whole horizon. */
  lemma PrewarmsAreConserved(decayMilli: nat, horizon: nat, windows: seq<Window>, package: string)
    ensures var s := ObserveAll(NewStore(decayMilli, horizon), windows);
            && CountOf(s.hits, package) + CountOf(s.misses, package) + WaitingFor(s.pending, package) ==
               RegisteredFor(AllRegistered(windows, |windows|), package)
            && forall i :: 0 <= i < |s.pending| ==> s.pending[i].windowsObserved < s.horizon
  {
    hide Observe, StillWaiting, HitsOn, MissesOn, CountOf, AllRegistered;
    QueueIsLookAhead(decayMilli, horizon, windows, |windows|);
    assert windows[..|windows|] == windows;
    EachHasOneFate(windows, AllRegistered(windows, |windows|), NewStore(decayMilli, horizon).horizon, |windows|, package);
  }
}
