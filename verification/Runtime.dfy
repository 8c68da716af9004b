/** The daemon's two tasks, joined by a bounded channel: collection polls and sends, processing
    receives, windows and hands windows on.  Shutdown is nothing but the sender going away. */
module Runtime {
  import opened Wrappers
  import opened Spec
  import opened Context

  datatype RawEventKind =
    | AppTransitionKind | BinderTransactionKind | ProcStateChangeKind | FileSystemAccessKind
    | NotificationPostedKind | NotificationInteractionKind | ScreenStateKind | SystemStateKind

  /** A raw event: its kind, and a payload the two loops never look into. */
  datatype Ingested = Ingested(kind: RawEventKind, payload: string, tier: SourceTier)

  /* ----- Raw statistics of a window ----- */

  datatype RawEventStats = RawEventStats(
    appTransition: nat,
    binderTransaction: nat,
    procStateChange: nat,
    fileSystemAccess: nat,
    notificationPosted: nat,
    notificationInteraction: nat,
    screenState: nat,
    systemState: nat)
  {
    function Record(kind: RawEventKind): RawEventStats {
      match kind
      case AppTransitionKind => this.(appTransition := appTransition + 1)
      case BinderTransactionKind => this.(binderTransaction := binderTransaction + 1)
      case ProcStateChangeKind => this.(procStateChange := procStateChange + 1)
      case FileSystemAccessKind => this.(fileSystemAccess := fileSystemAccess + 1)
      case NotificationPostedKind => this.(notificationPosted := notificationPosted + 1)
      case NotificationInteractionKind => this.(notificationInteraction := notificationInteraction + 1)
      case ScreenStateKind => this.(screenState := screenState + 1)
      case SystemStateKind => this.(systemState := systemState + 1)
    }

    function Count(kind: RawEventKind): nat {
      match kind
      case AppTransitionKind => appTransition
      case BinderTransactionKind => binderTransaction
      case ProcStateChangeKind => procStateChange
      case FileSystemAccessKind => fileSystemAccess
      case NotificationPostedKind => notificationPosted
      case NotificationInteractionKind => notificationInteraction
      case ScreenStateKind => screenState
      case SystemStateKind => systemState
    }

    function Total(): nat {
      appTransition + binderTransaction + procStateChange + fileSystemAccess +
      notificationPosted + notificationInteraction + screenState + systemState
    }
  }

  const NO_STATS := RawEventStats(0, 0, 0, 0, 0, 0, 0, 0)

  function KindCount(raws: seq<Ingested>, kind: RawEventKind): nat {
    if raws == [] then 0
    else KindCount(raws[..|raws| - 1], kind) + if raws[|raws| - 1].kind == kind then 1 else 0
  }

  /** The statistics of a stretch of events: so many of each kind, and no other. */
  ghost predicate Counts(stats: RawEventStats, raws: seq<Ingested>) {
    && (forall kind :: stats.Count(kind) == KindCount(raws, kind))
    && stats.Total() == |raws|
  }

  lemma NothingCounted()
    ensures Counts(NO_STATS, [])
  {
    forall kind ensures NO_STATS.Count(kind) == KindCount([], kind) {
      assert KindCount([], kind) == 0;
    }
  }

  lemma RecordCounts(stats: RawEventStats, raws: seq<Ingested>, e: Ingested)
    requires Counts(stats, raws)
    ensures Counts(stats.Record(e.kind), raws + [e])
  {
    assert (raws + [e])[..|raws|] == raws;
  }

  /* ----- The processing task ----- */

  datatype Setup = Setup(capacity: nat, windowTicks: nat, sanitize: Ingested -> SanitizedEvent)

  /** A window as it is handed on.  `raws` is history: the raw events it was made from. */
  datatype ProcessedWindow = ProcessedWindow(ordinal: nat, ctx: StructuredContext, stats: RawEventStats, raws: seq<Ingested>)

  /** The loop's variables.  `open` is history: the raw events of the window being filled. */
  datatype Processor = Processor(
    stats: RawEventStats,
    buffer: seq<SanitizedEvent>,
    startMs: int,
    ordinal: nat,
    eventsProcessed: nat,
    deadline: int,
    handedOn: seq<ProcessedWindow>,
    open: seq<Ingested>,
    done: bool)

  /** What the loop's select came back with. */
  datatype ProcessingEvent = Raw(ingested: Ingested) | RawChannelClosed | WindowExpired

  /** One turn of the loop: the event, the monotonic clock when the deadline is looked at and
      again when it is renewed, and the wall clock that stamps a closing window. */
  datatype Turn = Turn(event: ProcessingEvent, checkedAt: int, renewedAt: int, wallMs: int)

  function CloseWindow(p: Processor, wallMs: int): Processor {
    var p' := p.(stats := NO_STATS, buffer := [], startMs := wallMs, open := []);
    if p.buffer == [] then p'
    else
      var ctx := StructuredContext(p.startMs, wallMs, DurationSecs(p.startMs, wallMs), p.buffer, SummaryOf(p.buffer));
      p'.(handedOn := p.handedOn + [ProcessedWindow(p.ordinal, ctx, p.stats, p.open)], ordinal := p.ordinal + 1)
  }

  function Handle(setup: Setup, p: Processor, turn: Turn): Processor {
    if turn.event.RawChannelClosed? then CloseWindow(p, turn.wallMs).(done := true)
    else
      var p1 :=
        match turn.event
        case Raw(e) =>
          p.(stats := p.stats.Record(e.kind), buffer := p.buffer + [setup.sanitize(e)],
             open := p.open + [e], eventsProcessed := p.eventsProcessed + 1)
        case _ => p;
      if turn.event.WindowExpired? || turn.checkedAt >= p.deadline then
        CloseWindow(p1, turn.wallMs).(deadline := turn.renewedAt + setup.windowTicks)
      else p1
  }

  function HandleAll(setup: Setup, p: Processor, turns: seq<Turn>): Processor {
    if turns == [] then p
    else Handle(setup, HandleAll(setup, p, turns[..|turns| - 1]), turns[|turns| - 1])
  }

  function Fresh(startMs: int, deadline: int): Processor {
    Processor(NO_STATS, [], startMs, 0, 0, deadline, [], [], false)
  }

  datatype LoopSummary = LoopSummary(windowsClosed: nat, eventsProcessed: nat)

  /** The processing loop over the turns its select goes through, up to the closed channel. */
  method RunProcessingLoop(setup: Setup, window: WindowAggregator, startedAt: int, turns: seq<Turn>)
    returns (summary: LoopSummary, handedOn: seq<ProcessedWindow>)
    requires window.buffer == []
    requires turns != [] && turns[|turns| - 1].event.RawChannelClosed?
    requires forall n :: 0 <= n < |turns| - 1 ==> !turns[n].event.RawChannelClosed?
    modifies window
    ensures var p := HandleAll(setup, Fresh(old(window.windowStartMs), startedAt + setup.windowTicks), turns);
            p.done && handedOn == p.handedOn && summary == LoopSummary(p.ordinal, p.eventsProcessed)
  {
    hide SummaryOf, DurationSecs;
    ghost var p0 := Fresh(window.windowStartMs, startedAt + setup.windowTicks);
    var rawStats, windowOrdinal, eventsProcessed := NO_STATS, 0, 0;
    var windowDeadline := startedAt + setup.windowTicks;
    var open := [];
    handedOn := [];
    var n := 0;
    while true
      invariant n < |turns|
      invariant HandleAll(setup, p0, turns[..n]) ==
                Processor(rawStats, window.buffer, window.windowStartMs, windowOrdinal, eventsProcessed, windowDeadline,
                          handedOn, open, false)
      decreases |turns| - n
    {
      var turn := turns[n];
      assert turns[..n + 1][..n] == turns[..n];
      if turn.event.RawChannelClosed? {
        assert turns[..n + 1] == turns;
        var windowStats := rawStats;
        var ctx := window.Close(turn.wallMs);
        if ctx.Some? {
          handedOn := handedOn + [ProcessedWindow(windowOrdinal, ctx.value, windowStats, open)];
          windowOrdinal := windowOrdinal + 1;
        }
        return LoopSummary(windowOrdinal, eventsProcessed), handedOn;
      }
      if turn.event.Raw? {
        rawStats := rawStats.Record(turn.event.ingested.kind);
        window.Push(setup.sanitize(turn.event.ingested));
        open := open + [turn.event.ingested];
        eventsProcessed := eventsProcessed + 1;
      }
      if turn.event.WindowExpired? || turn.checkedAt >= windowDeadline {
        var windowStats := rawStats;
        rawStats := NO_STATS;
        var ctx := window.Close(turn.wallMs);
        if ctx.Some? {
          handedOn := handedOn + [ProcessedWindow(windowOrdinal, ctx.value, windowStats, open)];
          windowOrdinal := windowOrdinal + 1;
        }
        open := [];
        windowDeadline := turn.renewedAt + setup.windowTicks;
      }
      n := n + 1;
    }
  }

  /* ----- What processing keeps ----- */

  function Sanitized(setup: Setup, raws: seq<Ingested>): seq<SanitizedEvent> {
    seq(|raws|, i requires 0 <= i < |raws| => setup.sanitize(raws[i]))
  }

  function AllRaws(windows: seq<ProcessedWindow>): seq<Ingested> {
    if windows == [] then [] else AllRaws(windows[..|windows| - 1]) + windows[|windows| - 1].raws
  }

  /** A window as promised downstream: numbered in order, never empty, holding its raw events
      sanitized in order, with their summary and their statistics. */
  ghost predicate SoundWindow(setup: Setup, w: ProcessedWindow, ordinal: nat) {
    && w.ordinal == ordinal
    && w.raws != []
    && w.ctx.events == Sanitized(setup, w.raws)
    && w.ctx.summary == SummaryOf(w.ctx.events)
    && Counts(w.stats, w.raws)
  }

  /** The loop has received exactly `received`, and nothing of it is lost, repeated or out of order. */
  ghost predicate Accounted(setup: Setup, p: Processor, received: seq<Ingested>) {
    && received == AllRaws(p.handedOn) + p.open
    && p.eventsProcessed == |received|
    && p.buffer == Sanitized(setup, p.open)
    && Counts(p.stats, p.open)
    && p.ordinal == |p.handedOn|
    && (forall k :: 0 <= k < |p.handedOn| ==> SoundWindow(setup, p.handedOn[k], k))
  }

  lemma ClosingKeepsAccount(setup: Setup, p: Processor, received: seq<Ingested>, wallMs: int)
    requires Accounted(setup, p, received)
    ensures Accounted(setup, CloseWindow(p, wallMs), received)
    ensures CloseWindow(p, wallMs).open == []
  {
    hide SummaryOf, DurationSecs, Counts;
    var p' := CloseWindow(p, wallMs);
    NothingCounted();
    if p.buffer == [] {
      assert p.open == [];
    } else {
      assert p'.handedOn[..|p.handedOn|] == p.handedOn;
      assert SoundWindow(setup, p'.handedOn[|p.handedOn|], |p.handedOn|);
    }
  }

  function Received(event: ProcessingEvent): seq<Ingested> {
    if event.Raw? then [event.ingested] else []
  }

  lemma TakingKeepsAccount(setup: Setup, p: Processor, received: seq<Ingested>, e: Ingested)
    requires Accounted(setup, p, received)
    ensures Accounted(setup, p.(stats := p.stats.Record(e.kind), buffer := p.buffer + [setup.sanitize(e)],
                                open := p.open + [e], eventsProcessed := p.eventsProcessed + 1), received + [e])
  {
    hide Counts, SoundWindow;
    RecordCounts(p.stats, p.open, e);
    assert Sanitized(setup, p.open + [e]) == Sanitized(setup, p.open) + [setup.sanitize(e)];
    assert AllRaws(p.handedOn) + (p.open + [e]) == (AllRaws(p.handedOn) + p.open) + [e];
  }

  /** Neither the deadline nor the loop's end is part of the account. */
  lemma AccountOfRest(setup: Setup, p: Processor, received: seq<Ingested>, deadline: int, done: bool)
    requires Accounted(setup, p, received)
    ensures Accounted(setup, p.(deadline := deadline, done := done), received)
  {
    hide Counts, SoundWindow;
  }

  lemma HandlingKeepsAccount(setup: Setup, p: Processor, received: seq<Ingested>, turn: Turn)
    requires Accounted(setup, p, received)
    ensures Accounted(setup, Handle(setup, p, turn), received + Received(turn.event))
    ensures turn.event.RawChannelClosed? ==> Handle(setup, p, turn).open == []
  {
    hide CloseWindow, Accounted;
    assert received + [] == received;
    var p1, received1 := p, received;
    if turn.event.Raw? {
      TakingKeepsAccount(setup, p, received, turn.event.ingested);
      p1 := p.(stats := p.stats.Record(turn.event.ingested.kind), buffer := p.buffer + [setup.sanitize(turn.event.ingested)],
               open := p.open + [turn.event.ingested], eventsProcessed := p.eventsProcessed + 1);
      received1 := received + [turn.event.ingested];
    }
    ClosingKeepsAccount(setup, p1, received1, turn.wallMs);
    var closed := CloseWindow(p1, turn.wallMs);
    AccountOfRest(setup, closed, received1, closed.deadline, true);
    AccountOfRest(setup, closed, received1, turn.renewedAt + setup.windowTicks, closed.done);
  }

  /* ----- Both tasks ----- */

  /** Where the collection task stands. */
  datatype Collector = AtPoll | Sending(batch: seq<Ingested>) | AtShutdownCheck | Sleeping | Stopped

  /** `polled` and `polls` are history: everything the source ever returned, and how often it was asked. */
  datatype System = System(
    collector: Collector,
    channel: seq<Ingested>,
    shutdown: bool,
    now: int,
    processor: Processor,
    polled: seq<Ingested>,
    polls: nat)

  datatype Step =
    | Poll(found: seq<Ingested>)
    | Send
    | SendFails
    | BatchSent
    | CheckShutdown
    | Wake
    | Signal
    | Tick(delay: nat)
    | Receive(checkedAt: int, renewedAt: int, wallMs: int)
    | ReceiveClosed(renewedAt: int, wallMs: int)
    | Expire(renewedAt: int, wallMs: int)

  /** When a step can be taken.  The sender exists until the collector stops, the receiver until
      the processor is done; sending waits for room, receiving for an event or the sender's end. */
  predicate Enabled(setup: Setup, s: System, step: Step) {
    match step
    case Poll(_) => s.collector.AtPoll?
    case Send => s.collector.Sending? && s.collector.batch != [] && !s.processor.done && |s.channel| < setup.capacity
    case SendFails => s.collector.Sending? && s.collector.batch != [] && s.processor.done
    case BatchSent => s.collector == Sending([])
    case CheckShutdown => s.collector.AtShutdownCheck?
    case Wake => s.collector.Sleeping?
    case Signal => true
    case Tick(_) => true
    case Receive(checkedAt, renewedAt, _) => !s.processor.done && s.channel != [] && s.now <= checkedAt <= renewedAt
    case ReceiveClosed(renewedAt, _) => !s.processor.done && s.channel == [] && s.collector.Stopped? && s.now <= renewedAt
    case Expire(renewedAt, _) => !s.processor.done && s.now >= s.processor.deadline && s.now <= renewedAt
  }

  function Apply(setup: Setup, s: System, step: Step): System
    requires Enabled(setup, s, step)
  {
    match step
    case Poll(found) => s.(collector := Sending(found), polled := s.polled + found, polls := s.polls + 1)
    case Send => s.(channel := s.channel + [s.collector.batch[0]], collector := Sending(s.collector.batch[1..]))
    case SendFails => s.(collector := Stopped)
    case BatchSent => s.(collector := AtShutdownCheck)
    case CheckShutdown => s.(collector := if s.shutdown then Stopped else Sleeping)
    case Wake => s.(collector := AtPoll)
    case Signal => s.(shutdown := true)
    case Tick(delay) => s.(now := s.now + delay)
    case Receive(checkedAt, renewedAt, wallMs) =>
      s.(channel := s.channel[1..], now := renewedAt,
         processor := Handle(setup, s.processor, Turn(Raw(s.channel[0]), checkedAt, renewedAt, wallMs)))
    case ReceiveClosed(renewedAt, wallMs) =>
      s.(now := renewedAt, processor := Handle(setup, s.processor, Turn(RawChannelClosed, s.now, renewedAt, wallMs)))
    case Expire(renewedAt, wallMs) =>
      s.(now := renewedAt, processor := Handle(setup, s.processor, Turn(WindowExpired, s.now, renewedAt, wallMs)))
  }

  /** The daemon as it starts; the shutdown signal may already have been given. */
  predicate Initial(setup: Setup, s: System) {
    && s.collector == AtPoll && s.channel == [] && s.polled == [] && s.polls == 0
    && s.processor == Fresh(s.processor.startMs, s.now + setup.windowTicks)
  }

  /** The state after a run of steps, in whatever order the two tasks, the clock and the signal
      made them; none if one of them could not be taken. */
  function Run(setup: Setup, s0: System, steps: seq<Step>): Option<System> {
    if steps == [] then Some(s0)
    else
      var t := Run(setup, s0, steps[..|steps| - 1]);
      if t.Some? && Enabled(setup, t.value, steps[|steps| - 1]) then Some(Apply(setup, t.value, steps[|steps| - 1]))
      else None
  }

  predicate Reaches(setup: Setup, s0: System, steps: seq<Step>, s: System) {
    Run(setup, s0, steps) == Some(s)
  }

  function Unsent(s: System): seq<Ingested> {
    if s.collector.Sending? then s.collector.batch else []
  }

  ghost predicate Invariant(setup: Setup, s: System) {
    && s.processor.eventsProcessed <= |s.polled|
    && Accounted(setup, s.processor, s.polled[..s.processor.eventsProcessed])
    && s.polled[s.processor.eventsProcessed..] == s.channel + Unsent(s)
    && (s.processor.done ==> s.collector.Stopped? && s.channel == [] && s.processor.open == [])
    && (s.polls == 0 ==> s.collector.AtPoll? && !s.processor.done)
    && |s.channel| <= setup.capacity
  }

  lemma CollectorKeepsInvariant(setup: Setup, s: System, step: Step)
    requires Invariant(setup, s) && Enabled(setup, s, step)
    requires !step.Receive? && !step.ReceiveClosed? && !step.Expire?
    ensures Invariant(setup, Apply(setup, s, step))
  {
    hide Accounted, Handle;
    var n := s.processor.eventsProcessed;
    match step {
      case Poll(found) =>
        assert (s.polled + found)[..n] == s.polled[..n];
        assert (s.polled + found)[n..] == s.polled[n..] + found;
        assert s.channel + [] == s.channel;
      case Send =>
        var batch := s.collector.batch;
        assert s.channel + batch == (s.channel + [batch[0]]) + batch[1..];
      case _ =>
    }
  }

  lemma ProcessorKeepsInvariant(setup: Setup, s: System, turn: Turn, s': System)
    requires Invariant(setup, s) && !s.processor.done
    requires turn.event.Raw? ==> s.channel != [] && turn.event.ingested == s.channel[0]
    requires turn.event.RawChannelClosed? ==> s.channel == [] && s.collector.Stopped?
    requires s' == s.(channel := if turn.event.Raw? then s.channel[1..] else s.channel, now := s'.now,
                      processor := Handle(setup, s.processor, turn))
    ensures Invariant(setup, s')
  {
    hide Accounted, Handle;
    var received := s.polled[..s.processor.eventsProcessed];
    HandlingKeepsAccount(setup, s.processor, received, turn);
    CountsReceived(setup, s.processor, turn);
    assert s.polled[..s'.processor.eventsProcessed] == received + Received(turn.event);
    assert s.channel == Received(turn.event) + s'.channel;
    assert s.polled[s'.processor.eventsProcessed..] == s.polled[|received|..][|Received(turn.event)|..];
  }

  lemma StepKeepsInvariant(setup: Setup, s: System, step: Step)
    requires Invariant(setup, s) && Enabled(setup, s, step)
    ensures Invariant(setup, Apply(setup, s, step))
  {
    hide Accounted, Handle, Invariant;
    match step {
      case Receive(checkedAt, renewedAt, wallMs) =>
        ProcessorKeepsInvariant(setup, s, Turn(Raw(s.channel[0]), checkedAt, renewedAt, wallMs), Apply(setup, s, step));
      case ReceiveClosed(renewedAt, wallMs) =>
        ProcessorKeepsInvariant(setup, s, Turn(RawChannelClosed, s.now, renewedAt, wallMs), Apply(setup, s, step));
      case Expire(renewedAt, wallMs) =>
        ProcessorKeepsInvariant(setup, s, Turn(WindowExpired, s.now, renewedAt, wallMs), Apply(setup, s, step));
      case _ => CollectorKeepsInvariant(setup, s, step);
    }
  }

  lemma CountsReceived(setup: Setup, p: Processor, turn: Turn)
    ensures Handle(setup, p, turn).eventsProcessed == p.eventsProcessed + |Received(turn.event)|
    ensures !p.done ==> (Handle(setup, p, turn).done <==> turn.event.RawChannelClosed?)
  {
  }

  lemma {:induction false} InvariantHolds(setup: Setup, s0: System, steps: seq<Step>, s: System)
    requires Initial(setup, s0) && Reaches(setup, s0, steps, s)
    ensures Invariant(setup, s)
    decreases |steps|
  {
    hide Enabled, Apply, Accounted;
    if steps == [] {
      StartsAccounted(setup, s0);
    } else {
      var t := Run(setup, s0, steps[..|steps| - 1]).value;
      InvariantHolds(setup, s0, steps[..|steps| - 1], t);
      StepKeepsInvariant(setup, t, steps[|steps| - 1]);
    }
  }

  lemma StartsAccounted(setup: Setup, s0: System)
    requires Initial(setup, s0)
    ensures Invariant(setup, s0)
  {
    hide Counts;
    NothingCounted();
  }

  /* ----- Main results ----- */

  /** Whatever the interleaving, when the processing loop returns its windows hold exactly the
      polled events, in order, and the loop's own counts agree; every window is sound. */
  lemma NothingIsLost(setup: Setup, s0: System, steps: seq<Step>, s: System)
    requires Initial(setup, s0) && Reaches(setup, s0, steps, s) && s.processor.done
    ensures AllRaws(s.processor.handedOn) == s.polled
    ensures s.processor.eventsProcessed == |s.polled|
    ensures s.processor.ordinal == |s.processor.handedOn|
    ensures forall k :: 0 <= k < |s.processor.handedOn| ==> SoundWindow(setup, s.processor.handedOn[k], k)
    ensures s.collector.Stopped? && s.channel == []
    ensures s.polls >= 1
  {
    hide SoundWindow, Counts;
    InvariantHolds(setup, s0, steps, s);
    assert s.polled[..|s.polled|] == s.polled;
    assert AllRaws(s.processor.handedOn) + [] == AllRaws(s.processor.handedOn);
  }

  /** The sender never finds the receiver gone: the early return of the collection loop is never taken. */
  lemma SendNeverFails(setup: Setup, s0: System, steps: seq<Step>, s: System)
    requires Initial(setup, s0) && Reaches(setup, s0, steps, s)
    ensures !Enabled(setup, s, SendFails)
  {
    hide Accounted;
    InvariantHolds(setup, s0, steps, s);
  }

  /** The collector polls at least once before it stops, even if shutdown was signalled first. */
  lemma StopsOnlyAfterPolling(setup: Setup, s0: System, steps: seq<Step>, s: System)
    requires Initial(setup, s0) && Reaches(setup, s0, steps, s) && s.collector.Stopped?
    ensures s.polls >= 1 && Unsent(s) == []
  {
    hide Accounted;
    InvariantHolds(setup, s0, steps, s);
  }

  /** A step one of the tasks can take from here by itself. */
  function NextMove(s: System): Step {
    if s.channel != [] then Receive(s.now, s.now, 0)
    else match s.collector
      case AtPoll => Poll([])
      case Sending(batch) => if batch == [] then BatchSent else Send
      case AtShutdownCheck => CheckShutdown
      case Sleeping => Wake
      case Stopped => ReceiveClosed(s.now, 0)
  }

  /** Until both tasks have ended one of them can move, without waiting for clock or signal. */
  lemma NeverStuck(setup: Setup, s0: System, steps: seq<Step>, s: System)
    requires setup.capacity >= 1
    requires Initial(setup, s0) && Reaches(setup, s0, steps, s)
    requires !(s.collector.Stopped? && s.processor.done)
    ensures Enabled(setup, s, NextMove(s))
  {
    hide Accounted, Initial, Reaches;
    InvariantHolds(setup, s0, steps, s);
  }

  /** Once the collector has stopped, such a run to the end exists from every state: one receive for each
      event left and one for the closed channel, and nothing else. */
  lemma {:induction false} DrainsToTheEnd(setup: Setup, s: System) returns (steps: seq<Step>, end: System)
    requires s.collector.Stopped? && !s.processor.done
    ensures |steps| == |s.channel| + 1
    ensures Reaches(setup, s, steps, end) && end.processor.done && end.polled == s.polled
    decreases |s.channel|
  {
    if s.channel == [] {
      var step := ReceiveClosed(s.now, 0);
      steps, end := [step], Apply(setup, s, step);
      assert steps[..0] == [];
      assert Run(setup, s, []) == Some(s);
    } else {
      var step := Receive(s.now, s.now, 0);
      var s1 := Apply(setup, s, step);
      CountsReceived(setup, s.processor, Turn(Raw(s.channel[0]), s.now, s.now, 0));
      var rest;
      rest, end := DrainsToTheEnd(setup, s1);
      Prepend(setup, s, step, rest, end);
      steps := [step] + rest;
    }
  }

  predicate IsReceive(step: Step) {
    step.Receive? || step.ReceiveClosed?
  }

  /** How often the processor received in a run, be it an event or the channel's end. */
  function Receives(steps: seq<Step>): nat {
    if steps == [] then 0
    else Receives(steps[..|steps| - 1]) + if IsReceive(steps[|steps| - 1]) then 1 else 0
  }

  /** Whatever else happens in between, after the collector has stopped each receive brings the end one
      closer: at most one for each queued event and one more take place, and the processor is done
      exactly when all of them have. */
  lemma {:induction false} EveryRunDrains(setup: Setup, s0: System, steps: seq<Step>, s: System)
    requires s0.collector.Stopped? && !s0.processor.done && Reaches(setup, s0, steps, s)
    ensures s.collector.Stopped? && s.polled == s0.polled
    ensures Receives(steps) + |s.channel| + (if s.processor.done then 0 else 1) == |s0.channel| + 1
    ensures s.processor.done ==> s.channel == []
    ensures s.processor.done <==> Receives(steps) == |s0.channel| + 1
  {
    hide Handle;
    if steps != [] {
      var t, step := Run(setup, s0, steps[..|steps| - 1]).value, steps[|steps| - 1];
      EveryRunDrains(setup, s0, steps[..|steps| - 1], t);
      OneMoreStepDrains(setup, t, step);
    }
  }

  lemma OneMoreStepDrains(setup: Setup, s: System, step: Step)
    requires s.collector.Stopped? && Enabled(setup, s, step) && (s.processor.done ==> s.channel == [])
    ensures var s' := Apply(setup, s, step);
            && s'.collector.Stopped? && s'.polled == s.polled
            && (if IsReceive(step) then 1 else 0) + |s'.channel| + (if s'.processor.done then 0 else 1) ==
               |s.channel| + (if s.processor.done then 0 else 1)
            && (s'.processor.done ==> s'.channel == [])
  {
    hide Handle;
    match step {
      case Receive(checkedAt, renewedAt, wallMs) =>
        CountsReceived(setup, s.processor, Turn(Raw(s.channel[0]), checkedAt, renewedAt, wallMs));
      case ReceiveClosed(renewedAt, wallMs) =>
        CountsReceived(setup, s.processor, Turn(RawChannelClosed, s.now, renewedAt, wallMs));
      case Expire(renewedAt, wallMs) =>
        CountsReceived(setup, s.processor, Turn(WindowExpired, s.now, renewedAt, wallMs));
      case _ =>
    }
  }

  lemma {:induction false} Prepend(setup: Setup, s: System, step: Step, rest: seq<Step>, end: System)
    requires Enabled(setup, s, step) && Reaches(setup, Apply(setup, s, step), rest, end)
    ensures Reaches(setup, s, [step] + rest, end)
    decreases |rest|
  {
    hide Enabled, Apply;
    var all := [step] + rest;
    if rest == [] {
      assert all[..0] == [] && Run(setup, s, []) == Some(s);
    } else {
      var t := Run(setup, Apply(setup, s, step), rest[..|rest| - 1]).value;
      Prepend(setup, s, step, rest[..|rest| - 1], t);
      assert all[..|all| - 1] == [step] + rest[..|rest| - 1];
    }
  }

  /* ----- Shutdown and window length ----- */

  /** The collector stops only because shutdown was signalled. */
  lemma {:induction false} StopsOnlyWhenSignalled(setup: Setup, s0: System, steps: seq<Step>, s: System)
    requires Initial(setup, s0) && Reaches(setup, s0, steps, s) && s.collector.Stopped?
    ensures s.shutdown
    decreases |steps|
  {
    hide Handle, Initial;
    if steps == [] {
      StartsPolling(setup, s0);
    } else {
      var init, step := steps[..|steps| - 1], steps[|steps| - 1];
      var t := Run(setup, s0, init).value;
      SendNeverFails(setup, s0, init, t);
      if t.collector.Stopped? {
        StopsOnlyWhenSignalled(setup, s0, init, t);
      }
    }
  }

  lemma StartsPolling(setup: Setup, s0: System)
    requires Initial(setup, s0)
    ensures s0.collector.AtPoll?
  {
  }

  /** How many polls the collector can still begin before it next looks for the signal. */
  function PollsAhead(c: Collector): nat {
    match c
    case AtPoll => 1
    case Sleeping => 1
    case Sending(_) => 0
    case AtShutdownCheck => 0
    case Stopped => 0
  }

  /** Once shutdown is signalled at most one more poll begins, and none if the collector is past its poll. */
  lemma {:induction false} SignalIsHeeded(setup: Setup, s0: System, steps: seq<Step>, s: System)
    requires s0.shutdown && Reaches(setup, s0, steps, s)
    ensures s.shutdown && s0.polls <= s.polls
    ensures s.polls + PollsAhead(s.collector) <= s0.polls + PollsAhead(s0.collector)
  {
    hide Handle;
    if steps != [] {
      var t := Run(setup, s0, steps[..|steps| - 1]).value;
      SignalIsHeeded(setup, s0, steps[..|steps| - 1], t);
    }
  }

  /** A window never ends before its deadline unless the channel is closed, and the next deadline is one window
      length after the clock at its end. */
  lemma WindowsLastTheirLength(setup: Setup, s: System, step: Step)
    requires Enabled(setup, s, step) && !step.ReceiveClosed?
    requires Apply(setup, s, step).processor.startMs != s.processor.startMs
             || Apply(setup, s, step).processor.handedOn != s.processor.handedOn
             || Apply(setup, s, step).processor.deadline != s.processor.deadline
    ensures Apply(setup, s, step).now >= s.processor.deadline
    ensures Apply(setup, s, step).processor.deadline == Apply(setup, s, step).now + setup.windowTicks
  {
    hide SummaryOf, DurationSecs;
  }
}
