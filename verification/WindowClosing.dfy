/** When the processing loop closes its windows, and what each of them holds, read off the turns alone. */
module WindowClosing {
  import opened Context
  import opened Runtime

  /** The raw events that turns brought in. */
  function RawsIn(turns: seq<Turn>): seq<Ingested> {
    if turns == [] then []
    else
      var last := turns[|turns| - 1];
      RawsIn(turns[..|turns| - 1]) + match last.event case Raw(e) => [e] case _ => []
  }

  function Flatten(stretches: seq<seq<Turn>>): seq<Turn> {
    if stretches == [] then [] else Flatten(stretches[..|stretches| - 1]) + stretches[|stretches| - 1]
  }

  /** A turn ends a window when the channel is closed, the timer has expired, or the deadline is over. */
  predicate EndsWindow(turn: Turn, deadline: int) {
    turn.event.RawChannelClosed? || turn.event.WindowExpired? || turn.checkedAt >= deadline
  }

  /** A stretch of turns up to and including the first one that ends the window. */
  predicate IsStretch(turns: seq<Turn>, deadline: int) {
    && turns != []
    && EndsWindow(turns[|turns| - 1], deadline)
    && StaysOpen(turns[..|turns| - 1], deadline)
  }

  predicate StaysOpen(turns: seq<Turn>, deadline: int) {
    forall k :: 0 <= k < |turns| ==> !EndsWindow(turns[k], deadline)
  }

  /** The deadline after these stretches: one window length after the start of the loop, or after the
      clock reading of the turn that ended the last of them. */
  function DeadlineAfter(setup: Setup, startedAt: int, stretches: seq<seq<Turn>>): int
    requires forall i :: 0 <= i < |stretches| ==> stretches[i] != []
  {
    if stretches == [] then startedAt + setup.windowTicks
    else
      var last := stretches[|stretches| - 1];
      last[|last| - 1].renewedAt + setup.windowTicks
  }

  /** The wall clock at which the window after these stretches starts. */
  function StartAfter(startMs: int, stretches: seq<seq<Turn>>): int
    requires forall i :: 0 <= i < |stretches| ==> stretches[i] != []
  {
    if stretches == [] then startMs
    else
      var last := stretches[|stretches| - 1];
      last[|last| - 1].wallMs
  }

  /** The turns are cut after exactly those that end a window; `open` is what comes after the last of them. */
  ghost predicate IsCut(setup: Setup, startedAt: int, turns: seq<Turn>, stretches: seq<seq<Turn>>, open: seq<Turn>) {
    && Flatten(stretches) + open == turns
    && (forall i :: 0 <= i < |stretches| ==> stretches[i] != [])
    && (forall i :: 0 <= i < |stretches| ==> IsStretch(stretches[i], DeadlineAfter(setup, startedAt, stretches[..i])))
    && StaysOpen(open, DeadlineAfter(setup, startedAt, stretches))
  }

  /** The windows are the stretches that brought something in, in order: each holds the raw events of its
      stretch, and lasts from the turn that ended the stretch before to the one that ended its own. */
  ghost predicate AreWindows(startMs: int, stretches: seq<seq<Turn>>, windows: seq<ProcessedWindow>)
    requires forall i :: 0 <= i < |stretches| ==> stretches[i] != []
  {
    if stretches == [] then windows == []
    else
      var init, last := stretches[..|stretches| - 1], stretches[|stretches| - 1];
      if RawsIn(last) == [] then AreWindows(startMs, init, windows)
      else
        && windows != [] && AreWindows(startMs, init, windows[..|windows| - 1])
        && var w := windows[|windows| - 1];
          && w.raws == RawsIn(last)
          && w.ctx.windowStartMs == StartAfter(startMs, init)
          && w.ctx.windowEndMs == last[|last| - 1].wallMs
          && w.ctx.durationSecs == DurationSecs(w.ctx.windowStartMs, w.ctx.windowEndMs)
  }

  /** The loop's variables after some turns. */
  ghost predicate Stands(setup: Setup, startMs: int, startedAt: int, turns: seq<Turn>, stretches: seq<seq<Turn>>,
                         open: seq<Turn>, p: Processor)
  {
    && IsCut(setup, startedAt, turns, stretches, open)
    && AreWindows(startMs, stretches, p.handedOn)
    && Accounted(setup, p, RawsIn(turns))
    && p.open == RawsIn(open)
    && p.startMs == StartAfter(startMs, stretches)
    && p.deadline == DeadlineAfter(setup, startedAt, stretches)
  }

  lemma RawsAppend(turns: seq<Turn>, turn: Turn)
    ensures RawsIn(turns + [turn]) == RawsIn(turns) + Received(turn.event)
  {
    assert (turns + [turn])[..|turns|] == turns;
  }

  lemma OneMoreStretch(setup: Setup, startedAt: int, turns: seq<Turn>, stretches: seq<seq<Turn>>, open: seq<Turn>, turn: Turn)
    requires IsCut(setup, startedAt, turns, stretches, open)
    requires EndsWindow(turn, DeadlineAfter(setup, startedAt, stretches))
    ensures Flatten(stretches + [open + [turn]]) == turns + [turn]
    ensures forall i :: 0 <= i < |stretches + [open + [turn]]| ==> (stretches + [open + [turn]])[i] != []
    ensures forall i :: 0 <= i < |stretches + [open + [turn]]| ==>
              IsStretch((stretches + [open + [turn]])[i],
                        DeadlineAfter(setup, startedAt, (stretches + [open + [turn]])[..i]))
  {
    hide EndsWindow, DeadlineAfter, StaysOpen;
    var longer := stretches + [open + [turn]];
    assert longer[..|stretches|] == stretches;
    assert (open + [turn])[..|open|] == open;
    assert forall i :: 0 <= i < |stretches| ==> longer[i] == stretches[i] && longer[..i] == stretches[..i];
    assert Flatten(stretches) + (open + [turn]) == turns + [turn];
  }

  lemma OneMoreWindow(startMs: int, stretches: seq<seq<Turn>>, last: seq<Turn>, windows: seq<ProcessedWindow>, w: ProcessedWindow)
    requires last != [] && (forall i :: 0 <= i < |stretches| ==> stretches[i] != [])
    requires AreWindows(startMs, stretches, windows)
    requires w.raws == RawsIn(last)
    requires w.ctx.windowStartMs == StartAfter(startMs, stretches)
    requires w.ctx.windowEndMs == last[|last| - 1].wallMs
    requires w.ctx.durationSecs == DurationSecs(w.ctx.windowStartMs, w.ctx.windowEndMs)
    ensures AreWindows(startMs, stretches + [last], if RawsIn(last) == [] then windows else windows + [w])
  {
    hide RawsIn, DurationSecs, StartAfter;
    assert (stretches + [last])[..|stretches|] == stretches;
    assert (windows + [w])[..|windows|] == windows;
  }

  /** What handling a turn does to the loop's variables. */
  lemma HandlingOne(setup: Setup, p: Processor, turn: Turn)
    requires (p.buffer == []) == (p.open == [])
    ensures var p' := Handle(setup, p, turn);
            var open := p.open + Received(turn.event);
            if EndsWindow(turn, p.deadline) then
              && p'.open == [] && p'.startMs == turn.wallMs
              && (!turn.event.RawChannelClosed? ==> p'.deadline == turn.renewedAt + setup.windowTicks)
              && (if open == [] then p'.handedOn == p.handedOn
                  else
                    && |p'.handedOn| == |p.handedOn| + 1
                    && p'.handedOn == p.handedOn + [p'.handedOn[|p.handedOn|]]
                    && var w := p'.handedOn[|p.handedOn|];
                      && w.raws == open
                      && w.ctx.windowStartMs == p.startMs && w.ctx.windowEndMs == turn.wallMs
                      && w.ctx.durationSecs == DurationSecs(p.startMs, turn.wallMs))
            else
              && p'.open == open && p'.handedOn == p.handedOn && p'.startMs == p.startMs && p'.deadline == p.deadline
  {
    hide SummaryOf, DurationSecs;
    assert p.open + [] == p.open;
  }

  lemma TurnEndsWindow(setup: Setup, startMs: int, startedAt: int, turns: seq<Turn>, stretches: seq<seq<Turn>>,
                       open: seq<Turn>, p: Processor, turn: Turn)
    requires Stands(setup, startMs, startedAt, turns, stretches, open, p)
    requires EndsWindow(turn, p.deadline)
    ensures var p' := Handle(setup, p, turn);
            var longer := stretches + [open + [turn]];
            && Flatten(longer) == turns + [turn]
            && (forall i :: 0 <= i < |longer| ==> longer[i] != [])
            && (forall i :: 0 <= i < |longer| ==> IsStretch(longer[i], DeadlineAfter(setup, startedAt, longer[..i])))
            && AreWindows(startMs, longer, p'.handedOn)
            && p'.open == [] && p'.startMs == turn.wallMs
            && (!turn.event.RawChannelClosed? ==> p'.deadline == turn.renewedAt + setup.windowTicks)
  {
    hide Handle, AreWindows, EndsWindow, IsStretch, StaysOpen, DeadlineAfter, StartAfter, DurationSecs, Flatten, Counts, SoundWindow, RawsIn;
    var p' := Handle(setup, p, turn);
    var last := open + [turn];
    HandlingOne(setup, p, turn);
    OneMoreStretch(setup, startedAt, turns, stretches, open, turn);
    RawsAppend(open, turn);
    if RawsIn(last) == [] {
      NothingMore(startMs, stretches, last, p.handedOn);
    } else {
      OneMoreWindow(startMs, stretches, last, p.handedOn, p'.handedOn[|p.handedOn|]);
    }
  }

  lemma NothingMore(startMs: int, stretches: seq<seq<Turn>>, last: seq<Turn>, windows: seq<ProcessedWindow>)
    requires last != [] && (forall i :: 0 <= i < |stretches| ==> stretches[i] != [])
    requires AreWindows(startMs, stretches, windows) && RawsIn(last) == []
    ensures AreWindows(startMs, stretches + [last], windows)
  {
    hide RawsIn, DurationSecs, StartAfter;
    assert (stretches + [last])[..|stretches|] == stretches;
  }

  lemma TurnStaysOpen(setup: Setup, startMs: int, startedAt: int, turns: seq<Turn>, stretches: seq<seq<Turn>>,
                      open: seq<Turn>, p: Processor, turn: Turn)
    requires Stands(setup, startMs, startedAt, turns, stretches, open, p)
    requires !EndsWindow(turn, p.deadline)
    ensures Stands(setup, startMs, startedAt, turns + [turn], stretches, open + [turn], Handle(setup, p, turn))
  {
    hide Handle, AreWindows, EndsWindow, IsStretch, DeadlineAfter, StartAfter, DurationSecs, Flatten, Accounted, RawsIn;
    BufferMatchesOpen(setup, p, RawsIn(turns));
    HandlingOne(setup, p, turn);
    HandlingKeepsAccount(setup, p, RawsIn(turns), turn);
    RawsAppend(open, turn);
    RawsAppend(turns, turn);
    assert Flatten(stretches) + (open + [turn]) == turns + [turn];
  }

  lemma BufferMatchesOpen(setup: Setup, p: Processor, received: seq<Ingested>)
    requires Accounted(setup, p, received)
    ensures (p.buffer == []) == (p.open == [])
  {
  }

  /** As long as the channel is open, the loop stands where the cut of its turns says. */
  lemma {:induction false} StandsAtCut(setup: Setup, startMs: int, startedAt: int, turns: seq<Turn>)
    returns (stretches: seq<seq<Turn>>, open: seq<Turn>)
    requires forall n :: 0 <= n < |turns| ==> !turns[n].event.RawChannelClosed?
    ensures Stands(setup, startMs, startedAt, turns, stretches, open,
                   HandleAll(setup, Fresh(startMs, startedAt + setup.windowTicks), turns))
  {
    hide Handle, EndsWindow, IsStretch, Accounted, AreWindows, RawsIn;
    if turns == [] {
      stretches, open := [], [];
      FreshStands(setup, startMs, startedAt);
    } else {
      var init, turn := turns[..|turns| - 1], turns[|turns| - 1];
      assert turns == init + [turn];
      var p := HandleAll(setup, Fresh(startMs, startedAt + setup.windowTicks), init);
      stretches, open := StandsAtCut(setup, startMs, startedAt, init);
      if EndsWindow(turn, p.deadline) {
        TurnEndsWindow(setup, startMs, startedAt, init, stretches, open, p, turn);
        HandlingKeepsAccount(setup, p, RawsIn(init), turn);
        RawsAppend(init, turn);
        stretches, open := stretches + [open + [turn]], [];
        NoRaws();
        assert Flatten(stretches) + open == turns;
      } else {
        TurnStaysOpen(setup, startMs, startedAt, init, stretches, open, p, turn);
        open := open + [turn];
      }
    }
  }

  lemma NoRaws()
    ensures RawsIn([]) == []
  {
  }

  lemma FreshStands(setup: Setup, startMs: int, startedAt: int)
    ensures Stands(setup, startMs, startedAt, [], [], [], Fresh(startMs, startedAt + setup.windowTicks))
  {
    hide Counts;
    NothingCounted();
  }

  /** The whole loop, up to the closed channel: its turns are cut after exactly those that end a window, the
      closing of the channel included, and the windows handed on are the stretches that brought something
      in; each is sound. */
  lemma WindowsAreTheStretches(setup: Setup, startMs: int, startedAt: int, turns: seq<Turn>)
    returns (stretches: seq<seq<Turn>>)
    requires turns != [] && turns[|turns| - 1].event.RawChannelClosed?
    requires forall n :: 0 <= n < |turns| - 1 ==> !turns[n].event.RawChannelClosed?
    ensures Flatten(stretches) == turns
    ensures forall i :: 0 <= i < |stretches| ==> stretches[i] != []
    ensures forall i :: 0 <= i < |stretches| ==> IsStretch(stretches[i], DeadlineAfter(setup, startedAt, stretches[..i]))
    ensures var windows := HandleAll(setup, Fresh(startMs, startedAt + setup.windowTicks), turns).handedOn;
            && AreWindows(startMs, stretches, windows)
            && AllRaws(windows) == RawsIn(turns)
            && forall k :: 0 <= k < |windows| ==> SoundWindow(setup, windows[k], k)
  {
    hide Handle, IsStretch, AreWindows, RawsIn, SoundWindow, Counts;
    var init, turn := turns[..|turns| - 1], turns[|turns| - 1];
    assert turns == init + [turn];
    var p := HandleAll(setup, Fresh(startMs, startedAt + setup.windowTicks), init);
    var open;
    stretches, open := StandsAtCut(setup, startMs, startedAt, init);
    TurnEndsWindow(setup, startMs, startedAt, init, stretches, open, p, turn);
    HandlingKeepsAccount(setup, p, RawsIn(init), turn);
    RawsAppend(init, turn);
    stretches := stretches + [open + [turn]];
    var windows := Handle(setup, p, turn).handedOn;
    assert AllRaws(windows) + [] == AllRaws(windows);
  }
}
