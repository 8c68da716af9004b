/** Replay cuts a trace into windows by the trace's own timestamps. */
module ReplayWindows {
  import opened Spec
  import opened Context

  /** An ingested event: when it was captured, and what is left of it after sanitizing. */
  datatype Captured = Captured(atMs: int, event: SanitizedEvent)

  function Events(trace: seq<Captured>): seq<SanitizedEvent> {
    seq(|trace|, i requires 0 <= i < |trace| => trace[i].event)
  }

  function LatestCapture(trace: seq<Captured>): int {
    if trace == [] then 0
    else
      var earlier := LatestCapture(trace[..|trace| - 1]);
      if trace[|trace| - 1].atMs > earlier then trace[|trace| - 1].atMs else earlier
  }

  /** Window `w` holds the stretch `from..to` of the trace, and every event of the stretch came
      in before the window had run out. */
  ghost predicate Covers(trace: seq<Captured>, w: StructuredContext, from: nat, to: nat, lengthMs: nat) {
    && from < to <= |trace|
    && w.events == Events(trace[from..to])
    && w.summary == SummaryOf(w.events)
    && w.durationSecs == DurationSecs(w.windowStartMs, w.windowEndMs)
    && InTime(trace, from, to, w.windowStartMs, lengthMs)
  }

  ghost predicate InTime(trace: seq<Captured>, from: nat, to: nat, startMs: int, lengthMs: nat) {
    forall j :: from <= j < to && j < |trace| ==> trace[j].atMs - startMs < lengthMs
  }

  /** The window ended at capture `next`, which found it expired. */
  ghost predicate ClosedOnExpiry(trace: seq<Captured>, w: StructuredContext, next: nat, lengthMs: nat) {
    next < |trace| && w.windowEndMs == trace[next].atMs && w.windowEndMs - w.windowStartMs >= lengthMs
  }

  /** The windows tile the trace: `cuts` marks where each begins, and where the last one ends. */
  ghost predicate Tiles(trace: seq<Captured>, windows: seq<StructuredContext>, cuts: seq<nat>, lengthMs: nat) {
    && |cuts| == |windows| + 1
    && cuts[0] == 0
    && (windows != [] && trace != [] ==> windows[0].windowStartMs == trace[0].atMs)
    && (forall k :: 0 <= k < |windows| ==> Covers(trace, windows[k], cuts[k], cuts[k + 1], lengthMs))
    && (forall k :: 0 < k < |windows| ==> windows[k].windowStartMs == windows[k - 1].windowEndMs)
    && (forall k :: 0 <= k < |windows| - 1 ==> ClosedOnExpiry(trace, windows[k], cuts[k + 1], lengthMs))
  }

  function Size(windows: seq<StructuredContext>): nat {
    if windows == [] then 0 else Size(windows[..|windows| - 1]) + |windows[|windows| - 1].events|
  }

  /** Where each window begins in the trace, and where the last one ends, going by their sizes. */
  function CutsOf(windows: seq<StructuredContext>): (cuts: seq<nat>)
    ensures |cuts| == |windows| + 1
  {
    if windows == [] then [0] else CutsOf(windows[..|windows| - 1]) + [Size(windows)]
  }

  /** The whole trace is cut into windows, the last of which ends with the latest capture. */
  ghost predicate Windowed(trace: seq<Captured>, windows: seq<StructuredContext>, lengthMs: nat) {
    && Tiles(trace, windows, CutsOf(windows), lengthMs)
    && CutsOf(windows)[|windows|] == |trace|
    && (windows != [] ==> windows[|windows| - 1].windowEndMs == LatestCapture(trace))
  }

  lemma OneMoreWindow(trace: seq<Captured>, windows: seq<StructuredContext>, cuts: seq<nat>, w: StructuredContext, to: nat, lengthMs: nat)
    requires Tiles(trace, windows, cuts, lengthMs)
    requires Covers(trace, w, cuts[|windows|], to, lengthMs)
    requires windows == [] ==> w.windowStartMs == trace[0].atMs
    requires windows != [] ==> w.windowStartMs == windows[|windows| - 1].windowEndMs
    requires windows != [] ==> ClosedOnExpiry(trace, windows[|windows| - 1], cuts[|windows|], lengthMs)
    ensures Tiles(trace, windows + [w], cuts + [to], lengthMs)
  {
    hide Covers, ClosedOnExpiry;
    var windows', cuts' := windows + [w], cuts + [to];
    assert forall k :: 0 <= k < |windows| ==> windows'[k] == windows[k] && cuts'[k + 1] == cuts[k + 1];
    assert Covers(trace, w, cuts[|windows|], to, lengthMs);
  }

  lemma NoWindowYet(trace: seq<Captured>, lengthMs: nat)
    ensures Tiles(trace, [], [0], lengthMs)
  {
  }

  lemma StillInTime(trace: seq<Captured>, from: nat, n: nat, startMs: int, lengthMs: nat)
    requires n < |trace| && InTime(trace, from, n, startMs, lengthMs) && trace[n].atMs - startMs < lengthMs
    ensures InTime(trace, from, n + 1, startMs, lengthMs)
  {
  }

  /** The replay loop from the Context stage on: windows are handed over as they close. */
  method RunWindows(trace: seq<Captured>, windowSecs: nat) returns (windows: seq<StructuredContext>)
    requires windowSecs >= 1 && windowSecs * 1000 <= I64_MAX
    requires forall j :: 0 <= j < |trace| ==> IsI64(trace[j].atMs)
    ensures Windowed(trace, windows, windowSecs * 1000)
  {
    hide Tiles, SummaryOf, InTime, CutsOf, DurationSecs, Events;
    ghost var lengthMs := windowSecs * 1000;
    LastCut([]);
    windows := [];
    ghost var cuts := [0];
    NoWindowYet(trace, lengthMs);
    ghost var from := 0;
    var lastCapturedMs := 0;
    var aggregator: WindowAggregator? := null;
    for n := 0 to |trace|
      invariant lastCapturedMs == LatestCapture(trace[..n])
      invariant aggregator == null <==> n == 0
      invariant aggregator != null ==> fresh(aggregator) && aggregator.windowSecs == windowSecs && IsI64(aggregator.windowStartMs)
      invariant cuts == CutsOf(windows) && cuts[|windows|] == from <= n
      invariant Tiles(trace, windows, cuts, lengthMs)
      invariant aggregator == null ==> windows == []
      invariant aggregator != null ==>
                  && from < n
                  && aggregator.buffer == Events(trace[from..n])
                  && InTime(trace, from, n, aggregator.windowStartMs, lengthMs)
                  && aggregator.windowStartMs == if windows == [] then trace[0].atMs else windows[|windows| - 1].windowEndMs
      invariant windows != [] ==> ClosedOnExpiry(trace, windows[|windows| - 1], from, lengthMs)
    {
      var captured := trace[n].atMs;
      assert trace[..n + 1][..n] == trace[..n];
      if captured > lastCapturedMs {
        lastCapturedMs := captured;
      }
      if aggregator == null {
        aggregator := new WindowAggregator(windowSecs, captured);
        EmptyInTime(trace, n, captured, lengthMs);
        EventsLength(trace, n, n);
      }
      if aggregator.IsExpired(captured) {
        var closed := aggregator.Close(captured);
        EventsLength(trace, from, n);
        EventsLength(trace, n, n);
        if closed.Some? {
          OneMoreWindow(trace, windows, cuts, closed.value, n, lengthMs);
          LastCut(windows);
          AppendCut(windows, closed.value);
          windows, cuts := windows + [closed.value], cuts + [n];
          from := n;
          EmptyInTime(trace, n, captured, lengthMs);
        }
      }
      aggregator.Push(trace[n].event);
      OneMoreEvent(trace, from, n);
      StillInTime(trace, from, n, aggregator.windowStartMs, lengthMs);
    }
    assert trace[..|trace|] == trace;
    if aggregator != null {
      var closed := aggregator.Close(lastCapturedMs);
      EventsLength(trace, from, |trace|);
      if closed.Some? {
        OneMoreWindow(trace, windows, cuts, closed.value, |trace|, lengthMs);
        LastCut(windows);
        AppendCut(windows, closed.value);
        windows, cuts := windows + [closed.value], cuts + [|trace|];
      }
    }
  }

  lemma AppendCut(windows: seq<StructuredContext>, w: StructuredContext)
    ensures CutsOf(windows + [w]) == CutsOf(windows) + [Size(windows) + |w.events|]
  {
    hide CutsOf, Size;
    var all := windows + [w];
    assert all[..|windows|] == windows;
    CutsWithLast(all);
    OneMoreSize(windows, w);
  }

  lemma CutsWithLast(windows: seq<StructuredContext>)
    requires windows != []
    ensures CutsOf(windows) == CutsOf(windows[..|windows| - 1]) + [Size(windows)]
  {
  }

  lemma OneMoreSize(windows: seq<StructuredContext>, w: StructuredContext)
    ensures Size(windows + [w]) == Size(windows) + |w.events|
  {
    var all := windows + [w];
    assert all[..|all| - 1] == windows && all[|all| - 1] == w;
  }

  lemma LastCut(windows: seq<StructuredContext>)
    ensures CutsOf(windows)[|windows|] == Size(windows)
    ensures CutsOf([]) == [0]
  {
  }

  lemma OneMoreEvent(trace: seq<Captured>, from: nat, n: nat)
    requires from <= n < |trace|
    ensures Events(trace[from..n + 1]) == Events(trace[from..n]) + [trace[n].event]
  {
  }

  lemma EventsLength(trace: seq<Captured>, from: nat, n: nat)
    requires from <= n <= |trace|
    ensures |Events(trace[from..n])| == n - from
  {
  }

  lemma EmptyInTime(trace: seq<Captured>, n: nat, startMs: int, lengthMs: nat)
    ensures InTime(trace, n, n, startMs, lengthMs)
  {
  }

  /* ----- What tiling means for the trace ----- */

  function AllEvents(windows: seq<StructuredContext>): seq<SanitizedEvent> {
    if windows == [] then [] else AllEvents(windows[..|windows| - 1]) + windows[|windows| - 1].events
  }

  /** Every event lands in exactly one window, and in trace order; no window is empty. */
  lemma {:induction false} NothingLost(trace: seq<Captured>, windows: seq<StructuredContext>, cuts: seq<nat>, lengthMs: nat)
    requires Tiles(trace, windows, cuts, lengthMs)
    ensures cuts[|windows|] <= |trace|
    ensures AllEvents(windows) == Events(trace[..cuts[|windows|]])
    ensures forall k :: 0 <= k < |windows| ==> windows[k].events != []
  {
    hide SummaryOf, InTime;
    if windows != [] {
      var last := |windows| - 1;
      FewerWindows(trace, windows, cuts, lengthMs);
      NothingLost(trace, windows[..last], cuts[..last + 1], lengthMs);
      assert Covers(trace, windows[last], cuts[last], cuts[last + 1], lengthMs);
      assert Events(trace[..cuts[last + 1]]) == Events(trace[..cuts[last]]) + Events(trace[cuts[last]..cuts[last + 1]]);
    }
  }

  lemma FewerWindows(trace: seq<Captured>, windows: seq<StructuredContext>, cuts: seq<nat>, lengthMs: nat)
    requires Tiles(trace, windows, cuts, lengthMs) && windows != []
    ensures Tiles(trace, windows[..|windows| - 1], cuts[..|windows|], lengthMs)
  {
    hide Covers;
    var last := |windows| - 1;
    var windows', cuts' := windows[..last], cuts[..last + 1];
    assert forall k :: 0 <= k < last ==> windows'[k] == windows[k];
    assert forall k :: 0 <= k <= last ==> cuts'[k] == cuts[k];
    assert forall k :: 0 <= k < last - 1 ==> ClosedOnExpiry(trace, windows[k], cuts[k + 1], lengthMs);
  }

  /** When captures never go back in time, every event lies in its own window's interval. */
  lemma EventsLieInTheirWindow(trace: seq<Captured>, windows: seq<StructuredContext>, cuts: seq<nat>, lengthMs: nat, k: nat, j: nat)
    requires Tiles(trace, windows, cuts, lengthMs)
    requires forall a, b :: 0 <= a < b < |trace| ==> trace[a].atMs <= trace[b].atMs
    requires k < |windows| && cuts[k] <= j < cuts[k + 1]
    ensures j < |trace|
    ensures windows[k].windowStartMs <= trace[j].atMs < windows[k].windowStartMs + lengthMs
    ensures k + 1 < |windows| ==> windows[k].windowEndMs - windows[k].windowStartMs >= lengthMs
  {
    hide SummaryOf;
    assert Covers(trace, windows[k], cuts[k], cuts[k + 1], lengthMs);
    if k > 0 {
      assert ClosedOnExpiry(trace, windows[k - 1], cuts[k], lengthMs);
    }
  }

  /** A trace is windowed in one way only. */
  lemma WindowingIsUnique(trace: seq<Captured>, a: seq<StructuredContext>, b: seq<StructuredContext>, lengthMs: nat)
    requires Windowed(trace, a, lengthMs) && Windowed(trace, b, lengthMs)
    ensures a == b
  {
    hide Windowed, CutsOf;
    NotShorter(trace, a, b, lengthMs);
    NotShorter(trace, b, a, lengthMs);
    SameUpTo(trace, a, b, lengthMs, |a|);
    assert a[..|a|] == a && b[..|a|] == b;
  }

  lemma NotShorter(trace: seq<Captured>, a: seq<StructuredContext>, b: seq<StructuredContext>, lengthMs: nat)
    requires Windowed(trace, a, lengthMs) && Windowed(trace, b, lengthMs)
    ensures |a| >= |b|
  {
    hide Tiles, CutsOf;
    if |a| < |b| {
      SameUpTo(trace, a, b, lengthMs, |a|);
      LastEndsAll(trace, b, lengthMs, |a|);
      assert false;
    }
  }

  lemma {:induction false} SameUpTo(trace: seq<Captured>, a: seq<StructuredContext>, b: seq<StructuredContext>,
                                    lengthMs: nat, k: nat)
    requires Windowed(trace, a, lengthMs) && Windowed(trace, b, lengthMs)
    requires k <= |a| && k <= |b|
    ensures a[..k] == b[..k] && CutsOf(a)[k] == CutsOf(b)[k]
    decreases k
  {
    hide Tiles, CutsOf, Windowed;
    if k == 0 {
      StartsAtZero(trace, a, lengthMs);
      StartsAtZero(trace, b, lengthMs);
    } else {
      SameUpTo(trace, a, b, lengthMs, k - 1);
      SameWindow(trace, a, b, lengthMs, k - 1);
      assert a[..k] == a[..k - 1] + [a[k - 1]] && b[..k] == b[..k - 1] + [b[k - 1]];
    }
  }

  lemma StartsAtZero(trace: seq<Captured>, a: seq<StructuredContext>, lengthMs: nat)
    requires Windowed(trace, a, lengthMs)
    ensures CutsOf(a)[0] == 0
  {
    hide CutsOf;
  }

  lemma SameWindow(trace: seq<Captured>, a: seq<StructuredContext>, b: seq<StructuredContext>, lengthMs: nat, k: nat)
    requires Windowed(trace, a, lengthMs) && Windowed(trace, b, lengthMs)
    requires k < |a| && k < |b| && a[..k] == b[..k] && CutsOf(a)[k] == CutsOf(b)[k]
    ensures a[k] == b[k] && CutsOf(a)[k + 1] == CutsOf(b)[k + 1]
  {
    hide SummaryOf, InTime, CutsOf, DurationSecs, LatestCapture, Tiles;
    SameStart(trace, a, b, lengthMs, k);
    EndsNoLater(trace, a, b, lengthMs, k);
    EndsNoLater(trace, b, a, lengthMs, k);
    LastEndsAll(trace, a, lengthMs, k);
    LastEndsAll(trace, b, lengthMs, k);
  }

  lemma SameStart(trace: seq<Captured>, a: seq<StructuredContext>, b: seq<StructuredContext>, lengthMs: nat, k: nat)
    requires Windowed(trace, a, lengthMs) && Windowed(trace, b, lengthMs)
    requires k < |a| && k < |b| && a[..k] == b[..k] && CutsOf(a)[k] == CutsOf(b)[k]
    ensures a[k].windowStartMs == b[k].windowStartMs
  {
    hide SummaryOf, InTime, CutsOf, DurationSecs, LatestCapture;
    if k > 0 {
      assert a[k - 1] == a[..k][k - 1] && b[k - 1] == b[..k][k - 1];
    } else {
      assert Covers(trace, a[0], CutsOf(a)[0], CutsOf(a)[1], lengthMs);
    }
  }

  /** A window that has more after it ends before the first event that finds it expired, the other
      one that starts with it cannot reach further. */
  lemma EndsNoLater(trace: seq<Captured>, a: seq<StructuredContext>, b: seq<StructuredContext>, lengthMs: nat, k: nat)
    requires Windowed(trace, a, lengthMs) && Windowed(trace, b, lengthMs)
    requires k < |a| && k < |b| && CutsOf(a)[k] == CutsOf(b)[k] && a[k].windowStartMs == b[k].windowStartMs
    ensures CutsOf(b)[k + 1] <= CutsOf(a)[k + 1]
  {
    hide SummaryOf, CutsOf, DurationSecs, LatestCapture;
    LastEndsAll(trace, a, lengthMs, k);
    assert Covers(trace, b[k], CutsOf(b)[k], CutsOf(b)[k + 1], lengthMs);
    assert Covers(trace, a[k], CutsOf(a)[k], CutsOf(a)[k + 1], lengthMs);
  }

  /** What a window holds and when it ends is settled by where it starts and where the next one does. */
  lemma LastEndsAll(trace: seq<Captured>, a: seq<StructuredContext>, lengthMs: nat, k: nat)
    requires Windowed(trace, a, lengthMs) && k < |a|
    ensures var from, to := CutsOf(a)[k], CutsOf(a)[k + 1];
            && from < to <= |trace|
            && a[k] == StructuredContext(a[k].windowStartMs, a[k].windowEndMs,
                                         DurationSecs(a[k].windowStartMs, a[k].windowEndMs),
                                         Events(trace[from..to]), SummaryOf(Events(trace[from..to])))
            && (k + 1 < |a| <==> to < |trace|)
            && a[k].windowEndMs == (if to < |trace| then trace[to].atMs else LatestCapture(trace))
            && (to < |trace| ==> trace[to].atMs - a[k].windowStartMs >= lengthMs)
  {
    hide SummaryOf, CutsOf, DurationSecs, LatestCapture, InTime;
    assert Covers(trace, a[k], CutsOf(a)[k], CutsOf(a)[k + 1], lengthMs);
    if k + 1 < |a| {
      assert Covers(trace, a[k + 1], CutsOf(a)[k + 1], CutsOf(a)[k + 2], lengthMs);
      assert ClosedOnExpiry(trace, a[k], CutsOf(a)[k + 1], lengthMs);
    }
  }
}
