/** What the app lists and the duration of a window's summary say of its events. */
module SummaryLaws {
  import opened Wrappers
  import opened Spec
  import opened Sorting
  import opened Context

  /** The event has the app in the foreground: it came there, it runs as a process, or it acted on another app. */
  predicate HasInFront(event: SanitizedEvent, app: string) {
    || event.eventType == AppTransitionEvent(app, Foreground)
    || (event.eventType.ProcessResource? && event.eventType.processPackage == Some(app))
    || (event.eventType.InterAppInteraction? && event.eventType.sourcePackage == Some(app))
  }

  predicate NotifiesFor(event: SanitizedEvent, app: string) {
    event.eventType.Notification? && event.eventType.sourceApp == app
  }

  lemma ShownIsForeground(event: SanitizedEvent, app: string)
    ensures ForegroundOf(event) == Some(app) <==> HasInFront(event, app)
    ensures NotifiedOf(event) == Some(app) <==> NotifiesFor(event, app)
  {
  }

  /** Which of two lists of apps is meant. */
  datatype AppList = ForegroundList | NotifiedList

  function Listed(which: AppList, events: seq<SanitizedEvent>): seq<string> {
    match which case ForegroundList => SummaryOf(events).foregroundApps case NotifiedList => SummaryOf(events).notifiedApps
  }

  predicate Shows(which: AppList, event: SanitizedEvent, app: string) {
    match which case ForegroundList => HasInFront(event, app) case NotifiedList => NotifiesFor(event, app)
  }

  function ShownBy(which: AppList, event: SanitizedEvent): Option<string> {
    match which case ForegroundList => ForegroundOf(event) case NotifiedList => NotifiedOf(event)
  }

  lemma OneMoreListed(which: AppList, events: seq<SanitizedEvent>)
    requires events != []
    ensures var earlier := Listed(which, events[..|events| - 1]);
            var shown := ShownBy(which, events[|events| - 1]);
            Listed(which, events) == if shown.Some? && shown.value !in earlier then earlier + [shown.value] else earlier
    ensures Listed(which, []) == []
  {
    hide ForegroundOf, NotifiedOf, SemanticHints, FileCounts, LatestStatus, TierOf;
  }

  /** Event `e` is the first to show the app, and only apps listed before it were shown until then. */
  ghost predicate AppearsAt(which: AppList, events: seq<SanitizedEvent>, apps: seq<string>, j: nat, e: int)
    requires j < |apps|
  {
    && 0 <= e < |events| && Shows(which, events[e], apps[j])
    && forall d, app :: 0 <= d < e && Shows(which, events[d], app) ==> app in apps[..j]
  }

  ghost predicate Appears(which: AppList, events: seq<SanitizedEvent>, apps: seq<string>, j: nat)
    requires j < |apps|
  {
    exists e :: AppearsAt(which, events, apps, j, e)
  }

  /** Both app lists hold each app once, exactly the apps some event shows, in the order of their first showing. */
  lemma {:induction false} ListedByFirstShowing(which: AppList, events: seq<SanitizedEvent>)
    ensures Distinct(Listed(which, events))
    ensures forall app :: app in Listed(which, events) <==> exists e :: 0 <= e < |events| && Shows(which, events[e], app)
    ensures forall j :: 0 <= j < |Listed(which, events)| ==> Appears(which, events, Listed(which, events), j)
  {
    hide Listed, Shows, ShownBy;
    if events == [] {
      NothingListed(which);
    } else {
      var n := |events| - 1;
      var init := events[..n];
      var apps, earlier := Listed(which, events), Listed(which, init);
      ListedByFirstShowing(which, init);
      OneMoreListed(which, events);
      forall app { ShownIsListed(which, events[n], app); }
      assert forall e :: 0 <= e < n ==> events[e] == init[e];
      forall app ensures app in apps <==> exists e :: 0 <= e < |events| && Shows(which, events[e], app) {
        if app in earlier {
          var e :| 0 <= e < |init| && Shows(which, init[e], app);
          assert Shows(which, events[e], app);
        }
      }
      forall j | 0 <= j < |apps| ensures Appears(which, events, apps, j) {
        StillAppears(which, init, events[n], apps, earlier, j);
        assert init + [events[n]] == events;
      }
    }
  }

  lemma NothingListed(which: AppList)
    ensures Listed(which, []) == []
  {
  }

  lemma ShownIsListed(which: AppList, event: SanitizedEvent, app: string)
    ensures ShownBy(which, event) == Some(app) <==> Shows(which, event, app)
  {
    ShownIsForeground(event, app);
  }

  lemma StillAppears(which: AppList, init: seq<SanitizedEvent>, last: SanitizedEvent, apps: seq<string>, earlier: seq<string>,
                     j: nat)
    requires j < |apps|
    requires apps == earlier || (|apps| == |earlier| + 1 && apps[..|earlier|] == earlier && Shows(which, last, apps[|earlier|]))
    requires forall i :: 0 <= i < |earlier| ==> Appears(which, init, earlier, i)
    requires forall app :: app in earlier <==> exists e :: 0 <= e < |init| && Shows(which, init[e], app)
    ensures Appears(which, init + [last], apps, j)
  {
    hide Shows;
    var events := init + [last];
    assert forall e :: 0 <= e < |init| ==> events[e] == init[e];
    if j < |earlier| {
      assert apps[j] == earlier[j] && apps[..j] == earlier[..j];
      assert Appears(which, init, earlier, j);
      var e :| AppearsAt(which, init, earlier, j, e);
      assert AppearsAt(which, events, apps, j, e);
    } else {
      assert AppearsAt(which, events, apps, j, |init|);
    }
  }

  /* ----- Duration ----- */

  /** A window's duration is its length in whole seconds, rounded down, as long as that fits 32 bits; a window
      that ends before it starts lasts no time. */
  lemma DurationIsFloor(startMs: int, endMs: int)
    ensures endMs <= startMs ==> DurationSecs(startMs, endMs) == 0
    ensures startMs <= endMs && endMs - startMs < 1000 * 0x1_0000_0000 ==>
              1000 * DurationSecs(startMs, endMs) <= endMs - startMs < 1000 * DurationSecs(startMs, endMs) + 1000
  {
  }
}
