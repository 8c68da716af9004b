/** The running score of a locally generated proposal, with its capped groups of boosts. */
module LocalScore {

  datatype Group = Package | Behavior | Correlation

  datatype Boost = Plain(delta: real, tag: string) | Grouped(group: Group, delta: real, tag: string)

  /** What the window as a whole says about its proposals. */
  datatype Signals = Signals(
    foregroundApps: seq<string>, lowBattery: bool, charging: bool, cellular: bool, offline: bool, screenNoninteractive: bool)

  datatype ScoreState = ScoreState(
    value: real, tags: seq<string>, packageBoost: real, behaviorBoost: real, correlationBoost: real)
  {
    function Used(group: Group): real {
      match group case Package => packageBoost case Behavior => behaviorBoost case Correlation => correlationBoost
    }

    function Raised(group: Group, x: real): ScoreState {
      match group
      case Package => this.(value := value + x, packageBoost := packageBoost + x)
      case Behavior => this.(value := value + x, behaviorBoost := behaviorBoost + x)
      case Correlation => this.(value := value + x, correlationBoost := correlationBoost + x)
    }
  }

  function Cap(group: Group): real {
    match group
    case Package => 0.08
    case Behavior => 0.05
    case Correlation => 0.08
  }

  function MinOf(a: real, b: real): real {
    if a < b then a else b
  }

  function MaxOf(a: real, b: real): real {
    if a > b then a else b
  }

  function Start(value: real): ScoreState {
    ScoreState(value, [], 0.0, 0.0, 0.0)
  }

  /** One boost: grouped boosts count only up to what is left of their group's cap. */
  function Boosted(s: ScoreState, b: Boost): ScoreState {
    match b
    case Plain(delta, tag) => s.(value := s.value + delta, tags := s.tags + [tag])
    case Grouped(group, delta, tag) =>
      var applied := MinOf(delta, MaxOf(Cap(group) - s.Used(group), 0.0));
      if applied <= 0.0 then s.(tags := s.tags + [tag + ":capped"])
      else s.Raised(group, applied).(tags := s.tags + [tag])
  }

  function BoostedAll(s: ScoreState, boosts: seq<Boost>): ScoreState {
    if boosts == [] then s else Boosted(BoostedAll(s, boosts[..|boosts| - 1]), boosts[|boosts| - 1])
  }

  /** The window's penalties, in order. */
  function WindowPenalties(signals: Signals, userVisible: bool): seq<Boost> {
    (if signals.lowBattery && !signals.charging then [Plain(-0.18, "local:penalty:low_battery")] else []) +
    (if signals.cellular then [Plain(-0.06, "local:penalty:cellular_network")] else []) +
    (if signals.offline then [Plain(-0.20, "local:penalty:offline")] else []) +
    (if signals.screenNoninteractive && userVisible then [Plain(-0.12, "local:penalty:screen_noninteractive")] else [])
  }

  function Clamped(s: ScoreState): ScoreState {
    s.(value := MaxOf(0.0, MinOf(s.value, 0.99)))
  }

  /** A whole appraisal: boosts, then the window, then what earlier feedback takes off again. */
  function Appraised(base: real, boosts: seq<Boost>, signals: Signals, userVisible: bool, feedback: seq<Boost>): ScoreState {
    BoostedAll(Clamped(BoostedAll(BoostedAll(Start(base), boosts), WindowPenalties(signals, userVisible))), feedback)
  }

  class Score {
    var value: real
    var tags: seq<string>
    var packageBoost: real
    var behaviorBoost: real
    var correlationBoost: real

    ghost function Now(): ScoreState
      reads this
    {
      ScoreState(value, tags, packageBoost, behaviorBoost, correlationBoost)
    }

    constructor (value: real)
      ensures Now() == Start(value)
    {
      this.value, tags := value, [];
      packageBoost, behaviorBoost, correlationBoost := 0.0, 0.0, 0.0;
    }

    method Add(delta: real, tag: string)
      modifies this
      ensures Now() == Boosted(old(Now()), Plain(delta, tag))
    {
      value := value + delta;
      tags := tags + [tag];
    }

    method AddGrouped(group: Group, delta: real, tag: string)
      modifies this
      ensures Now() == Boosted(old(Now()), Grouped(group, delta, tag))
    {
      var remaining := match group
        case Package => Cap(group) - packageBoost
        case Behavior => Cap(group) - behaviorBoost
        case Correlation => Cap(group) - correlationBoost;
      var applied := MinOf(delta, MaxOf(remaining, 0.0));
      if applied <= 0.0 {
        tags := tags + [tag + ":capped"];
        return;
      }
      value := value + applied;
      match group {
        case Package => packageBoost := packageBoost + applied;
        case Behavior => behaviorBoost := behaviorBoost + applied;
        case Correlation => correlationBoost := correlationBoost + applied;
      }
      tags := tags + [tag];
    }

    method AddAll(boosts: seq<Boost>)
      modifies this
      ensures Now() == BoostedAll(old(Now()), boosts)
    {
      hide Boosted;
      for i := 0 to |boosts|
        invariant Now() == BoostedAll(old(Now()), boosts[..i])
      {
        assert boosts[..i + 1][..i] == boosts[..i];
        match boosts[i] {
          case Plain(delta, tag) => Add(delta, tag);
          case Grouped(group, delta, tag) => AddGrouped(group, delta, tag);
        }
      }
      assert boosts[..|boosts|] == boosts;
    }

    method ApplyWindow(signals: Signals, userVisible: bool)
      modifies this
      ensures Now() == Clamped(BoostedAll(old(Now()), WindowPenalties(signals, userVisible)))
    {
      AddAll(WindowPenalties(signals, userVisible));
      value := if value < 0.0 then 0.0 else if value > 0.99 then 0.99 else value;
    }
  }

  /** The score of one proposal, computed on a fresh record. */
  method Appraise(base: real, boosts: seq<Boost>, signals: Signals, userVisible: bool, feedback: seq<Boost>)
    returns (value: real, tags: seq<string>)
    ensures value == Appraised(base, boosts, signals, userVisible, feedback).value
    ensures tags == Appraised(base, boosts, signals, userVisible, feedback).tags
  {
    hide BoostedAll, WindowPenalties;
    var score := new Score(base);
    score.AddAll(boosts);
    score.ApplyWindow(signals, userVisible);
    score.AddAll(feedback);
    assert score.Now() == Appraised(base, boosts, signals, userVisible, feedback);
    value, tags := score.value, score.tags;
  }

  /* ----- What the caps amount to ----- */

  /** The sum of a group's boosts, without any cap. */
  function Asked(boosts: seq<Boost>, group: Group): real {
    if boosts == [] then 0.0
    else
      var last := boosts[|boosts| - 1];
      Asked(boosts[..|boosts| - 1], group) + if last.Grouped? && last.group == group then last.delta else 0.0
  }

  function PlainSum(boosts: seq<Boost>): real {
    if boosts == [] then 0.0
    else
      var last := boosts[|boosts| - 1];
      PlainSum(boosts[..|boosts| - 1]) + if last.Plain? then last.delta else 0.0
  }

  ghost predicate Accounts(s: ScoreState, base: real, boosts: seq<Boost>) {
    && (forall g :: Asked(boosts, g) >= 0.0 && s.Used(g) == MinOf(Cap(g), Asked(boosts, g)))
    && s.value == base + PlainSum(boosts) + s.Used(Package) + s.Used(Behavior) + s.Used(Correlation)
  }

  /** Whatever the order of the boosts, each group adds the smaller of its cap and what it asked for. */
  lemma {:induction false} GroupsAddUpToTheirCap(base: real, boosts: seq<Boost>)
    requires forall i :: 0 <= i < |boosts| && boosts[i].Grouped? ==> boosts[i].delta >= 0.0
    ensures Accounts(BoostedAll(Start(base), boosts), base, boosts)
  {
    if boosts == [] {
      assert forall g :: Start(base).Used(g) == 0.0;
    } else {
      hide Accounts;
      var init, last := boosts[..|boosts| - 1], boosts[|boosts| - 1];
      GroupsAddUpToTheirCap(base, init);
      assert boosts == init + [last];
      OneMoreBoost(BoostedAll(Start(base), init), base, init, last);
    }
  }

  function Gain(b: Boost, g: Group): real {
    if b.Grouped? && b.group == g then b.delta else 0.0
  }

  lemma OneMoreAsked(init: seq<Boost>, last: Boost, g: Group)
    ensures Asked(init + [last], g) == Asked(init, g) + Gain(last, g)
    ensures PlainSum(init + [last]) == PlainSum(init) + if last.Plain? then last.delta else 0.0
  {
    assert (init + [last])[..|init|] == init;
  }

  /** One boost raises its own group to at most its cap, and the value by as much. */
  lemma BoostStaysWithinCap(s: ScoreState, b: Boost)
    requires b.Grouped? && b.delta >= 0.0 && s.Used(b.group) <= Cap(b.group)
    ensures Boosted(s, b).Used(b.group) == MinOf(Cap(b.group), s.Used(b.group) + b.delta)
    ensures Boosted(s, b).value == s.value + Boosted(s, b).Used(b.group) - s.Used(b.group)
    ensures forall g :: g != b.group ==> Boosted(s, b).Used(g) == s.Used(g)
  {
  }

  lemma OneMoreBoost(s: ScoreState, base: real, init: seq<Boost>, last: Boost)
    requires Accounts(s, base, init) && (last.Grouped? ==> last.delta >= 0.0)
    ensures Accounts(Boosted(s, last), base, init + [last])
  {
    hide Asked, PlainSum, Cap;
    var r := Boosted(s, last);
    forall g { OneMoreAsked(init, last, g); }
    OneMoreAsked(init, last, Package);
    if last.Grouped? {
      hide Boosted;
      assert s.Used(last.group) == MinOf(Cap(last.group), Asked(init, last.group));
      BoostStaysWithinCap(s, last);
      forall g ensures r.Used(g) == MinOf(Cap(g), Asked(init + [last], g)) {
        assert s.Used(g) == MinOf(Cap(g), Asked(init, g));
      }
    } else {
      forall g ensures r.Used(g) == MinOf(Cap(g), Asked(init + [last], g)) {
        assert s.Used(g) == MinOf(Cap(g), Asked(init, g));
        assert r.Used(g) == s.Used(g);
      }
    }
  }

  lemma {:induction false} PenaltiesOnlyLower(s: ScoreState, penalties: seq<Boost>)
    requires forall i :: 0 <= i < |penalties| ==> penalties[i].Plain? && penalties[i].delta <= 0.0
    ensures BoostedAll(s, penalties).value <= s.value
  {
    if penalties != [] {
      PenaltiesOnlyLower(s, penalties[..|penalties| - 1]);
    }
  }

  /** A confidence never exceeds 0.99, however many boosts went into it; feedback may push it below zero. */
  lemma ConfidenceStaysBelowOne(base: real, boosts: seq<Boost>, signals: Signals, userVisible: bool, feedback: seq<Boost>)
    requires forall i :: 0 <= i < |feedback| ==> feedback[i].Plain? && feedback[i].delta <= 0.0
    ensures Appraised(base, boosts, signals, userVisible, feedback).value <= 0.99
  {
    hide BoostedAll;
    PenaltiesOnlyLower(Clamped(BoostedAll(BoostedAll(Start(base), boosts), WindowPenalties(signals, userVisible))), feedback);
  }
}
