/** What the model memory counts of a window's actions, against what the adapter answered. */
module OutcomeCounts {
  import opened Spec
  import opened Memory
  import Policy
  import Lifecycle

  /** The calls for actions of a type that the adapter answered well, or that it failed. */
  function Answered(job: Lifecycle.Job, calls: seq<Lifecycle.AuthorizedAction>, action: ActionType, well: bool): nat {
    if calls == [] then 0
    else
      Answered(job, calls[..|calls| - 1], action, well) +
      if calls[|calls| - 1].action.actionType == action && job.adapter(calls).Ok? == well then 1 else 0
  }

  /** The actions of a type that were turned away, for their form or by the policy. */
  function TurnedAway(job: Lifecycle.Job, coords: seq<Coord>, action: ActionType): nat
    requires forall c :: c in coords ==> job.Has(c)
  {
    if coords == [] then 0
    else
      var c := coords[|coords| - 1];
      TurnedAway(job, coords[..|coords| - 1], action) +
      if job.Action(c).actionType == action && !(job.SchemaFault(c).None? && job.Verdict(c) == Approved) then 1 else 0
  }

  function Occurrences(keys: seq<string>, key: string): nat {
    if keys == [] then 0 else Occurrences(keys[..|keys| - 1], key) + if keys[|keys| - 1] == key then 1 else 0
  }

  lemma {:induction false} NotingCounts(t: Tally, keys: seq<string>, key: string)
    ensures CountOf(NoteAll(t, keys), key) == CountOf(t, key) + Occurrences(keys, key)
  {
    hide Note, CountOf;
    if keys == [] {
      NoteNone(t);
    } else {
      var init := keys[..|keys| - 1];
      assert keys == init + [keys[|keys| - 1]];
      NotingCounts(t, init, key);
      NoteOneMore(t, init, keys[|keys| - 1]);
      NotingCountsOne(NoteAll(t, init), keys[|keys| - 1]);
    }
  }

  lemma OneMoreOccurrence(keys: seq<string>, more: seq<string>, key: string)
    requires |more| <= 1
    ensures Occurrences(keys + more, key) == Occurrences(keys, key) + if more != [] && more[0] == key then 1 else 0
  {
    if more == [] {
      assert keys + more == keys;
    } else {
      assert (keys + more)[..|keys|] == keys;
    }
  }

  lemma NamesAreUnique(a: ActionType, b: ActionType)
    ensures Policy.ActionName(a) == Policy.ActionName(b) <==> a == b
  {
    assert |Policy.ActionName(a)| == |Policy.ActionName(b)| ==> a == b;
  }

  /** The names of the records that ended in this way count the actions that were answered, or turned away, in it. */
  lemma {:induction false} EndedCounts(job: Lifecycle.Job, coords: seq<Coord>, action: ActionType)
    requires forall c :: c in coords ==> job.Has(c)
    ensures var records, calls := Lifecycle.Records(job, coords), Lifecycle.Dispatches(job, coords);
            var name := Policy.ActionName(action);
            && Occurrences(Ended(records, SUCCESS), name) == Answered(job, calls, action, true)
            && Occurrences(Ended(records, FAILURE), name) == Answered(job, calls, action, false)
            && Occurrences(Ended(records, DENIAL), name) == TurnedAway(job, coords, action)
  {
    hide Policy.Verdict, Policy.TargetsOf, Lifecycle.SchemaError, EffectOf, Policy.ActionName, Lifecycle.RecordFor, Ended;
    hide Occurrences, Answered;
    if coords == [] {
      NothingEnded(job, action);
    } else {
      var init, c := coords[..|coords| - 1], coords[|coords| - 1];
      var records, earlier := Lifecycle.Records(job, init), Lifecycle.Dispatches(job, init);
      var r := Lifecycle.RecordFor(job, c, earlier);
      EndedCounts(job, init, action);
      RecordEnds(job, c, earlier);
      OneMoreEnded(records, r, SUCCESS, action);
      OneMoreEnded(records, r, FAILURE, action);
      OneMoreEnded(records, r, DENIAL, action);
      OneMoreAnswered(job, earlier, job.Seal(c), action);
      assert earlier + [] == earlier;
    }
  }

  lemma OneMoreEnded(records: seq<Lifecycle.AuditRecord>, r: Lifecycle.AuditRecord, states: set<ActionState>, action: ActionType)
    ensures Occurrences(Ended(records + [r], states), Policy.ActionName(action)) ==
            Occurrences(Ended(records, states), Policy.ActionName(action)) +
            if r.terminal in states && r.actionType == action then 1 else 0
  {
    hide Occurrences, Policy.ActionName;
    EndedOneMore(records, r);
    NamesAreUnique(r.actionType, action);
    OneMoreOccurrence(Ended(records, states), if r.terminal in states then [Policy.ActionName(r.actionType)] else [],
                      Policy.ActionName(action));
  }

  lemma OneMoreAnswered(job: Lifecycle.Job, calls: seq<Lifecycle.AuthorizedAction>, call: Lifecycle.AuthorizedAction,
                        action: ActionType)
    ensures forall well :: Answered(job, calls + [call], action, well) == Answered(job, calls, action, well) +
              if call.action.actionType == action && job.adapter(calls + [call]).Ok? == well then 1 else 0
  {
    assert (calls + [call])[..|calls|] == calls;
  }

  lemma NothingEnded(job: Lifecycle.Job, action: ActionType)
    ensures forall states, key :: Occurrences(Ended([], states), key) == 0
    ensures forall well :: Answered(job, [], action, well) == 0
  {
  }

  lemma RecordEnds(job: Lifecycle.Job, c: Coord, earlier: seq<Lifecycle.AuthorizedAction>)
    requires job.Has(c)
    ensures var r := Lifecycle.RecordFor(job, c, earlier);
            && r.actionType == job.Action(c).actionType
            && (r.terminal in SUCCESS <==> job.Dispatches(c) && job.adapter(earlier + [job.Seal(c)]).Ok?)
            && (r.terminal in FAILURE <==> job.Dispatches(c) && job.adapter(earlier + [job.Seal(c)]).Err?)
            && (r.terminal in DENIAL <==> !job.Dispatches(c))
  {
    hide Policy.Verdict, Policy.TargetsOf, Lifecycle.SchemaError, EffectOf;
  }

  /** Observing a window of work adds to the counts of an action type exactly its calls that were answered well,
      its calls that failed, and its actions that were turned away. */
  lemma CountsAreOutcomes(s: Store, job: Lifecycle.Job, action: ActionType)
    ensures forall c :: c in Lifecycle.Coords(job.batch.intents) ==> job.Has(c)
    ensures var coords := Lifecycle.Coords(job.batch.intents);
            var calls := Lifecycle.Dispatches(job, coords);
            var after := Observe(s, Window(job.ctx.summary, Lifecycle.Records(job, coords)));
            var name := Policy.ActionName(action);
            && CountOf(after.successes, name) == CountOf(s.successes, name) + Answered(job, calls, action, true)
            && CountOf(after.failures, name) == CountOf(s.failures, name) + Answered(job, calls, action, false)
            && CountOf(after.denials, name) == CountOf(s.denials, name) + TurnedAway(job, coords, action)
  {
    hide Observe, Note, NoteAll, Decay, Ended, Policy.ActionName, Lifecycle.Records, Lifecycle.Dispatches, CountOf;
    Lifecycle.CoordsEnumerate(job.batch.intents);
    var coords := Lifecycle.Coords(job.batch.intents);
    var w, name := Window(job.ctx.summary, Lifecycle.Records(job, coords)), Policy.ActionName(action);
    EndedCounts(job, coords, action);
    FieldCounts(s, w, SuccessField, name);
    FieldCounts(s, w, FailureField, name);
    FieldCounts(s, w, DenialField, name);
  }

  lemma FieldCounts(s: Store, w: Window, field: Field, key: string)
    ensures CountOf(TallyOf(field, Observe(s, w)), key) == CountOf(TallyOf(field, s), key) + Occurrences(KeysFor(field, w), key)
  {
    hide Observe, Note, NoteAll, TallyOf, KeysFor;
    ObservingOneField(s, w, field);
    NotingCounts(Decay(TallyOf(field, s), DecayFactor(s)), KeysFor(field, w), key);
  }

  /** A configured decay and horizon are kept where they are within bounds, and moved to the nearest bound otherwise. */
  lemma ConfigurationIsClamped(decayMilli: nat, horizon: nat)
    ensures var s := NewStore(decayMilli, horizon);
            && s.decayMilli <= 999 && (decayMilli <= 999 ==> s.decayMilli == decayMilli)
            && (decayMilli > 999 ==> s.decayMilli == 999)
            && 1 <= s.horizon <= 20 && (1 <= horizon <= 20 ==> s.horizon == horizon)
            && (horizon == 0 ==> s.horizon == 1) && (horizon > 20 ==> s.horizon == 20)
  {
  }

  /** Hints are counted under different names. */
  lemma HintNamesAreUnique(a: SemanticHint, b: SemanticHint)
    ensures HintName(a) == HintName(b) <==> a == b
  {
    assert HintName(a)[0] == HintName(b)[0] && |HintName(a)| == |HintName(b)| ==> a == b;
  }
}
