/** Where the packages in the prewarm queue come from: policy, lifecycle and memory taken together. */
module PrewarmOrigin {
  import opened Wrappers
  import opened Spec
  import opened Text
  import Policy
  import Lifecycle
  import Memory

  lemma {:induction false} RegistrationHasRecord(records: seq<Lifecycle.AuditRecord>, p: Memory.PendingPrewarm)
    requires p in Memory.Registrations(records)
    ensures exists k :: 0 <= k < |records| && p in Memory.Registration(records[k])
  {
    hide Memory.Registration;
    var last := |records| - 1;
    if p in Memory.Registrations(records[..last]) {
      RegistrationHasRecord(records[..last], p);
      var k :| 0 <= k < last && p in Memory.Registration(records[..last][k]);
      assert records[..last][k] == records[k];
    } else {
      assert p in Memory.Registration(records[last]);
    }
  }

  predicate NamesKnownPackage(ctx: StructuredContext, p: Memory.PendingPrewarm) {
    && StartsWith(p.target, "pkg:")
    && Policy.Knows(ctx, p.target[4..])
    && p.package == Trim(p.target[4..]) != ""
  }

  lemma RegisteredIsKnown(job: Lifecycle.Job, c: Coord, earlier: seq<Lifecycle.AuthorizedAction>, p: Memory.PendingPrewarm)
    requires job.Has(c) && p in Memory.Registration(Lifecycle.RecordFor(job, c, earlier))
    ensures job.Dispatches(c) && NamesKnownPackage(job.ctx, p)
  {
    hide Policy.TargetsOf, Policy.Passing, Policy.Knows, Trim, Lifecycle.SchemaError;
    var action := job.Action(c);
    assert Lifecycle.FateOf(job, c, earlier).Executed?;
    assert Policy.ActionReason(job.Rules(), action).None?;
    AllowedPackage(p.target, Policy.TargetsOf(job.ctx));
    assert p.target == action.target.value;
  }

  lemma AllowedPackage(target: string, known: Policy.KnownTargets)
    requires StartsWith(target, "pkg:") && Policy.AllowedPrewarmTarget(target, known)
    ensures target[4..] in known.packages
  {
    assert target[0] == 'p';
  }

  /** Whatever backend proposed the actions and however the adapter behaves: every prewarm that enters the
      queue was dispatched in its window and names a package the window mentions. */
  lemma QueuedPackagesWereSeen(job: Lifecycle.Job, p: Memory.PendingPrewarm)
    ensures forall c :: c in Lifecycle.Coords(job.batch.intents) ==> job.Has(c)
    ensures p in Memory.Registrations(Lifecycle.Records(job, Lifecycle.Coords(job.batch.intents))) ==>
              && NamesKnownPackage(job.ctx, p)
              && exists c :: job.Has(c) && job.Dispatches(c) && job.Action(c).target == Some(p.target)
  {
    hide Policy.TargetsOf, Policy.Verdict, Policy.Knows, Trim, Lifecycle.SchemaError, Memory.Registrations;
    hide Lifecycle.FateOf, Lifecycle.Coords, Lifecycle.Records;
    var coords := Lifecycle.Coords(job.batch.intents);
    Lifecycle.CoordsEnumerate(job.batch.intents);
    var records := Lifecycle.Records(job, coords);
    if p in Memory.Registrations(records) {
      RegistrationHasRecord(records, p);
      var k :| 0 <= k < |records| && p in Memory.Registration(records[k]);
      Lifecycle.RecordAt(job, coords, k);
      assert coords[k] in coords;
      RegisteredIsKnown(job, coords[k], Lifecycle.Dispatches(job, coords[..k]), p);
      assert job.Action(coords[k]).target == Some(p.target);
    }
  }

  /* ----- What enters the queue ----- */

  /** A target in the `pkg:` scope that is not blank after it. */
  predicate NamesPackage(target: Option<string>) {
    target.Some? && StartsWith(target.value, "pkg:") && exists i :: 4 <= i < |target.value| && !IsWhitespace(target.value[i])
  }

  lemma NormalizedIsNamed(target: string)
    ensures Memory.NormalizePackage(target) ==
            if NamesPackage(Some(target)) then Some(Trim(target[4..])) else None
  {
    hide Trim, IsWhitespace;
    if StartsWith(target, "pkg:") {
      var rest := target[4..];
      TrimIsExact(rest);
      if NamesPackage(Some(target)) {
        var i :| 4 <= i < |target| && !IsWhitespace(target[i]);
        assert rest[i - 4] == target[i];
      } else {
        assert forall i :: 0 <= i < |rest| ==> rest[i] == target[4 + i];
      }
      assert target == "pkg:" + rest;
    }
  }

  /** One entry for the record of a prewarm that succeeded on a package: the target, the package without surrounding
      blanks, and no window observed yet; nothing for any other record. */
  function Queued(r: Lifecycle.AuditRecord): (added: seq<Memory.PendingPrewarm>)
    ensures |added| <= 1
  {
    if r.actionType == PreWarmProcess && r.terminal == Succeeded && NamesPackage(r.target)
    then [Memory.PendingPrewarm(r.target.value, Trim(r.target.value[4..]), 0)]
    else []
  }

  /** A record adds just this entry, at the queue's end. */
  lemma RecordIsQueued(s: Memory.Store, summary: ContextSummary, records: seq<Lifecycle.AuditRecord>, r: Lifecycle.AuditRecord)
    ensures Memory.Observe(s, Memory.Window(summary, records + [r])).pending ==
            Memory.Observe(s, Memory.Window(summary, records)).pending +
            Queued(r)
  {
    hide Memory.ResolvePending, NamesPackage, Trim, Memory.NormalizePackage;
    assert (records + [r])[..|records|] == records;
    if r.target.Some? {
      NormalizedIsNamed(r.target.value);
    } else {
      NothingNamed();
    }
    var before := Memory.ResolvePending(s, summary.foregroundApps).pending;
    assert before + [] == before;
    assert before + (Memory.Registrations(records) + Memory.Registration(r)) ==
           before + Memory.Registrations(records) + Memory.Registration(r);
  }

  /** Without records nothing enters the queue. */
  lemma NothingQueued(s: Memory.Store, summary: ContextSummary)
    ensures Memory.Observe(s, Memory.Window(summary, [])).pending == Memory.ResolvePending(s, summary.foregroundApps).pending
  {
    hide Memory.ResolvePending;
    var before := Memory.ResolvePending(s, summary.foregroundApps).pending;
    assert before + [] == before;
  }

  lemma NothingNamed()
    ensures !NamesPackage(None)
  {
  }

  /* ----- What enters it in a window of work ----- */

  /** The calls that prewarmed this package and that the adapter answered well; the `k`-th answer may depend on
      all calls up to it. */
  function SucceededPrewarms(job: Lifecycle.Job, calls: seq<Lifecycle.AuthorizedAction>, package: string): nat {
    if calls == [] then 0
    else
      var action := calls[|calls| - 1].action;
      SucceededPrewarms(job, calls[..|calls| - 1], package) +
      if action.actionType == PreWarmProcess && NamesPackage(action.target) && Trim(action.target.value[4..]) == package
         && job.adapter(calls).Ok? then 1 else 0
  }

  lemma WaitingForConcat(a: seq<Memory.PendingPrewarm>, b: seq<Memory.PendingPrewarm>, package: string)
    requires |b| <= 1
    ensures Memory.WaitingFor(a + b, package) == Memory.WaitingFor(a, package) + Memory.WaitingFor(b, package)
  {
    if b == [] {
      assert a + b == a;
    } else {
      assert (a + b)[..|a|] == a && b[..0] == [];
    }
  }

  /** One more action: its record is of a success exactly if it is dispatched and answered well. */
  lemma OneMoreAction(job: Lifecycle.Job, c: Coord, earlier: seq<Lifecycle.AuthorizedAction>, package: string)
    requires job.Has(c)
    ensures var r := Lifecycle.RecordFor(job, c, earlier);
            && r.actionType == job.Action(c).actionType && r.target == job.Action(c).target
            && (r.terminal == Succeeded <==> job.Dispatches(c) && job.adapter(earlier + [job.Seal(c)]).Ok?)
  {
    hide Policy.Verdict, Policy.TargetsOf, Lifecycle.SchemaError, EffectOf;
  }

  lemma {:induction false} SuccessesAreQueued(s: Memory.Store, job: Lifecycle.Job, coords: seq<Coord>, package: string)
    requires forall c :: c in coords ==> job.Has(c)
    ensures Memory.WaitingFor(Memory.Observe(s, Memory.Window(job.ctx.summary, Lifecycle.Records(job, coords))).pending, package) ==
            Memory.WaitingFor(Memory.ResolvePending(s, job.ctx.summary.foregroundApps).pending, package) +
            SucceededPrewarms(job, Lifecycle.Dispatches(job, coords), package)
  {
    hide Memory.Observe, Memory.ResolvePending, Lifecycle.RecordFor, NamesPackage, Trim, Policy.Verdict, Lifecycle.SchemaError;
    hide Policy.TargetsOf, EffectOf;
    if coords == [] {
      NothingQueued(s, job.ctx.summary);
    } else {
      var init, c := coords[..|coords| - 1], coords[|coords| - 1];
      var earlier, r := Lifecycle.Dispatches(job, init), Lifecycle.RecordFor(job, c, Lifecycle.Dispatches(job, init));
      SuccessesAreQueued(s, job, init, package);
      OneMoreAction(job, c, earlier, package);
      RecordIsQueued(s, job.ctx.summary, Lifecycle.Records(job, init), r);
      var before := Memory.Observe(s, Memory.Window(job.ctx.summary, Lifecycle.Records(job, init))).pending;
      var added := Queued(r);
      WaitingForConcat(before, added, package);
      assert (earlier + [job.Seal(c)])[..|earlier|] == earlier;
      assert earlier + [] == earlier;
      WaitingForOne(added, package);
    }
  }

  lemma WaitingForOne(added: seq<Memory.PendingPrewarm>, package: string)
    requires |added| <= 1
    ensures Memory.WaitingFor(added, package) == if added != [] && added[0].package == package then 1 else 0
  {
    if added != [] {
      assert added[..0] == [];
    }
  }

  /** Over a window's whole work, whatever was proposed and however the adapter behaves: for each package the
      queue grows by exactly the number of dispatched prewarms of it that the adapter answered well. */
  lemma QueueCountsSuccesses(s: Memory.Store, job: Lifecycle.Job, package: string)
    ensures var coords := Lifecycle.Coords(job.batch.intents);
            && (forall c :: c in coords ==> job.Has(c))
            && Memory.WaitingFor(
                 Memory.Observe(s, Memory.Window(job.ctx.summary, Lifecycle.Records(job, coords))).pending, package) ==
               Memory.WaitingFor(Memory.ResolvePending(s, job.ctx.summary.foregroundApps).pending, package) +
               SucceededPrewarms(job, Lifecycle.Dispatches(job, coords), package)
  {
    hide Memory.Observe, Memory.ResolvePending, Lifecycle.Records, Lifecycle.Dispatches;
    Lifecycle.CoordsEnumerate(job.batch.intents);
    SuccessesAreQueued(s, job, Lifecycle.Coords(job.batch.intents), package);
  }
}
