/** What the reports of runs mean, however runs of one spec interleave: who made each version, and what is stored. */
module RunReports {
  import opened Prelude
  import opened Decimals
  import opened Events
  import opened Totals
  import opened Aggregation
  import opened AggregationLaws
  import opened Revisions
  import opened Planning
  import opened Cells
  import opened Runner
  import opened Workers
  import Claims

  // ---- Plans ----

  /** A planned version is stored already or made by this run's own call. */
  predicate Earned(rows: seq<Aggregate>, a: Aggregate, job: Job) {
    a in rows || OfCall(a, job)
  }

  /** Over stored versions a call plans stored versions and its own. */
  lemma PlannedIsEarned(rows: seq<Aggregate>, scan: seq<Event>, previous: map<string, Aggregate>, job: Job)
    requires job.spec.windowSize > 0 && AggregateAll(scan, previous, job).Ok?
    requires forall k :: k in previous ==> previous[k] in rows
    ensures forall a :: a in AggregateAll(scan, previous, job).value ==> Earned(rows, a, job)
  {
    hide AggregateAll, SortedGroups, Members, MadeFor, OfCall, SetFingerprint;
    var plan := AggregateAll(scan, previous, job).value;
    forall a | a in plan ensures Earned(rows, a, job) {
      var i :| 0 <= i < |plan| && plan[i] == a;
      ResultsExplained(scan, previous, job, i);
      var key := SortedGroups(scan, job.spec, job.watermark)[i];
      MadeIsOfCall(a, key, Members(scan, key, job.spec, job.watermark),
                   Prior(previous, AggregateId(job.spec, key, job.hash)), job);
    }
  }

  lemma MadeIsOfCall(a: Aggregate, key: GroupKey, members: seq<Event>, previous: Option<Aggregate>, job: Job)
    ensures MadeFor(a, key, members, previous, job) ==> OfCall(a, job)
  {
    hide AggregateId, SetFingerprint, RunningSum, StorageResult, OfCall;
  }

  /** A version as a run makes it: for its watermark, at its time, under its correlation, of its spec. */
  predicate MadeByRun(a: Aggregate, spec: Spec, input: Input) {
    && a.watermark == input.watermark && a.createdAt == input.now && a.correlation == input.ambient
    && a.scope == spec.scope && a.meterId == spec.meterId && a.meterVersion == spec.meterVersion
    && a.algorithm == spec.algorithm
  }

  lemma CallOfRun(a: Aggregate, spec: Spec, input: Input)
    ensures OfCall(a, JobOf(spec, input)) <==> MadeByRun(a, spec, input)
  {
  }

  // ---- One run alone ----

  /** Whatever else it does, a run appends only versions of its own making. */
  lemma RunAppendsItsOwn(world: World, spec: Spec, input: Input, a: Aggregate)
    requires spec.windowSize > 0 && spec.pageSize > 0
    requires a in RunOnce(world, spec, input).0.aggregates && a !in world.aggregates
    ensures MadeByRun(a, spec, input)
  {
    hide ScanResult, PutAll, Plan, OfCall, MadeByRun;
    CallOfRun(a, spec, input);
    var read := Read(world, spec, input.watermark);
    if read.Ok? && Plan(world.aggregates, read.value, JobOf(spec, input)).Ok? {
      var plan := Plan(world.aggregates, read.value, JobOf(spec, input)).value;
      PutAllCounts(world.aggregates, plan, input.hash);
      PlanIsEarned(world.aggregates, read.value, JobOf(spec, input));
    }
  }

  lemma PlanIsEarned(rows: seq<Aggregate>, scan: seq<Event>, job: Job)
    requires job.spec.windowSize > 0 && Plan(rows, scan, job).Ok?
    ensures forall a :: a in Plan(rows, scan, job).value ==> Earned(rows, a, job)
  {
    hide AggregateAll, PreviousOf, Earned;
    var provisional := AggregateAll(scan, map[], job).value;
    PreviousIsStored(rows, provisional, job.spec.scope);
    PlannedIsEarned(rows, scan, PreviousOf(rows, provisional, job.spec.scope), job);
  }

  lemma {:induction false} PreviousIsStored(rows: seq<Aggregate>, provisional: seq<Aggregate>, scope: Labels)
    ensures forall k :: k in PreviousOf(rows, provisional, scope) ==> PreviousOf(rows, provisional, scope)[k] in rows
  {
    hide Latest;
    if provisional != [] {
      var n := |provisional| - 1;
      var a := provisional[n];
      PreviousIsStored(rows, provisional[..n], scope);
      LatestIsHighest(rows, scope, a.aggregateId, a.start, a.end);
    }
  }

  /**
    The report of a successful run: the checkpoint that is stored now, at the run's watermark and time and one revision
    on; the number of events read; a plan all of which is stored; and as many replays as were not appended.
   */
  lemma ReportIsTrue(world: World, spec: Spec, input: Input)
    requires spec.windowSize > 0 && spec.pageSize > 0 && RunOnce(world, spec, input).1.Ok?
    ensures var (after, r) := RunOnce(world, spec, input);
            var checkpoint := RecordOf(world.checkpoint);
            && after.events == world.events && world.aggregates <= after.aggregates
            && RecordOf(after.checkpoint) == Some(r.value.checkpoint)
            && r.value.checkpoint.watermark == input.watermark && r.value.checkpoint.updatedAt == input.now
            && r.value.checkpoint.revision == (if checkpoint.None? then 0 else checkpoint.value.revision) + 1
            && r.value.eventsRead == |Scan(world.events, spec, ScanStart(spec, checkpoint), input.watermark)|
            && r.value.replayed + (|after.aggregates| - |world.aggregates|) == |r.value.aggregates|
            && forall a :: a in r.value.aggregates ==> StoredAs(after.aggregates, a, input.hash)
  {
    hide Scan, ScanStart, PutAll, Plan, StoredAs;
    var scan := Read(world, spec, input.watermark).value;
    var plan := Plan(world.aggregates, scan, JobOf(spec, input)).value;
    PutAllCounts(world.aggregates, plan, input.hash);
  }

  // ---- Interleaved runs ----

  ghost predicate ReportHolds(rows: seq<Aggregate>, r: Result<Report>, input: Input) {
    r.Ok? ==>
      && r.value.checkpoint.watermark == input.watermark && r.value.checkpoint.updatedAt == input.now
      && r.value.replayed <= |r.value.aggregates|
      && forall a :: a in r.value.aggregates ==> StoredAs(rows, a, input.hash)
  }

  ghost predicate WorkerHolds(rows: seq<Aggregate>, w: Worker, spec: Spec) {
    match w
    case Looking(_, _, _, _, _, _, previous, i) => forall k :: k in previous ==> previous[k] in rows
    case Writing(input, _, _, _, _, plan, i, replayed) =>
      && replayed <= i <= |plan|
      && (forall a :: a in plan ==> Earned(rows, a, JobOf(spec, input)))
      && forall a :: a in plan[..i] ==> StoredAs(rows, a, input.hash)
    case Releasing(input, _, r) => ReportHolds(rows, r, input)
    case Done(input, _, r) => ReportHolds(rows, r, input)
    case _ => true
  }

  /** Every version was made by one of the runs, for that run's watermark and at its time. */
  ghost predicate Accounted(s: Site, spec: Spec) {
    forall a :: a in s.world.aggregates ==>
      exists c :: c in s.workers && OfCall(a, JobOf(spec, s.workers[c].input))
  }

  ghost predicate Invariant(s: Site, spec: Spec) {
    && Accounted(s, spec)
    && forall c :: c in s.workers ==> WorkerHolds(s.world.aggregates, s.workers[c], spec)
  }

  lemma ReportHoldsGrows(rows: seq<Aggregate>, more: seq<Aggregate>, r: Result<Report>, input: Input)
    requires ReportHolds(rows, r, input) && rows <= more
    ensures ReportHolds(more, r, input)
  {
    hide StoredAs;
    if r.Ok? {
      forall a | a in r.value.aggregates ensures StoredAs(more, a, input.hash) {
        StaysStored(rows, more, a, input.hash);
      }
    }
  }

  lemma WorkerHoldsGrows(rows: seq<Aggregate>, more: seq<Aggregate>, w: Worker, spec: Spec)
    requires WorkerHolds(rows, w, spec) && rows <= more
    ensures WorkerHolds(more, w, spec)
  {
    hide StoredAs, ReportHolds, OfCall;
    match w {
      case Writing(input, _, _, _, _, plan, i, _) =>
        forall a | a in plan[..i] ensures StoredAs(more, a, input.hash) {
          StaysStored(rows, more, a, input.hash);
        }
      case Releasing(input, _, r) => ReportHoldsGrows(rows, more, r, input);
      case Done(input, _, r) => ReportHoldsGrows(rows, more, r, input);
      case _ =>
    }
  }

  lemma ReadsHold(rows: seq<Aggregate>, w: Worker, spec: Spec)
    requires spec.windowSize > 0 && w.Looking? && WorkerHolds(rows, w, spec)
    ensures WorkerHolds(rows, AfterReads(w, spec), spec)
  {
    hide AggregateAll, StoredAs, Earned;
    if AfterReads(w, spec).Writing? {
      PlannedIsEarned(rows, w.scan, w.previous, JobOf(spec, w.input));
      assert AfterReads(w, spec).plan[..0] == [];
    }
  }

  lemma LookHolds(rows: seq<Aggregate>, w: Worker, spec: Spec)
    requires w.Looking? && w.i < |w.provisional| && WorkerHolds(rows, w, spec)
    ensures var previous := Looked(rows, w.provisional[w.i], w.previous, spec.scope);
            forall k :: k in previous ==> previous[k] in rows
  {
    hide Latest;
    var a := w.provisional[w.i];
    LatestIsHighest(rows, spec.scope, a.aggregateId, a.start, a.end);
  }

  lemma PutHolds(world: World, w: Worker, spec: Spec)
    requires spec.windowSize > 0 && spec.pageSize > 0 && w.Writing? && w.i < |w.plan|
    requires WorkerHolds(world.aggregates, w, spec)
    ensures var (after, next) := Move(world, w, spec);
            && world.aggregates <= after.aggregates && WorkerHolds(after.aggregates, next, spec)
            && forall a :: a in after.aggregates ==> a in world.aggregates || OfCall(a, JobOf(spec, w.input))
  {
    hide PutAggregate, StoredAs, OfCall;
    var (after, next) := Move(world, w, spec);
    var a := w.plan[w.i];
    assert a in w.plan;
    PutIsStored(world.aggregates, a, w.input.hash);
    if next.Writing? {
      assert w.plan[..w.i + 1] == w.plan[..w.i] + [a];
      forall b | b in w.plan[..w.i] ensures StoredAs(after.aggregates, b, w.input.hash) {
        StaysStored(world.aggregates, after.aggregates, b, w.input.hash);
      }
    }
  }

  lemma AdvanceHolds(world: World, w: Worker, spec: Spec)
    requires spec.windowSize > 0 && spec.pageSize > 0 && w.Writing? && w.i == |w.plan|
    requires WorkerHolds(world.aggregates, w, spec)
    ensures var (after, next) := Move(world, w, spec);
            after.aggregates == world.aggregates && WorkerHolds(after.aggregates, next, spec)
  {
    hide StoredAs, Earned;
    assert w.plan[..w.i] == w.plan;
  }

  lemma MoveHolds(world: World, w: Worker, spec: Spec)
    requires spec.windowSize > 0 && spec.pageSize > 0 && !w.Done? && WorkerHolds(world.aggregates, w, spec)
    ensures var (after, next) := Move(world, w, spec);
            && next.input == w.input
            && world.aggregates <= after.aggregates && WorkerHolds(after.aggregates, next, spec)
            && forall a :: a in after.aggregates ==> a in world.aggregates || OfCall(a, JobOf(spec, w.input))
  {
    hide AggregateAll, ScanResult, PutAggregate, Looked, Released, StoredAs, Earned, OfCall, AfterReads, AfterAdvance,
        ReportHolds;
    MoveFrame(world, w, spec);
    match w {
      case Looking(_, _, _, _, _, provisional, _, i) =>
        if i < |provisional| {
          LookHolds(world.aggregates, w, spec);
        } else {
          ReadsHold(world.aggregates, w, spec);
        }
      case Writing(_, _, _, _, _, plan, i, _) =>
        if i < |plan| {
          PutHolds(world, w, spec);
        } else {
          AdvanceHolds(world, w, spec);
        }
      case Releasing(_, _, _) => ReleaseHolds(world, w, spec);
      case _ => EarlyMoveHolds(world, w, spec);
    }
  }

  lemma ReleaseHolds(world: World, w: Worker, spec: Spec)
    requires spec.windowSize > 0 && spec.pageSize > 0 && w.Releasing? && WorkerHolds(world.aggregates, w, spec)
    ensures var (after, next) := Move(world, w, spec);
            after.aggregates == world.aggregates && WorkerHolds(after.aggregates, next, spec)
  {
    hide StoredAs;
  }

  lemma EarlyMoveHolds(world: World, w: Worker, spec: Spec)
    requires spec.windowSize > 0 && spec.pageSize > 0 && (w.Claimed? || w.Positioned?)
    ensures var (after, next) := Move(world, w, spec);
            after.aggregates == world.aggregates && WorkerHolds(after.aggregates, next, spec)
  {
    hide AggregateAll, ScanResult, StoredAs;
  }

  lemma StepHolds(s: Site, t: Site, spec: Spec)
    requires spec.windowSize > 0 && spec.pageSize > 0 && Invariant(s, spec) && Workers.Next(s, t, spec)
    ensures Invariant(t, spec) && s.world.aggregates <= t.world.aggregates
  {
    hide WorkerHolds, OfCall, Move, Claims.Decide, AllMetered;
    if c: nat :| MoveStep(s, t, c, spec) {
      MoveHolds(s.world, s.workers[c], spec);
      forall d | d in t.workers ensures WorkerHolds(t.world.aggregates, t.workers[d], spec) {
        if d != c {
          WorkerHoldsGrows(s.world.aggregates, t.world.aggregates, s.workers[d], spec);
        }
      }
      MoveAccounts(s, t, c, spec);
    } else if c: nat, input :| BeginStep(s, t, c, input, spec) {
      BeginAccounts(s, t, c, input, spec);
    }
  }

  lemma MoveAccounts(s: Site, t: Site, c: nat, spec: Spec)
    requires spec.windowSize > 0 && spec.pageSize > 0 && Accounted(s, spec) && MoveStep(s, t, c, spec)
    requires t.workers[c].input == s.workers[c].input
    requires forall a :: a in t.world.aggregates ==>
               a in s.world.aggregates || OfCall(a, JobOf(spec, s.workers[c].input))
    ensures Accounted(t, spec)
  {
    hide OfCall, Move;
    forall a | a in t.world.aggregates
      ensures exists d :: d in t.workers && OfCall(a, JobOf(spec, t.workers[d].input))
    {
      if a in s.world.aggregates {
        var d :| d in s.workers && OfCall(a, JobOf(spec, s.workers[d].input));
        assert t.workers[d].input == s.workers[d].input;
      } else {
        assert OfCall(a, JobOf(spec, t.workers[c].input));
      }
    }
  }

  lemma BeginAccounts(s: Site, t: Site, c: nat, input: Input, spec: Spec)
    requires Invariant(s, spec) && BeginStep(s, t, c, input, spec)
    ensures Invariant(t, spec)
  {
    hide OfCall, Claims.Decide;
    forall a | a in t.world.aggregates
      ensures exists d :: d in t.workers && OfCall(a, JobOf(spec, t.workers[d].input))
    {
      var d :| d in s.workers && OfCall(a, JobOf(spec, s.workers[d].input));
      assert t.workers[d] == s.workers[d];
    }
    forall d | d in t.workers ensures WorkerHolds(t.world.aggregates, t.workers[d], spec) {
      assert d != c ==> t.workers[d] == s.workers[d];
    }
  }

  lemma {:induction false} RunsHold(run: seq<Site>, spec: Spec, i: nat)
    requires spec.windowSize > 0 && spec.pageSize > 0 && Workers.Run(run, spec) && i < |run|
    ensures Invariant(run[i], spec)
  {
    hide Workers.Next, WorkerHolds, OfCall;
    if i > 0 {
      RunsHold(run, spec, i - 1);
      StepHolds(run[i - 1], run[i], spec);
    }
  }

  /** In every interleaving, each stored version was made by one of the runs: for its watermark, at its time. */
  lemma VersionsAreAccounted(run: seq<Site>, spec: Spec, i: nat, a: Aggregate)
    requires spec.windowSize > 0 && spec.pageSize > 0 && Workers.Run(run, spec) && i < |run|
            && a in run[i].world.aggregates
    ensures exists c :: c in run[i].workers && MadeByRun(a, spec, run[i].workers[c].input)
  {
    hide Workers.Next, WorkerHolds, OfCall, MadeByRun;
    RunsHold(run, spec, i);
    var c :| c in run[i].workers && OfCall(a, JobOf(spec, run[i].workers[c].input));
    CallOfRun(a, spec, run[i].workers[c].input);
  }

  /** In every interleaving, if a run ends well, every version it reports is stored, content and all. */
  lemma ReportedIsStored(run: seq<Site>, spec: Spec, i: nat, c: nat, a: Aggregate)
    requires spec.windowSize > 0 && spec.pageSize > 0 && Workers.Run(run, spec) && i < |run|
    requires c in run[i].workers && run[i].workers[c].Done? && run[i].workers[c].result.Ok?
    requires a in run[i].workers[c].result.value.aggregates
    ensures StoredAs(run[i].world.aggregates, a, run[i].workers[c].input.hash)
    ensures var w := run[i].workers[c];
            && w.result.value.checkpoint.watermark == w.input.watermark
            && w.result.value.checkpoint.updatedAt == w.input.now
  {
    hide Workers.Next, StoredAs, OfCall, Accounted;
    RunsHold(run, spec, i);
    assert WorkerHolds(run[i].world.aggregates, run[i].workers[c], spec);
  }
}
