/**
  Interleaved runs whose leases do not overlap, with events arriving at any time but no later than the scans can see:
  each advance of the checkpoint leaves every group up to the watermark current, as one single aggregation would.
 */
module TimelyRuns {
  import opened Prelude
  import opened Recovery
  import opened Events
  import opened Aggregation
  import opened Revisions
  import opened Planning
  import opened Cells
  import opened Paging
  import opened Runner
  import opened Refinement
  import opened Workers
  import Checkpoints

  // ---- In time for every scan to come ----

  /** A run that has scanned and not advanced yet. */
  predicate Pending(w: Worker) {
    w.Looking? || w.Writing?
  }

  /** Where the scan after this run will start. */
  function NextStart(w: Worker, spec: Spec): int
    requires spec.windowSize > 0
  {
    ScanStart(spec, Some(Checkpoints.Checkpoint(w.input.watermark, 0, 0)))
  }

  /**
    New events start inside the next scan of the checkpoint and, if a live run has already scanned, inside the scan
    after that run.
   */
  ghost predicate InTime(s: Site, t: Site, spec: Spec)
    requires spec.windowSize > 0
  {
    && ArrivesInTime(s.world.events, t.world.events, spec, ScanStart(spec, RecordOf(s.world.checkpoint)))
    && forall c :: Live(s, c) && Pending(s.workers[c]) ==>
         ArrivesInTime(s.world.events, t.world.events, spec, NextStart(s.workers[c], spec))
  }

  /** An orderly run from any sound store without a checkpoint of the spec, with arrivals in time. */
  ghost predicate TimelyRun(run: seq<Site>, spec: Spec, hash: Hash)
    requires spec.windowSize > 0 && spec.pageSize > 0
  {
    && OrderlyRun(run, spec, hash) && run[0].world.checkpoint == None
    && forall i :: 0 <= i < |run| - 1 ==> InTime(run[i], run[i + 1], spec)
  }

  /** Nothing that a pending run has not seen starts before the scan after it. */
  ghost predicate SeenInTime(world: World, w: Worker, spec: Spec)
    requires spec.windowSize > 0
  {
    Pending(w) ==>
      w.seen <= |world.events| && ArrivesInTime(world.events[..w.seen], world.events, spec, NextStart(w, spec))
  }

  ghost predicate Timely(s: Site, spec: Spec, hash: Hash)
    requires spec.windowSize > 0 && spec.pageSize > 0
  {
    && Orderly(s, spec, hash) && PassedCurrent(s.world, spec, hash)
    && (forall c :: c in s.workers ==> spec.initialStart < s.workers[c].input.watermark)
    && forall c :: Live(s, c) ==> SeenInTime(s.world, s.workers[c], spec)
  }

  lemma InTimeTransitive(a: seq<Event>, b: seq<Event>, c: seq<Event>, spec: Spec, from: int)
    requires spec.windowSize > 0 && ArrivesInTime(a, b, spec, from) && ArrivesInTime(b, c, spec, from)
    ensures ArrivesInTime(a, c, spec, from)
  {
    hide ScanStart, Matches;
    forall i | |a| <= i < |c| && Matches(c[i], spec) && ScanStart(spec, None) <= c[i].start ensures from <= c[i].start {
      if i < |b| {
        assert b[i] == c[i];
      }
    }
  }

  lemma InTimeSooner(a: seq<Event>, b: seq<Event>, spec: Spec, from: int, sooner: int)
    requires spec.windowSize > 0 && ArrivesInTime(a, b, spec, from) && sooner <= from
    ensures ArrivesInTime(a, b, spec, sooner)
  {
    hide ScanStart, Matches;
  }

  /** Scans start later as the watermark grows. */
  lemma LaterStart(spec: Spec, w: Worker, checkpoint: Option<Checkpoints.Checkpoint>)
    requires spec.Valid() && spec.initialStart < w.input.watermark
    requires checkpoint.Some? ==> checkpoint.value.watermark <= w.input.watermark
    ensures ScanStart(spec, checkpoint) <= NextStart(w, spec) <= w.input.watermark
    ensures NextStart(w, spec) % spec.windowSize == 0
  {
    hide Bucket;
    var next := Some(Checkpoints.Checkpoint(w.input.watermark, 0, 0));
    BucketMonotone(LateLimit(spec, checkpoint), LateLimit(spec, next), spec.windowSize);
    ScanStartFacts(spec, next);
  }

  // ---- What an advance leaves ----

  /** A scanned group of the events that were seen is current once the plan is put. */
  lemma ScannedNow(world: World, w: Worker, spec: Spec, key: GroupKey, e: Event)
    requires Injective(w.input.hash) && spec.Valid() && Fine(world, w.input.hash)
    requires w.Writing? && w.i == |w.plan| && Knows(world, w, spec) && Scanned(world, w, spec)
    requires var from := ScanStart(spec, w.checkpoint);
             && from <= key.start && e in world.events[..w.seen] && KeyOf(e, spec) == key
             && Visible(e, spec, from, w.input.watermark)
    ensures CurrentFor(world.aggregates, key,
                       Members(FullScan(world.events[..w.seen], spec, w.input.watermark), key, spec, w.input.watermark),
                       spec, w.input.hash)
  {
    hide Injective, Fine, Knows, Scan, ScanStart, SortedGroups, Spec.Valid, CurrentFor, Members, Pages, KeyOf, Visible;
    WindowIsPositive(spec);
    var seen, from, to := world.events[..w.seen], ScanStart(spec, w.checkpoint), w.input.watermark;
    ScanStartFacts(spec, w.checkpoint);
    ScannedGroup(seen, spec, from, to, key);
    WrittenIsCurrent(world, w, spec, key);
    ScannedGroupIsComplete(seen, spec, from, to, key);
    CurrentForSame(world.aggregates, key, Members(w.scan, key, spec, to),
                   Members(FullScan(seen, spec, to), key, spec, to), spec, w.input.hash);
  }

  /** A group before the scan is as current for what was seen as it was for the last watermark. */
  lemma PassedNow(world: World, w: Worker, spec: Spec, key: GroupKey)
    requires spec.Valid() && PassedCurrent(world, spec, w.input.hash)
    requires w.Writing? && Scanned(world, w, spec) && SeenInTime(world, w, spec)
    requires spec.initialStart < w.input.watermark && ScanStart(spec, None) <= key.start < ScanStart(spec, w.checkpoint)
    requires var whole := FullScan(world.events[..w.seen], spec, w.input.watermark);
             key in SortedGroups(whole, spec, w.input.watermark)
    ensures CurrentFor(world.aggregates, key,
                       Members(FullScan(world.events[..w.seen], spec, w.input.watermark), key, spec, w.input.watermark),
                       spec, w.input.hash)
  {
    hide Scan, SortedGroups, Spec.Valid, CurrentFor, Members, Pages, ArrivesInTime;
    WindowIsPositive(spec);
    var seen, to := world.events[..w.seen], w.input.watermark;
    var from, last := ScanStart(spec, w.checkpoint), w.checkpoint.value.watermark;
    ScanStartFacts(spec, w.checkpoint);
    LaterStart(spec, w, w.checkpoint);
    InTimeSooner(seen, world.events, spec, NextStart(w, spec), from);
    PassedGroupIsUnchanged(seen, world.events, spec, from, to, last, key);
    SameMembersSameGroup(FullScan(seen, spec, to), to, FullScan(world.events, spec, last), last, key, spec);
    assert PassedGroup(world, spec, last, key, w.input.hash);
    CurrentForSame(world.aggregates, key, Members(FullScan(world.events, spec, last), key, spec, last),
                   Members(FullScan(seen, spec, to), key, spec, to), spec, w.input.hash);
  }

  lemma GroupNow(world: World, w: Worker, spec: Spec, key: GroupKey)
    requires Injective(w.input.hash) && spec.Valid() && Fine(world, w.input.hash)
    requires PassedCurrent(world, spec, w.input.hash) && SeenInTime(world, w, spec)
    requires w.Writing? && w.i == |w.plan| && Knows(world, w, spec) && spec.initialStart < w.input.watermark
    requires w.seen <= |world.events|
    requires var whole := FullScan(world.events[..w.seen], spec, w.input.watermark);
             key in SortedGroups(whole, spec, w.input.watermark)
    ensures CurrentFor(world.aggregates, key,
                       Members(FullScan(world.events[..w.seen], spec, w.input.watermark), key, spec, w.input.watermark),
                       spec, w.input.hash)
  {
    hide Injective, Fine, Scan, ScanStart, SortedGroups, Spec.Valid, CurrentFor, Members, Pages, KeyOf, ArrivesInTime,
        WroteFrom, ScanResult, PassedCurrent, SeenInTime;
    WindowIsPositive(spec);
    var seen, from := world.events[..w.seen], ScanStart(spec, w.checkpoint);
    var e := ScannedWitness(seen, spec, ScanStart(spec, None), w.input.watermark, key);
    KeyIsBucket(e, spec);
    FirstBucketIsLowest(spec, e, key);
    if from <= key.start {
      ScannedNow(world, w, spec, key, e);
    } else {
      PassedNow(world, w, spec, key);
    }
  }

  /** After the advance, what no later scan reaches is current for all events, those not seen included. */
  lemma AdvanceKeepsPassed(world: World, w: Worker, spec: Spec)
    requires Injective(w.input.hash) && spec.Valid() && Fine(world, w.input.hash)
    requires PassedCurrent(world, spec, w.input.hash) && SeenInTime(world, w, spec)
    requires w.Writing? && w.i == |w.plan| && Knows(world, w, spec) && spec.initialStart < w.input.watermark
    ensures PassedCurrent(Move(world, w, spec).0, spec, w.input.hash)
  {
    hide Injective, Fine, Scan, SortedGroups, Spec.Valid, CurrentFor, Members, Pages, KeyOf, ArrivesInTime,
        WroteFrom, ScanResult, Knows, Checkpoints.Decide;
    WindowIsPositive(spec);
    var after, seen := Move(world, w, spec).0, world.events[..w.seen];
    var from, to := NextStart(w, spec), w.input.watermark;
    Advanced(world, w, spec);
    LaterStart(spec, w, None);
    forall key | key in SortedGroups(FullScan(world.events, spec, to), spec, to) && key.start < from
      ensures PassedGroup(after, spec, to, key, w.input.hash)
    {
      PassedGroupIsUnchanged(seen, world.events, spec, from, to, to, key);
      SameMembersSameGroup(FullScan(world.events, spec, to), to, FullScan(seen, spec, to), to, key, spec);
      GroupNow(world, w, spec, key);
      CurrentForSame(world.aggregates, key, Members(FullScan(seen, spec, to), key, spec, to),
                     Members(FullScan(world.events, spec, to), key, spec, to), spec, w.input.hash);
    }
  }

  lemma Advanced(world: World, w: Worker, spec: Spec)
    requires spec.windowSize > 0 && spec.pageSize > 0 && w.Writing? && w.i == |w.plan| && Knows(world, w, spec)
    ensures var (after, next) := Move(world, w, spec);
            && after == world.(checkpoint := after.checkpoint) && RecordOf(after.checkpoint).Some?
            && RecordOf(after.checkpoint).value.watermark == w.input.watermark
            && next.Releasing? && next.result.Ok?
    ensures Scanned(world, w, spec)
    ensures w.checkpoint.Some? ==> w.checkpoint.value.watermark <= w.input.watermark
  {
    hide Scan, ScanStart, Pages, WroteFrom;
  }

  // ---- Every step ----

  lemma ArrivalKeepsSeen(before: World, after: World, w: Worker, spec: Spec)
    requires spec.windowSize > 0 && SeenInTime(before, w, spec)
    requires after == before.(events := after.events) && before.events <= after.events
    requires Pending(w) ==> ArrivesInTime(before.events, after.events, spec, NextStart(w, spec))
    ensures SeenInTime(after, w, spec)
  {
    hide ArrivesInTime, NextStart;
    if Pending(w) {
      assert after.events[..w.seen] == before.events[..w.seen];
      InTimeTransitive(before.events[..w.seen], before.events, after.events, spec, NextStart(w, spec));
    }
  }

  lemma ArriveKeepsTimely(s: Site, t: Site, spec: Spec, hash: Hash)
    requires spec.Valid() && Timely(s, spec, hash) && ArriveStep(s, t) && InTime(s, t, spec)
    ensures Timely(t, spec, hash)
  {
    hide Orderly, PassedCurrent, SeenInTime, ArrivesInTime, Spec.Valid, AllMetered, Fine;
    WindowIsPositive(spec);
    ArriveKeepsOrder(s, t, spec, hash);
    OrderlyIsFine(s, spec, hash);
    ArrivalKeeps(s.world, t.world, spec, hash);
    forall c | Live(t, c) ensures SeenInTime(t.world, t.workers[c], spec) {
      assert Live(s, c);
      ArrivalKeepsSeen(s.world, t.world, s.workers[c], spec);
    }
  }

  lemma OrderlyIsFine(s: Site, spec: Spec, hash: Hash)
    requires spec.windowSize > 0 && spec.pageSize > 0 && Orderly(s, spec, hash)
    ensures Fine(s.world, hash)
  {
  }

  lemma OrderlyIsKnown(s: Site, spec: Spec, hash: Hash, c: nat)
    requires spec.windowSize > 0 && spec.pageSize > 0 && Orderly(s, spec, hash) && Live(s, c)
    ensures Fine(s.world, hash) && Knows(s.world, s.workers[c], spec) && s.workers[c].input.hash == hash
  {
    hide Fine, Knows;
  }

  lemma TickKeepsTimely(s: Site, t: Site, spec: Spec, hash: Hash)
    requires spec.Valid() && Timely(s, spec, hash) && TickStep(s, t)
    ensures Timely(t, spec, hash)
  {
    hide Orderly, PassedCurrent, SeenInTime, Spec.Valid;
    WindowIsPositive(spec);
    TickKeepsOrder(s, t, spec, hash);
    assert forall c :: Live(t, c) ==> Live(s, c);
  }

  lemma ClaimLeavesPassed(before: World, after: World, spec: Spec, hash: Hash)
    requires spec.windowSize > 0 && PassedCurrent(before, spec, hash) && after == before.(claim := after.claim)
    ensures PassedCurrent(after, spec, hash)
  {
    hide Scan, ScanStart, SortedGroups, Members, CurrentFor;
    forall key |
      var checkpoint := RecordOf(after.checkpoint);
      && checkpoint.Some?
      && key in SortedGroups(FullScan(after.events, spec, checkpoint.value.watermark), spec, checkpoint.value.watermark)
      && key.start < ScanStart(spec, checkpoint)
      ensures PassedGroup(after, spec, RecordOf(after.checkpoint).value.watermark, key, hash)
    {
      assert PassedGroup(before, spec, RecordOf(before.checkpoint).value.watermark, key, hash);
    }
  }

  lemma SameEventsSeen(before: World, after: World, w: Worker, spec: Spec)
    requires spec.windowSize > 0 && SeenInTime(before, w, spec) && after.events == before.events
    ensures SeenInTime(after, w, spec)
  {
    hide ArrivesInTime, NextStart;
  }

  lemma BeginKeepsTimely(s: Site, t: Site, c: nat, input: Input, spec: Spec, hash: Hash)
    requires spec.Valid() && Timely(s, spec, hash) && BeginStep(s, t, c, input, spec) && input.hash == hash
    requires forall d :: Live(s, d) ==> s.workers[d].input.owner != input.owner
    ensures Timely(t, spec, hash)
  {
    hide Orderly, PassedCurrent, Spec.Valid, ArrivesInTime, NextStart;
    WindowIsPositive(spec);
    BeginKeepsOrder(s, t, c, input, spec, hash);
    ClaimLeavesPassed(s.world, t.world, spec, hash);
    forall d | Live(t, d) ensures SeenInTime(t.world, t.workers[d], spec) {
      if d != c {
        assert Live(s, d);
        SameEventsSeen(s.world, t.world, s.workers[d], spec);
      }
    }
  }

  lemma OneMorePut(base: seq<Aggregate>, world: World, w: Worker, spec: Spec)
    requires spec.windowSize > 0 && spec.pageSize > 0 && w.Writing? && w.i < |w.plan|
    requires WroteFrom(base, world, w, spec) && Move(world, w, spec).1.Writing?
    ensures var (after, next) := Move(world, w, spec);
            && WroteFrom(base, after, next, spec)
            && after == world.(aggregates := after.aggregates) && world.aggregates <= after.aggregates
            && next.input == w.input && next.plan == w.plan && next.scan == w.scan && next.seen == w.seen
            && next.checkpoint == w.checkpoint
  {
    hide Chained, Plan, AggregateFingerprint;
    assert w.plan[..w.i + 1][..w.i] == w.plan[..w.i];
  }

  /** The versions that a run has put are of groups it scanned. */
  lemma PutIsScanned(base: seq<Aggregate>, world: World, w: Worker, spec: Spec, key: GroupKey, a: Aggregate)
    requires Injective(w.input.hash) && spec.Valid() && w.Writing? && AllMetered(world.events)
    requires Scanned(world, w, spec) && WroteFrom(base, world, w, spec)
    requires a in world.aggregates && a !in base && VersionOf(a, spec, key, w.input.hash)
    ensures ScanStart(spec, w.checkpoint) <= key.start
  {
    hide Injective, Spec.Valid, SortedGroups, Ready, Fresh, Plan, PutAll, Scan, ScanStart, Pages, VersionOf, AllMetered,
        Chained;
    WindowIsPositive(spec);
    var job := JobOf(spec, w.input);
    var planned := world.(events := world.events[..w.seen], aggregates := base);
    WrittenRows(base, world, w, spec);
    ReadyPrefix(base, w.plan, ScannedGroups(w.scan, job), w.scan, job, w.i);
    FreshIsScanned(planned, spec, w.scan, w.plan, job, w.i, ScanStart(spec, w.checkpoint), key, a);
  }

  lemma FineParts(world: World, hash: Hash)
    requires Fine(world, hash)
    ensures Chained(world.aggregates, hash) && AllMetered(world.events)
  {
  }

  /** A put is for a scanned group, so it leaves the groups before the scan alone. */
  lemma PutLeavesPassed(world: World, w: Worker, spec: Spec)
    requires Injective(w.input.hash) && spec.Valid() && Fine(world, w.input.hash)
    requires PassedCurrent(world, spec, w.input.hash)
    requires w.Writing? && w.i < |w.plan| && Knows(world, w, spec) && Move(world, w, spec).1.Writing?
    ensures PassedCurrent(Move(world, w, spec).0, spec, w.input.hash)
  {
    hide Injective, Fine, PassedCurrent, Spec.Valid, Ready, Fresh, Plan, PutAll, ScanResult, VersionOf, Move,
        AllMetered, Chained, ScanStart, WroteFrom;
    WindowIsPositive(spec);
    var (after, next) := Move(world, w, spec);
    var from := ScanStart(spec, RecordOf(world.checkpoint));
    var base :| WroteFrom(base, world, w, spec);
    OneMorePut(base, world, w, spec);
    FineParts(world, w.input.hash);
    PutKnows(world, w, spec);
    FineParts(after, w.input.hash);
    WrittenRows(base, world, w, spec);
    forall a, key | a in after.aggregates && VersionOf(a, spec, key, w.input.hash) && key.start < from
      ensures a in world.aggregates
    {
      if a !in world.aggregates {
        PutIsScanned(base, after, next, spec, key, a);
      }
    }
    AppendingKeepsPassed(world, after, spec, w.input.hash);
  }

  /** A failed put, like every step but a put and the advance, leaves versions, events and checkpoint as they were. */
  lemma OtherMoves(world: World, w: Worker, spec: Spec)
    requires spec.windowSize > 0 && spec.pageSize > 0 && !w.Done?
    requires !(w.Writing? && w.i == |w.plan|) && !(w.Writing? && Move(world, w, spec).1.Writing?)
    requires w.Writing? ==> w.i <= |w.plan|
    ensures var after := Move(world, w, spec).0; after == world.(claim := after.claim)
  {
    hide AggregateAll, ScanResult, Looked, PutAggregate;
    if w.Writing? && w.i < |w.plan| {
      PutIsStored(world.aggregates, w.plan[w.i], w.input.hash);
    }
  }

  lemma MoveKeepsSeen(world: World, w: Worker, spec: Spec)
    requires spec.windowSize > 0 && spec.pageSize > 0 && !w.Done? && SeenInTime(world, w, spec)
    ensures SeenInTime(Move(world, w, spec).0, Move(world, w, spec).1, spec)
    ensures Move(world, w, spec).0.events == world.events
  {
    hide AggregateAll, ScanResult, Looked, PutAggregate, ScanStart;
    assert world.events[..|world.events|] == world.events;
  }

  lemma MoveLeavesPassed(world: World, w: Worker, spec: Spec)
    requires Injective(w.input.hash) && spec.Valid() && Fine(world, w.input.hash) && !w.Done?
    requires PassedCurrent(world, spec, w.input.hash) && SeenInTime(world, w, spec)
    requires Knows(world, w, spec) && spec.initialStart < w.input.watermark
    ensures PassedCurrent(Move(world, w, spec).0, spec, w.input.hash)
  {
    hide Injective, Fine, PassedCurrent, Spec.Valid, Move, SeenInTime, Scanned, WroteFrom, AggregateAll, PreviousOf;
    WindowIsPositive(spec);
    if w.Writing? && w.i == |w.plan| {
      AdvanceKeepsPassed(world, w, spec);
    } else if w.Writing? && Move(world, w, spec).1.Writing? {
      PutLeavesPassed(world, w, spec);
    } else {
      OtherMoves(world, w, spec);
      ClaimLeavesPassed(world, Move(world, w, spec).0, spec, w.input.hash);
    }
  }

  lemma MoveKeepsTimely(s: Site, t: Site, c: nat, spec: Spec, hash: Hash)
    requires Injective(hash) && spec.Valid() && Timely(s, spec, hash) && MoveStep(s, t, c, spec) && Live(s, c)
    ensures Timely(t, spec, hash)
  {
    hide Injective, Orderly, PassedCurrent, SeenInTime, Spec.Valid, Move, Fine, Knows;
    WindowIsPositive(spec);
    MoveKeepsOrder(s, t, c, spec, hash);
    OrderlyIsKnown(s, spec, hash, c);
    MoveFrame(s.world, s.workers[c], spec);
    MoveLeavesPassed(s.world, s.workers[c], spec);
    MoveKeepsSeen(s.world, s.workers[c], spec);
    forall d | Live(t, d) ensures SeenInTime(t.world, t.workers[d], spec) {
      if d != c {
        assert Live(s, d);
        SameEventsSeen(s.world, t.world, s.workers[d], spec);
      }
    }
  }

  lemma StepKeepsTimely(s: Site, t: Site, spec: Spec, hash: Hash)
    requires Injective(hash) && spec.Valid() && Timely(s, spec, hash)
    requires OrderlyNext(s, t, spec, hash) && InTime(s, t, spec)
    ensures Timely(t, spec, hash)
  {
    hide Injective, Timely, Spec.Valid, MoveStep, BeginStep, InTime;
    WindowIsPositive(spec);
    if c: nat, input: Input :|
      && BeginStep(s, t, c, input, spec) && input.hash == hash
      && forall d :: Live(s, d) ==> s.workers[d].input.owner != input.owner
    {
      BeginKeepsTimely(s, t, c, input, spec, hash);
    } else if c: nat :| MoveStep(s, t, c, spec) && Live(s, c) {
      MoveKeepsTimely(s, t, c, spec, hash);
    } else if TickStep(s, t) {
      TickKeepsTimely(s, t, spec, hash);
    } else {
      ArriveKeepsTimely(s, t, spec, hash);
    }
  }

  /** In every reachable state all groups that no later scan reaches are current. */
  lemma {:induction false} TimelyRunsStayTimely(run: seq<Site>, spec: Spec, hash: Hash, i: nat)
    requires Injective(hash) && spec.Valid() && TimelyRun(run, spec, hash) && i < |run|
    ensures Timely(run[i], spec, hash)
  {
    hide Injective, Timely, Spec.Valid, OrderlyNext, InTime;
    if i > 0 {
      TimelyRunsStayTimely(run, spec, hash, i - 1);
      StepKeepsTimely(run[i - 1], run[i], spec, hash);
    } else {
      StartIsTimely(run[0], spec, hash);
    }
  }

  lemma StartIsTimely(s: Site, spec: Spec, hash: Hash)
    requires spec.Valid() && Fine(s.world, hash) && s.workers == map[] && s.world.checkpoint == None
    ensures Timely(s, spec, hash)
  {
    hide Fine, Spec.Valid;
    WindowIsPositive(spec);
  }

  /**
    The step-level form of the refinement: a live run that has put its plan advances the checkpoint without fail, and
    then every group up to its watermark is current for all events that were stored when it looked.
   */
  lemma AdvanceSettles(run: seq<Site>, spec: Spec, hash: Hash, i: nat, c: nat)
    requires Injective(hash) && spec.Valid() && TimelyRun(run, spec, hash) && i + 1 < |run|
    requires MoveStep(run[i], run[i + 1], c, spec) && Live(run[i], c)
    requires run[i].workers[c].Writing? && run[i].workers[c].i == |run[i].workers[c].plan|
    ensures var w, after := run[i].workers[c], run[i + 1];
            && after.workers[c].Releasing? && after.workers[c].result.Ok?
            && RecordOf(after.world.checkpoint).Some?
            && RecordOf(after.world.checkpoint).value.watermark == w.input.watermark
            && w.seen <= |run[i].world.events|
            && UpToDate(after.world.aggregates, run[i].world.events[..w.seen], spec, w.input.watermark, hash)
  {
    hide Injective, Fine, Knows, Orderly, SeenInTime, PassedCurrent, SortedGroups, Spec.Valid, CurrentFor, Members,
        Move, OrderlyNext, ScanStart, Scan;
    WindowIsPositive(spec);
    TimelyRunsStayTimely(run, spec, hash, i);
    OrderlyIsKnown(run[i], spec, hash, c);
    var world, w := run[i].world, run[i].workers[c];
    Advanced(world, w, spec);
    var to := w.input.watermark;
    var whole := FullScan(world.events[..w.seen], spec, to);
    forall key | key in SortedGroups(whole, spec, to)
      ensures CurrentFor(world.aggregates, key, Members(whole, key, spec, to), spec, hash)
    {
      GroupNow(world, w, spec, key);
    }
  }

  /** So the latest versions have the numbers of one aggregation of what the run could see. */
  lemma InterleavedIsOneShot(run: seq<Site>, spec: Spec, hash: Hash, i: nat, c: nat, createdAt: int, ambient: Labels)
    requires Injective(hash) && spec.Valid() && TimelyRun(run, spec, hash) && i + 1 < |run|
    requires MoveStep(run[i], run[i + 1], c, spec) && Live(run[i], c)
    requires run[i].workers[c].Writing? && run[i].workers[c].i == |run[i].workers[c].plan|
    ensures run[i].workers[c].seen <= |run[i].world.events|
    ensures var w, rows := run[i].workers[c], run[i + 1].world.aggregates;
            var whole := FullScan(run[i].world.events[..w.seen], spec, w.input.watermark);
            var keys := SortedGroups(whole, spec, w.input.watermark);
            var one := AggregateAll(whole, map[], Job(spec, w.input.watermark, createdAt, ambient, hash));
            && one.Ok? && |one.value| == |keys|
            && forall k :: 0 <= k < |keys| ==>
                 && Current(rows, keys[k], spec, hash).Some?
                 && SameNumbers(one.value[k], Current(rows, keys[k], spec, hash).value)
  {
    hide Injective, Fine, Timely, SortedGroups, Spec.Valid, Current, Move, Scan, AggregateAll, SameNumbers, UpToDate,
        OrderlyNext, InTime;
    WindowIsPositive(spec);
    AdvanceSettles(run, spec, hash, i, c);
    TimelyRunsStayTimely(run, spec, hash, i + 1);
    TimelyIsFine(run[i + 1], spec, hash);
    FineParts(run[i + 1].world, hash);
    var w := run[i].workers[c];
    MoveIsOnEvents(run[i], run[i + 1], c, spec);
    SomeMetered(run[i].world.events, w.seen);
    UpToDateIsOneShot(run[i + 1].world.aggregates, run[i].world.events[..w.seen],
                      Job(spec, w.input.watermark, createdAt, ambient, hash));
  }

  lemma TimelyIsFine(s: Site, spec: Spec, hash: Hash)
    requires spec.windowSize > 0 && spec.pageSize > 0 && Timely(s, spec, hash)
    ensures Fine(s.world, hash)
  {
    hide Fine;
  }

  lemma MoveIsOnEvents(s: Site, t: Site, c: nat, spec: Spec)
    requires spec.windowSize > 0 && spec.pageSize > 0 && MoveStep(s, t, c, spec)
    ensures t.world.events == s.world.events
  {
    hide AggregateAll, ScanResult, Looked, PutAggregate;
  }
}
