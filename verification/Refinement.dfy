/** Main results about runs: incremental aggregation refines a single one, and interrupted runs are resumed. */
module Refinement {
  import opened Prelude
  import opened Orders
  import opened Digits
  import opened Decimals
  import opened Recovery
  import opened Events
  import opened Totals
  import opened Aggregation
  import opened AggregationLaws
  import opened Revisions
  import opened Planning
  import opened Cells
  import opened Paging
  import opened Runner
  import Claims
  import Checkpoints

  // ---- Incremental aggregation refines one-shot aggregation ----

  /** What may happen between, and including, the runs of one spec. */
  datatype Step =
    | Arrive
    | Others
    | Interrupt(input: Input, j: nat)
    | Attempt(input: Input)

  /**
    Events arrive, as long as they start inside the next scan; versions of other specs are put and the claim changes
    hands; a run stops for good after its first `j` puts; a run ends, well or not.
   */
  ghost predicate Stepped(before: World, after: World, step: Step, spec: Spec, hash: Hash)
    requires spec.windowSize > 0 && spec.pageSize > 0
  {
    match step
    case Arrive =>
      && after == before.(events := after.events)
      && AllMetered(after.events)
      && ArrivesInTime(before.events, after.events, spec, ScanStart(spec, RecordOf(before.checkpoint)))
    case Others =>
      && after == before.(aggregates := after.aggregates, claim := after.claim)
      && before.aggregates <= after.aggregates && Chained(after.aggregates, hash)
      && forall a, key :: a in after.aggregates && VersionOf(a, spec, key, hash) ==> a in before.aggregates
    case Interrupt(input, j) =>
      && input.hash == hash
      && Read(before, spec, input.watermark).Ok?
      && var plan := Plan(before.aggregates, Read(before, spec, input.watermark).value, JobOf(spec, input));
      && plan.Ok? && j <= |plan.value|
      && after == Interrupted(before, spec, input, plan.value, j)
    case Attempt(input) =>
      input.hash == hash && after == RunOnce(before, spec, input).0
  }

  /** Any history of a spec from any sound store that has no checkpoint of it yet. */
  ghost predicate History(worlds: seq<World>, steps: seq<Step>, spec: Spec, hash: Hash)
    requires spec.windowSize > 0 && spec.pageSize > 0
  {
    && |worlds| == |steps| + 1
    && Fine(worlds[0], hash) && worlds[0].checkpoint == None
    && forall i :: 0 <= i < |steps| ==> Stepped(worlds[i], worlds[i + 1], steps[i], spec, hash)
  }

  lemma ArrivalKeeps(before: World, after: World, spec: Spec, hash: Hash)
    requires spec.Valid() && Fine(before, hash) && PassedCurrent(before, spec, hash)
    requires Stepped(before, after, Arrive, spec, hash)
    ensures Fine(after, hash) && PassedCurrent(after, spec, hash)
  {
    hide Chained, AllMetered, Scan, ScanStart, Members, CurrentFor, SortedGroups, ArrivesInTime, Spec.Valid;
    var checkpoint := RecordOf(before.checkpoint);
    if checkpoint.Some? {
      WindowIsPositive(spec);
      ScanStartFacts(spec, checkpoint);
      var from, last := ScanStart(spec, checkpoint), checkpoint.value.watermark;
      forall key | key in SortedGroups(FullScan(after.events, spec, last), spec, last) && key.start < from
        ensures PassedGroup(after, spec, last, key, hash)
      {
        PassedGroupIsUnchanged(before.events, after.events, spec, from, last, last, key);
        SameMembersSameGroup(FullScan(after.events, spec, last), last, FullScan(before.events, spec, last), last, key,
            spec);
        assert PassedGroup(before, spec, last, key, hash);
        CurrentForSame(before.aggregates, key, Members(FullScan(before.events, spec, last), key, spec, last),
                       Members(FullScan(after.events, spec, last), key, spec, last), spec, hash);
      }
    }
  }

  /** Rows appended for other groups leave the passed ones current. */
  lemma AppendingKeepsPassed(before: World, after: World, spec: Spec, hash: Hash)
    requires Injective(hash) && spec.Valid() && Fine(before, hash) && PassedCurrent(before, spec, hash)
    requires after == before.(aggregates := after.aggregates, claim := after.claim)
    requires before.aggregates <= after.aggregates && Chained(after.aggregates, hash)
    requires forall a, key ::
               a in after.aggregates && VersionOf(a, spec, key, hash)
               && key.start < ScanStart(spec, RecordOf(before.checkpoint)) ==>
                 a in before.aggregates
    ensures Fine(after, hash) && PassedCurrent(after, spec, hash)
  {
    hide Injective, Chained, AllMetered, Scan, ScanStart, Members, SortedGroups, Spec.Valid, VersionOf,
        Current, SetFingerprint;
    WindowIsPositive(spec);
    var checkpoint := RecordOf(before.checkpoint);
    if checkpoint.Some? {
      var last := checkpoint.value.watermark;
      forall key | key in SortedGroups(FullScan(after.events, spec, last), spec, last)
          && key.start < ScanStart(spec, checkpoint)
        ensures PassedGroup(after, spec, last, key, hash)
      {
        assert PassedGroup(before, spec, last, key, hash);
        SameVersionsSameCurrent(before.aggregates, after.aggregates, key, spec, hash);
      }
    }
  }

  lemma InterruptKeeps(before: World, after: World, input: Input, j: nat, spec: Spec, hash: Hash)
    requires Injective(hash) && spec.Valid() && Fine(before, hash) && PassedCurrent(before, spec, hash)
    requires Stepped(before, after, Interrupt(input, j), spec, hash)
    ensures Fine(after, hash) && PassedCurrent(after, spec, hash)
  {
    hide Injective, Chained, AllMetered, Ready, Plan, Scan, ScanStart, Fresh, SortedGroups, Interrupted, Spec.Valid,
        PassedCurrent, VersionOf, Pages;
    WindowIsPositive(spec);
    var job, from := JobOf(spec, input), ScanStart(spec, RecordOf(before.checkpoint));
    var scan := Read(before, spec, input.watermark).value;
    var plan := Plan(before.aggregates, scan, job).value;
    ScanIsReady(before.aggregates, before.events, scan, plan, from, job);
    InterruptedRows(before, spec, input, plan, ScannedGroups(scan, job), scan, j);
    forall a, key | a in after.aggregates && VersionOf(a, spec, key, hash) && key.start < from
      ensures a in before.aggregates
    {
      if a in Fresh(before.aggregates, plan[..j]) {
        ReadyPrefix(before.aggregates, plan, ScannedGroups(scan, job), scan, job, j);
        AsManyPlanned(before.aggregates, plan, ScannedGroups(scan, job), scan, job);
        FreshIsScanned(before, spec, scan, plan, job, j, from, key, a);
      }
    }
    InterruptedClaim(before, spec, input, plan, j);
    AppendingKeepsPassed(before, after, spec, hash);
  }

  lemma AsManyPlanned(rows: seq<Aggregate>, plan: seq<Aggregate>, keys: seq<GroupKey>, scan: seq<Event>, job: Job)
    requires Ready(rows, plan, keys, scan, job)
    ensures |plan| == |keys|
  {
    hide Injective, Chained, AllMetered, PlanFor, Spec.Valid;
  }

  lemma InterruptedClaim(world: World, spec: Spec, input: Input, plan: seq<Aggregate>, j: nat)
    requires j <= |plan|
    ensures var after := Interrupted(world, spec, input, plan, j);
            after == world.(aggregates := after.aggregates, claim := after.claim)
  {
    hide PutAll;
  }

  lemma FreshIsScanned(world: World, spec: Spec, scan: seq<Event>, plan: seq<Aggregate>, job: Job, j: nat, from: int,
      key: GroupKey, a: Aggregate)
    requires spec.Valid() && job.spec == spec && j <= |plan| && j <= |ScannedGroups(scan, job)|
    requires Ready(world.aggregates, plan[..j], ScannedGroups(scan, job)[..j], scan, job)
    requires scan == Scan(world.events, spec, from, job.watermark)
            && from == ScanStart(spec, RecordOf(world.checkpoint))
    requires a in Fresh(world.aggregates, plan[..j]) && VersionOf(a, spec, key, job.hash)
    ensures key.start >= from
  {
    hide Ready, Scan, ScanStart, Fresh, SortedGroups, VersionOf, Spec.Valid;
    WindowIsPositive(spec);
    FreshIsOfItsGroup(world.aggregates, plan[..j], ScannedGroups(scan, job)[..j], scan, job, key, a);
    ScanStartFacts(spec, RecordOf(world.checkpoint));
    if key.start < from {
      PassedGroupIsNotScanned(world.events, spec, from, job.watermark, key);
    }
  }

  /** One successful run over a store with passed groups current makes everything up to its watermark current. */
  lemma RunSettles(before: World, spec: Spec, input: Input)
    requires Injective(input.hash) && spec.Valid() && Fine(before, input.hash)
            && PassedCurrent(before, spec, input.hash)
    requires RunOnce(before, spec, input).1.Ok?
    ensures var after := RunOnce(before, spec, input).0;
            && Fine(after, input.hash) && Settled(after, spec, input.hash)
            && RecordOf(after.checkpoint).Some? && RecordOf(after.checkpoint).value.watermark == input.watermark
  {
    hide Injective, Ready, RunOnce, Scan, ScanStart, Fresh, Members, CurrentFor, SortedGroups, PassedCurrent,
        Spec.Valid, Chained, AllMetered;
    WindowIsPositive(spec);
    var scan, plan := RunParts(before, spec, input);
    PutAllAppendsFresh(before.aggregates, plan, ScannedGroups(scan, JobOf(spec, input)), scan, JobOf(spec, input));
    var after := RunOnce(before, spec, input).0;
    forall key | key in SortedGroups(FullScan(after.events, spec, input.watermark), spec, input.watermark)
      ensures CurrentFor(after.aggregates, key,
              Members(FullScan(after.events, spec, input.watermark), key, spec, input.watermark), spec, input.hash)
    {
      GroupAfterRun(before, spec, input, key);
    }
  }

  /** A run puts nothing for a group before its scan. */
  lemma RunLeavesPassed(world: World, spec: Spec, input: Input, key: GroupKey)
    requires Injective(input.hash) && spec.Valid() && Fine(world, input.hash) && RunOnce(world, spec, input).1.Ok?
    requires key.start < ScanStart(spec, RecordOf(world.checkpoint))
    ensures Current(RunOnce(world, spec, input).0.aggregates, key, spec, input.hash)
            == Current(world.aggregates, key, spec, input.hash)
  {
    hide Injective, Ready, RunOnce, Scan, ScanStart, Fresh, SortedGroups, Spec.Valid, Chained, AllMetered, VersionOf,
        Current;
    WindowIsPositive(spec);
    var job, rows := JobOf(spec, input), world.aggregates;
    var scan, plan := RunParts(world, spec, input);
    var keys := ScannedGroups(scan, job);
    PutAllAppendsFresh(rows, plan, keys, scan, job);
    AsManyPlanned(rows, plan, keys, scan, job);
    assert plan[..|plan|] == plan && keys[..|plan|] == keys;
    forall a | a in Fresh(rows, plan) ensures !VersionOf(a, spec, key, job.hash) {
      if VersionOf(a, spec, key, job.hash) {
        FreshIsScanned(world, spec, scan, plan, job, |plan|, ScanStart(spec, RecordOf(world.checkpoint)), key, a);
      }
    }
    SameVersionsSameCurrent(rows, rows + Fresh(rows, plan), key, spec, job.hash);
  }

  /** A new event of the group, however late. */
  ghost predicate LateFor(before: seq<Event>, events: seq<Event>, spec: Spec, key: GroupKey)
    requires spec.windowSize > 0
  {
    exists i :: |before| <= i < |events| && Matches(events[i], spec) && KeyOf(events[i], spec) == key
                && ScanStart(spec, None) <= events[i].start
  }

  /** Before the next scan the members of a group grow exactly by what arrived late. */
  lemma LateMembers(before: seq<Event>, events: seq<Event>, spec: Spec, last: int, next: int, key: GroupKey)
    requires spec.windowSize > 0 && before <= events && key.start + spec.windowSize <= last
    requires key.start + spec.windowSize <= next
    ensures var m := multiset(Members(FullScan(before, spec, last), key, spec, last));
            var n := multiset(Members(FullScan(events, spec, next), key, spec, next));
            m <= n && (LateFor(before, events, spec, key) <==> m != n)
  {
    hide Scan, Members, KeyOf, Matches, ScanStart;
    var m := multiset(Members(FullScan(before, spec, last), key, spec, last));
    var n := multiset(Members(FullScan(events, spec, next), key, spec, next));
    var arrived := events[|before|..];
    assert events == before + arrived;
    forall e
      ensures m[e] <= n[e]
      ensures n[e] - m[e] == if Matches(e, spec) && ScanStart(spec, None) <= e.start && KeyOf(e, spec) == key
                             then multiset(arrived)[e] else 0
    {
      ScannedMembers(before, spec, ScanStart(spec, None), last, key, e);
      ScannedMembers(events, spec, ScanStart(spec, None), next, key, e);
      KeyIsBucket(e, spec);
    }
    if LateFor(before, events, spec, key) {
      var i :| |before| <= i < |events| && Matches(events[i], spec) && KeyOf(events[i], spec) == key
               && ScanStart(spec, None) <= events[i].start;
      assert arrived[i - |before|] == events[i];
      assert n[events[i]] > m[events[i]];
    } else {
      forall e ensures m[e] == n[e] {
        if e in arrived {
          var i :| 0 <= i < |arrived| && arrived[i] == e;
          assert events[|before| + i] == e;
        }
      }
    }
  }

  lemma MoreMembers<T>(m: multiset<T>, n: multiset<T>)
    requires m <= n && m != n
    ensures |m| < |n|
  {
    assert n == m + (n - m);
  }

  /**
    What arrives later than that is lost: a group before the scan is current after the run exactly if no event of it
    arrived meanwhile.
   */
  lemma LateEventIsMissed(before: World, events: seq<Event>, spec: Spec, input: Input, key: GroupKey)
    requires Injective(input.hash) && spec.Valid() && Fine(before, input.hash)
    requires PassedCurrent(before, spec, input.hash) && RecordOf(before.checkpoint).Some?
    requires before.events <= events && AllMetered(events)
    requires var last := RecordOf(before.checkpoint).value.watermark;
             key in SortedGroups(FullScan(before.events, spec, last), spec, last)
    requires key.start < ScanStart(spec, RecordOf(before.checkpoint))
    requires RunOnce(before.(events := events), spec, input).1.Ok?
    ensures var after := RunOnce(before.(events := events), spec, input).0;
            var members := Members(FullScan(events, spec, input.watermark), key, spec, input.watermark);
            CurrentFor(after.aggregates, key, members, spec, input.hash)
            <==> !LateFor(before.events, events, spec, key)
  {
    hide Injective, Ready, RunOnce, Scan, ScanStart, Fresh, SortedGroups, Spec.Valid, Chained, AllMetered, Members,
        Current, LateFor, SetFingerprint;
    WindowIsPositive(spec);
    var last, next, hash := RecordOf(before.checkpoint).value.watermark, input.watermark, input.hash;
    var world := before.(events := events);
    var scan, plan := RunParts(world, spec, input);
    RunLeavesPassed(world, spec, input, key);
    ScanStartFacts(spec, RecordOf(before.checkpoint));
    PassedEndsBefore(before.events, spec, last, key, ScanStart(spec, RecordOf(before.checkpoint)));
    LateMembers(before.events, events, spec, last, next, key);
    assert PassedGroup(before, spec, last, key, hash);
    var m := Members(FullScan(before.events, spec, last), key, spec, last);
    var n := Members(FullScan(events, spec, next), key, spec, next);
    if LateFor(before.events, events, spec, key) {
      MoreMembers(multiset(m), multiset(n));
      DifferentSizeDifferentSource(before.events, events, m, n, spec, key, last, next, hash);
    } else {
      CurrentForSame(before.aggregates, key, m, n, spec, hash);
    }
  }

  lemma PassedEndsBefore(events: seq<Event>, spec: Spec, watermark: int, key: GroupKey, from: int)
    requires spec.windowSize > 0 && from % spec.windowSize == 0 && key.start < from
    requires key in SortedGroups(FullScan(events, spec, watermark), spec, watermark)
    ensures key.start + spec.windowSize <= from
  {
    hide SortedGroups, Scan, ScanStart;
    var e := GroupHasMember(FullScan(events, spec, watermark), key, spec, watermark);
    KeyIsBucket(e, spec);
    NextEdge(key.start, from, spec.windowSize);
  }

  lemma DifferentSizeDifferentSource(before: seq<Event>, events: seq<Event>, m: seq<Event>, n: seq<Event>, spec: Spec,
      key: GroupKey, last: int, next: int, hash: Hash)
    requires Injective(hash) && spec.windowSize > 0 && AllMetered(before) && AllMetered(events)
    requires m == Members(FullScan(before, spec, last), key, spec, last)
    requires n == Members(FullScan(events, spec, next), key, spec, next)
    requires |multiset(m)| < |multiset(n)|
    ensures SetFingerprint(m, hash).Ok? ==> SetFingerprint(m, hash) != SetFingerprint(n, hash)
  {
    hide Injective, AllMetered, Members, SetFingerprint, Scan, ScanStart;
    ScanHolds(before, spec, ScanStart(spec, None), last);
    ScanHolds(events, spec, ScanStart(spec, None), next);
    MembersMetered(FullScan(before, spec, last), key, spec, last);
    MembersMetered(FullScan(events, spec, next), key, spec, next);
    if SetFingerprint(m, hash).Ok? && SetFingerprint(m, hash) == SetFingerprint(n, hash) {
      SourceFixesNumbers(m, n, hash);
    }
  }

  lemma SettledIsPassed(world: World, spec: Spec, hash: Hash)
    requires spec.windowSize > 0 && Settled(world, spec, hash)
    ensures PassedCurrent(world, spec, hash)
  {
    hide Scan, ScanStart, Members, CurrentFor, SortedGroups;
  }

  /** A run that fails, nobody else writing, leaves the versions and the checkpoint as they were. */
  lemma FailedRunChangesClaimOnly(world: World, spec: Spec, input: Input)
    requires Injective(input.hash) && spec.Valid() && Fine(world, input.hash) && RunOnce(world, spec, input).1.Err?
    ensures RunOnce(world, spec, input).0 == world.(claim := RunOnce(world, spec, input).0.claim)
  {
    hide Injective, Chained, AllMetered, Plan, PutAll, Scan, ScanStart, Pages, Spec.Valid, Ready, Fresh, ScannedGroups;
    WindowIsPositive(spec);
    var job := JobOf(spec, input);
    var read := Read(world, spec, input.watermark);
    if read.Ok? && Plan(world.aggregates, read.value, job).Ok? {
      var scan, plan := read.value, Plan(world.aggregates, read.value, job).value;
      ScanIsReady(world.aggregates, world.events, scan, plan, ScanStart(spec, RecordOf(world.checkpoint)), job);
      PutAllAppendsFresh(world.aggregates, plan, ScannedGroups(scan, job), scan, job);
    }
  }

  lemma AttemptKeeps(before: World, spec: Spec, input: Input)
    requires Injective(input.hash) && spec.Valid() && Fine(before, input.hash)
            && PassedCurrent(before, spec, input.hash)
    ensures Fine(RunOnce(before, spec, input).0, input.hash)
            && PassedCurrent(RunOnce(before, spec, input).0, spec, input.hash)
  {
    hide Injective, Chained, AllMetered, RunOnce, PassedCurrent, Spec.Valid, Settled, VersionOf;
    WindowIsPositive(spec);
    if RunOnce(before, spec, input).1.Ok? {
      RunSettles(before, spec, input);
      SettledIsPassed(RunOnce(before, spec, input).0, spec, input.hash);
    } else {
      FailedRunChangesClaimOnly(before, spec, input);
      AppendingKeepsPassed(before, RunOnce(before, spec, input).0, spec, input.hash);
    }
  }

  lemma StepKeeps(before: World, after: World, step: Step, spec: Spec, hash: Hash)
    requires Injective(hash) && spec.Valid() && Fine(before, hash) && PassedCurrent(before, spec, hash)
    requires Stepped(before, after, step, spec, hash)
    ensures Fine(after, hash) && PassedCurrent(after, spec, hash)
  {
    hide Injective, Fine, PassedCurrent, Spec.Valid, RunOnce, Interrupted, Read, Plan, VersionOf, ArrivesInTime;
    match step {
      case Arrive => ArrivalKeeps(before, after, spec, hash);
      case Others => AppendingKeepsPassed(before, after, spec, hash);
      case Interrupt(input, j) => InterruptKeeps(before, after, input, j, spec, hash);
      case Attempt(input) => AttemptKeeps(before, spec, input);
    }
  }

  lemma {:induction false} HistoryKeeps(worlds: seq<World>, steps: seq<Step>, spec: Spec, hash: Hash, n: nat)
    requires Injective(hash) && spec.Valid() && History(worlds, steps, spec, hash) && n < |worlds|
    ensures |worlds| == |steps| + 1 && Fine(worlds[n], hash) && PassedCurrent(worlds[n], spec, hash)
    ensures n < |steps| ==> Stepped(worlds[n], worlds[n + 1], steps[n], spec, hash)
  {
    hide Injective, Stepped, Fine, Spec.Valid;
    if n > 0 {
      HistoryKeeps(worlds, steps, spec, hash, n - 1);
      StepKeeps(worlds[n - 1], worlds[n], steps[n - 1], spec, hash);
    }
  }

  /** Two versions that agree on what was aggregated. */
  ghost predicate SameNumbers(a: Aggregate, b: Aggregate) {
    a.eventCount == b.eventCount && a.total == b.total && a.sourceFingerprint == b.sourceFingerprint
  }

  lemma CurrentIsHonest(rows: seq<Aggregate>, key: GroupKey, spec: Spec, hash: Hash) returns (members: seq<Event>)
    requires Chained(rows, hash) && Current(rows, key, spec, hash).Some?
    ensures Computed(Current(rows, key, spec, hash).value, members, hash)
  {
    hide Computed, Follows, Issued, UniqueVersions, AggregateId;
    LatestIsHighest(rows, spec.scope, AggregateId(spec, key, hash), key.start, key.start + spec.windowSize);
    var c := Current(rows, key, spec, hash).value;
    assert Honest(c, hash);
    members :| Computed(c, members, hash);
  }

  /** A current version has the numbers that aggregating its group afresh gives. */
  lemma FreshAgrees(rows: seq<Aggregate>, key: GroupKey, members: seq<Event>, job: Job)
    requires Injective(job.hash) && Chained(rows, job.hash) && AllMetered(members)
    requires CurrentFor(rows, key, members, job.spec, job.hash)
    ensures AggregateGroup(key, members, map[], job).Ok?
    ensures SameNumbers(AggregateGroup(key, members, map[], job).value, Current(rows, key, job.spec, job.hash).value)
  {
    hide Injective, Chained, AllMetered, SetFingerprint, RunningSum, StorageResult, AggregateId, Current;
    var others := CurrentIsHonest(rows, key, job.spec, job.hash);
    SourceFixesNumbers(others, members, job.hash);
  }

  lemma {:induction false} AllGroupsSucceed(keys: seq<GroupKey>, events: seq<Event>, job: Job)
    requires job.spec.windowSize > 0
    requires forall k :: k in keys ==> AggregateGroup(k, Members(events, k, job.spec, job.watermark), map[], job).Ok?
    ensures AggregateGroups(keys, events, map[], job).Ok?
    ensures |AggregateGroups(keys, events, map[], job).value| == |keys|
  {
    hide AggregateGroup, Members;
    if keys != [] {
      assert keys[0] in keys;
      AllGroupsSucceed(keys[1..], events, job);
    }
  }

  lemma UpToDateIsOneShot(aggregates: seq<Aggregate>, events: seq<Event>, job: Job)
    requires Injective(job.hash) && job.spec.Valid() && Chained(aggregates, job.hash) && AllMetered(events)
    requires UpToDate(aggregates, events, job.spec, job.watermark, job.hash)
    ensures var whole := FullScan(events, job.spec, job.watermark);
            var keys := SortedGroups(whole, job.spec, job.watermark);
            var one := AggregateAll(whole, map[], job);
            && one.Ok? && |one.value| == |keys|
            && forall i :: 0 <= i < |keys| ==>
                 && Current(aggregates, keys[i], job.spec, job.hash).Some?
                 && SameNumbers(one.value[i], Current(aggregates, keys[i], job.spec, job.hash).value)
  {
    hide Injective, Chained, AllMetered, AggregateGroup, AggregateGroups, Current, Scan, ScanStart, SortedGroups,
        Members, SameNumbers, Matches, Spec.Valid;
    WindowIsPositive(job.spec);
    var whole := FullScan(events, job.spec, job.watermark);
    var keys := SortedGroups(whole, job.spec, job.watermark);
    ScanHolds(events, job.spec, ScanStart(job.spec, None), job.watermark);
    forall k | k in keys
      ensures AggregateGroup(k, Members(whole, k, job.spec, job.watermark), map[], job).Ok?
      ensures Current(aggregates, k, job.spec, job.hash).Some?
      ensures SameNumbers(AggregateGroup(k, Members(whole, k, job.spec, job.watermark), map[], job).value,
              Current(aggregates, k, job.spec, job.hash).value)
    {
      MembersMetered(whole, k, job.spec, job.watermark);
      FreshAgrees(aggregates, k, Members(whole, k, job.spec, job.watermark), job);
    }
    AllGroupsSucceed(keys, whole, job);
    forall i | 0 <= i < |keys|
      ensures Current(aggregates, keys[i], job.spec, job.hash).Some?
      ensures SameNumbers(AggregateGroups(keys, whole, map[], job).value[i],
              Current(aggregates, keys[i], job.spec, job.hash).value)
    {
      GroupAt(keys, whole, map[], job, i);
    }
  }

  /**
    Start from any store without a checkpoint of the spec, whatever versions it holds. Let events arrive, as long as
    they start inside the next scan, let other specs be aggregated, let runs fail or stop anywhere: after every
    successful run each group's latest version has the count, total and sources of one aggregation of all stored
    events from the first bucket to the watermark; `createdAt` and `ambient` are any single call's.
   */
  lemma IncrementalIsOneShot(worlds: seq<World>, steps: seq<Step>, spec: Spec, hash: Hash, n: nat, createdAt: int,
      ambient: Labels)
    requires Injective(hash) && spec.Valid() && History(worlds, steps, spec, hash) && n < |steps|
    requires steps[n].Attempt? && RunOnce(worlds[n], spec, steps[n].input).1.Ok?
    ensures n + 1 < |worlds|
    ensures var watermark := steps[n].input.watermark;
            var whole := FullScan(worlds[n + 1].events, spec, watermark);
            var keys := SortedGroups(whole, spec, watermark);
            var one := AggregateAll(whole, map[], Job(spec, watermark, createdAt, ambient, hash));
            && one.Ok? && |one.value| == |keys|
            && forall i :: 0 <= i < |keys| ==>
                 && Current(worlds[n + 1].aggregates, keys[i], spec, hash).Some?
                 && SameNumbers(one.value[i], Current(worlds[n + 1].aggregates, keys[i], spec, hash).value)
  {
    hide Injective, Chained, AllMetered, AggregateAll, Current, Scan, ScanStart, SortedGroups, SameNumbers,
        Spec.Valid, UpToDate, PassedCurrent, RunOnce;
    HistoryKeeps(worlds, steps, spec, hash, n);
    RunSettles(worlds[n], spec, steps[n].input);
    UpToDateIsOneShot(worlds[n + 1].aggregates, worlds[n + 1].events,
        Job(spec, steps[n].input.watermark, createdAt, ambient, hash));
  }

  // ---- Reruns ----

  lemma {:induction false} NothingFresh(rows: seq<Aggregate>, plan: seq<Aggregate>)
    requires forall i :: 0 <= i < |plan| ==> plan[i] in rows
    ensures Fresh(rows, plan) == []
  {
    if plan != [] {
      NothingFresh(rows, plan[..|plan| - 1]);
    }
  }

  /** A plan over current groups only repeats what is stored. */
  lemma CurrentPlanIsStored(rows: seq<Aggregate>, plan: seq<Aggregate>, scan: seq<Event>, job: Job)
    requires job.spec.windowSize > 0
    requires Ready(rows, plan, ScannedGroups(scan, job), scan, job)
    requires forall key :: key in ScannedGroups(scan, job) ==>
               CurrentFor(rows, key, Members(scan, key, job.spec, job.watermark), job.spec, job.hash)
    ensures Fresh(rows, plan) == []
  {
    hide Injective, Chained, AllMetered, SetFingerprint, Members, Current, SortedGroups, Spec.Valid, Fresh,
        NewVersion, Unique;
    var keys := ScannedGroups(scan, job);
    forall i | 0 <= i < |plan| ensures plan[i] in rows {
      assert keys[i] in keys;
      CurrentIsHighest(rows, job.spec, keys[i], job.hash);
    }
    NothingFresh(rows, plan);
  }

  /** Nothing that the next scan covers arrived or came of age since the last run. */
  ghost predicate NothingNew(before: World, events: seq<Event>, spec: Spec, next: int)
    requires spec.windowSize > 0
  {
    && before.events <= events
    && (forall i :: |before.events| <= i < |events| && Matches(events[i], spec) ==>
          (ScanStart(spec, RecordOf(before.checkpoint)) <= events[i].start ==> next <= events[i].start))
    && (RecordOf(before.checkpoint).Some? ==>
          forall i :: 0 <= i < |before.events| && Matches(before.events[i], spec) ==>
            (RecordOf(before.checkpoint).value.watermark <= before.events[i].start ==> next <= before.events[i].start))
  }

  lemma NothingNewSame(before: World, events: seq<Event>, spec: Spec, last: int, next: int, e: Event)
    requires spec.windowSize > 0 && NothingNew(before, events, spec, next) && last <= next
    requires RecordOf(before.checkpoint).Some? && RecordOf(before.checkpoint).value.watermark == last
    requires Matches(e, spec) && ScanStart(spec, RecordOf(before.checkpoint)) <= e.start < next
    ensures multiset(before.events)[e] == multiset(events)[e]
    ensures e in before.events ==> e.start < last
  {
    hide Matches, ScanStart;
    var arrived := events[|before.events|..];
    assert events == before.events + arrived;
    forall i | 0 <= i < |arrived| ensures arrived[i] != e {
      assert arrived[i] == events[|before.events| + i];
    }
    assert e !in arrived && multiset(arrived)[e] == 0;
  }

  lemma QuietGroup(before: World, events: seq<Event>, spec: Spec, last: int, next: int, from: int, key: GroupKey)
    requires spec.windowSize > 0
    requires NothingNew(before, events, spec, next) && last <= next
    requires RecordOf(before.checkpoint).Some? && RecordOf(before.checkpoint).value.watermark == last
    requires ScanStart(spec, None) <= from == ScanStart(spec, RecordOf(before.checkpoint)) <= key.start
    ensures multiset(Members(Scan(events, spec, from, next), key, spec, next))
            == multiset(Members(FullScan(before.events, spec, last), key, spec, last))
  {
    hide Scan, Members, KeyOf, Matches, ScanStart, NothingNew;
    forall e
      ensures multiset(Members(Scan(events, spec, from, next), key, spec, next))[e]
              == multiset(Members(FullScan(before.events, spec, last), key, spec, last))[e]
    {
      ScannedMembers(events, spec, from, next, key, e);
      ScannedMembers(before.events, spec, ScanStart(spec, None), last, key, e);
      KeyIsBucket(e, spec);
      if Matches(e, spec) && from <= e.start < next {
        NothingNewSame(before, events, spec, last, next, e);
        assert e in multiset(before.events) <==> e in before.events;
      }
    }
  }

  lemma QuietGroupIsCurrent(before: World, events: seq<Event>, job: Job, last: int, key: GroupKey)
    requires job.spec.Valid() && Settled(before, job.spec, job.hash)
    requires NothingNew(before, events, job.spec, job.watermark) && last <= job.watermark
    requires RecordOf(before.checkpoint).Some? && RecordOf(before.checkpoint).value.watermark == last
    requires key in ScannedGroups(Scan(events, job.spec, ScanStart(job.spec, RecordOf(before.checkpoint)),
            job.watermark), job)
    ensures CurrentFor(before.aggregates, key,
                       Members(Scan(events, job.spec, ScanStart(job.spec, RecordOf(before.checkpoint)), job.watermark),
                           key, job.spec, job.watermark),
                       job.spec, job.hash)
  {
    hide Scan, Members, KeyOf, Matches, ScanStart, NothingNew, SortedGroups, CurrentFor, Spec.Valid;
    WindowIsPositive(job.spec);
    var spec, from, next := job.spec, ScanStart(job.spec, RecordOf(before.checkpoint)), job.watermark;
    var scan := Scan(events, spec, from, next);
    ScanStartFacts(spec, RecordOf(before.checkpoint));
    var e := ScannedWitness(events, spec, from, next, key);
    KeyIsBucket(e, spec);
    ScanEdgeIsLowest(spec, from, e, key);
    QuietGroup(before, events, spec, last, next, from, key);
    SameMembersSameGroup(scan, next, FullScan(before.events, spec, last), last, key, spec);
    CurrentForSame(before.aggregates, key, Members(FullScan(before.events, spec, last), key, spec, last),
        Members(scan, key, spec, next), spec, job.hash);
  }

  lemma ScanEdgeIsLowest(spec: Spec, from: int, e: Event, key: GroupKey)
    requires spec.Valid() && from % spec.windowSize == 0 && from <= e.start && KeyOf(e, spec) == key
    ensures from <= key.start
  {
    hide Select;
    BucketContains(from, spec.windowSize, from);
    BucketMonotone(from, e.start, spec.windowSize);
  }

  /** A run that finds no newly eligible event appends no version, whether it ends well or not. */
  lemma QuietRunAppendsNothing(before: World, events: seq<Event>, spec: Spec, input: Input)
    requires Injective(input.hash) && spec.Valid() && Fine(before.(events := events), input.hash)
            && Settled(before, spec, input.hash)
    requires RecordOf(before.checkpoint).Some? && NothingNew(before, events, spec, input.watermark)
    ensures RunOnce(before.(events := events), spec, input).0.aggregates == before.aggregates
  {
    hide Injective, Chained, AllMetered, Ready, Plan, PutAll, Scan, ScanStart, Fresh, ScannedGroups, Settled,
        NothingNew, CurrentFor, Spec.Valid, Members;
    WindowIsPositive(spec);
    var world := before.(events := events);
    var job := JobOf(spec, input);
    var read := Read(world, spec, input.watermark);
    if read.Ok? && Plan(world.aggregates, read.value, job).Ok? {
      var scan, plan := read.value, Plan(world.aggregates, read.value, job).value;
      ScanIsReady(world.aggregates, events, scan, plan, ScanStart(spec, RecordOf(before.checkpoint)), job);
      QuietPlan(before, events, scan, plan, job);
      PutAllAppendsFresh(world.aggregates, plan, ScannedGroups(scan, job), scan, job);
      assert world.aggregates + [] == world.aggregates;
    }
  }

  lemma QuietPlan(before: World, events: seq<Event>, scan: seq<Event>, plan: seq<Aggregate>, job: Job)
    requires job.spec.Valid() && Settled(before, job.spec, job.hash)
    requires RecordOf(before.checkpoint).Some? && RecordOf(before.checkpoint).value.watermark <= job.watermark
    requires NothingNew(before, events, job.spec, job.watermark)
    requires scan == Scan(events, job.spec, ScanStart(job.spec, RecordOf(before.checkpoint)), job.watermark)
    requires Ready(before.aggregates, plan, ScannedGroups(scan, job), scan, job)
    ensures Fresh(before.aggregates, plan) == []
  {
    hide Ready, Scan, ScanStart, Fresh, ScannedGroups, Settled, NothingNew, CurrentFor, Spec.Valid, Members;
    WindowIsPositive(job.spec);
    forall key | key in ScannedGroups(scan, job)
      ensures CurrentFor(before.aggregates, key, Members(scan, key, job.spec, job.watermark), job.spec, job.hash)
    {
      QuietGroupIsCurrent(before, events, job, RecordOf(before.checkpoint).value.watermark, key);
    }
    CurrentPlanIsStored(before.aggregates, plan, scan, job);
  }

  // ---- Crashes ----

  /** The same version, put at another time or under another ambient correlation. */
  predicate Alike(a: Aggregate, b: Aggregate) {
    a == b.(createdAt := a.createdAt, correlation := a.correlation)
  }

  ghost predicate AllAlike(xs: seq<Aggregate>, ys: seq<Aggregate>) {
    |xs| == |ys| && forall i :: 0 <= i < |xs| ==> Alike(xs[i], ys[i])
  }

  lemma AppendAlike(xs: seq<Aggregate>, ys: seq<Aggregate>, a: Aggregate, b: Aggregate)
    requires AllAlike(xs, ys) && Alike(a, b)
    ensures AllAlike(xs + [a], ys + [b])
  {
  }

  /** What is replanned for a group after the first `j` puts of a plan. */
  lemma ReplannedAt(rows: seq<Aggregate>, plan: seq<Aggregate>, keys: seq<GroupKey>, scan: seq<Event>, job: Job,
      j: nat, again: seq<Aggregate>, other: Job, i: nat)
    requires Ready(rows, plan, keys, scan, job) && j <= |plan|
    requires other == job.(createdAt := other.createdAt, ambient := other.ambient)
    requires Ready(rows + Fresh(rows, plan[..j]), again, keys, scan, other)
    requires i < |plan|
    ensures |again| == |plan|
    ensures i < j ==> again[i] == plan[i] && again[i] in rows + Fresh(rows, plan[..j])
    ensures i >= j ==> Alike(again[i], plan[i]) && (again[i] in rows + Fresh(rows, plan[..j]) <==> plan[i] in rows)
  {
    hide Injective, Chained, AllMetered, Fresh, SetFingerprint, Current, Members, Spec.Valid, AggregateId, RunningSum,
        StorageResult, Unique, Planned, VersionOf, DealHolds, FindVersion;
    WindowIsPositive(job.spec);
    var mid := rows + Fresh(rows, plan[..j]);
    PlannedAt(rows, plan, keys, scan, job, i);
    PlannedAt(mid, again, keys, scan, other, i);
    ReadyPrefix(rows, plan, keys, scan, job, j);
    if i < j {
      PlannedBecomesCurrent(rows, plan[..j], keys[..j], scan, job, i);
      SameSourceReused(mid, again, keys, scan, other, i);
      PlanIsStored(rows, plan[..j], i);
    } else {
      NotAmong(keys, i, j);
      OthersKeepCurrent(rows, plan[..j], keys[..j], scan, job, keys[i]);
      PlannedAlike(keys[i], Members(scan, keys[i], job.spec, job.watermark), Current(rows, keys[i], job.spec, job.hash),
          job, other);
      SameSide(rows, mid, plan[i], again[i], Current(rows, keys[i], job.spec, job.hash));
    }
  }

  lemma NotAmong(keys: seq<GroupKey>, i: nat, j: nat)
    requires Unique(keys) && j <= i < |keys|
    ensures keys[i] !in keys[..j]
  {
  }

  /** A group whose current version has the sources of its members is planned as that version. */
  lemma SameSourceReused(rows: seq<Aggregate>, plan: seq<Aggregate>, keys: seq<GroupKey>, scan: seq<Event>,
      job: Job, i: nat)
    requires Ready(rows, plan, keys, scan, job) && i < |plan|
    requires CurrentFor(rows, keys[i], Members(scan, keys[i], job.spec, job.watermark), job.spec, job.hash)
    ensures Current(rows, keys[i], job.spec, job.hash) == Some(plan[i])
  {
    hide Injective, Chained, AllMetered, SetFingerprint, Current, Members, Spec.Valid, Unique, NewVersion;
    WindowIsPositive(job.spec);
    assert Planned(keys[i], Members(scan, keys[i], job.spec, job.watermark), Current(rows, keys[i], job.spec, job.hash),
        job) == Ok(plan[i]);
  }

  lemma PlannedAlike(key: GroupKey, members: seq<Event>, current: Option<Aggregate>, job: Job, other: Job)
    requires other == job.(createdAt := other.createdAt, ambient := other.ambient)
    requires Planned(key, members, current, job).Ok? && Planned(key, members, current, other).Ok?
    ensures Alike(Planned(key, members, current, other).value, Planned(key, members, current, job).value)
    ensures current == Some(Planned(key, members, current, job).value)
            <==> current == Some(Planned(key, members, current, other).value)
  {
    hide SetFingerprint, AggregateId, RunningSum, StorageResult, VersionId;
  }

  lemma SameSide(rows: seq<Aggregate>, mid: seq<Aggregate>, a: Aggregate, b: Aggregate, current: Option<Aggregate>)
    requires rows <= mid
    requires a in rows <==> current == Some(a)
    requires b in mid <==> current == Some(b)
    requires current == Some(a) <==> current == Some(b)
    ensures b in mid <==> a in rows
  {
  }

  /** The rows after the first `n` puts of the plan, once the first `j` are there. */
  function Reached(rows: seq<Aggregate>, plan: seq<Aggregate>, j: nat, n: nat): seq<Aggregate>
    requires j <= |plan| && n <= |plan|
  {
    rows + Fresh(rows, plan[..if n <= j then j else n])
  }

  lemma ResumedStep(rows: seq<Aggregate>, plan: seq<Aggregate>, mid: seq<Aggregate>, again: seq<Aggregate>, j: nat,
      n: nat)
    requires 0 < n <= |plan| == |again| && j <= |plan|
    requires AllAlike(mid + Fresh(mid, again[..n - 1]), Reached(rows, plan, j, n - 1))
    requires n <= j ==> again[n - 1] in mid
    requires n > j ==> Alike(again[n - 1], plan[n - 1]) && (again[n - 1] in mid <==> plan[n - 1] in rows)
    ensures AllAlike(mid + Fresh(mid, again[..n]), Reached(rows, plan, j, n))
  {
    hide AllAlike, Alike, Fresh;
    FreshStep(mid, again, n);
    if n > j {
      FreshStep(rows, plan, n);
      if again[n - 1] !in mid {
        AppendAlike(mid + Fresh(mid, again[..n - 1]), rows + Fresh(rows, plan[..n - 1]), again[n - 1], plan[n - 1]);
      }
    }
  }

  lemma {:induction false} ResumedPuts(rows: seq<Aggregate>, plan: seq<Aggregate>, keys: seq<GroupKey>,
      scan: seq<Event>, job: Job, j: nat, again: seq<Aggregate>, other: Job, n: nat)
    requires Ready(rows, plan, keys, scan, job) && j <= |plan| && n <= |plan| && |again| == |plan|
    requires other == job.(createdAt := other.createdAt, ambient := other.ambient)
    requires Ready(rows + Fresh(rows, plan[..j]), again, keys, scan, other)
    ensures var mid := rows + Fresh(rows, plan[..j]);
            AllAlike(mid + Fresh(mid, again[..n]), Reached(rows, plan, j, n))
  {
    hide Ready, Alike, AllAlike;
    var mid := rows + Fresh(rows, plan[..j]);
    if n == 0 {
      AlikeItself(mid);
      assert mid + [] == mid;
    } else {
      ResumedPuts(rows, plan, keys, scan, job, j, again, other, n - 1);
      ReplannedAt(rows, plan, keys, scan, job, j, again, other, n - 1);
      ResumedStep(rows, plan, mid, again, j, n);
    }
  }

  lemma AlikeItself(rows: seq<Aggregate>)
    ensures AllAlike(rows, rows)
  {
  }

  lemma FreshStep(rows: seq<Aggregate>, plan: seq<Aggregate>, n: nat)
    requires 0 < n <= |plan|
    ensures rows + Fresh(rows, plan[..n])
            == if plan[n - 1] in rows then rows + Fresh(rows, plan[..n - 1])
               else rows + Fresh(rows, plan[..n - 1]) + [plan[n - 1]]
  {
    assert plan[..n][..n - 1] == plan[..n - 1];
  }

  /** A run that could claim, read and plan succeeds, and leaves exactly this behind. */
  lemma RunCompletes(world: World, spec: Spec, input: Input, scan: seq<Event>, plan: seq<Aggregate>)
    requires Injective(input.hash) && spec.Valid() && Fine(world, input.hash) && spec.initialStart < input.watermark
    requires Claims.Decide(Claims.Acquire(input.owner, input.now + input.lease, input.now), RecordOf(world.claim)).Ok?
    requires Read(world, spec, input.watermark) == Ok(scan)
            && Plan(world.aggregates, scan, JobOf(spec, input)) == Ok(plan)
    ensures var (after, r) := RunOnce(world, spec, input);
            && r.Ok? && r.value.aggregates == plan
            && after.events == world.events
            && after.aggregates == world.aggregates + Fresh(world.aggregates, plan)
            && RecordOf(after.checkpoint)
                == Some(Checkpoints.Checkpoint(input.watermark, Expected(RecordOf(world.checkpoint)) + 1, input.now))
  {
    hide Injective, Chained, AllMetered, Ready, Plan, PutAll, Scan, ScanStart, Fresh, ScannedGroups, Pages, Spec.Valid;
    WindowIsPositive(spec);
    var job := JobOf(spec, input);
    ScanIsReady(world.aggregates, world.events, scan, plan, ScanStart(spec, RecordOf(world.checkpoint)), job);
    PutAllAppendsFresh(world.aggregates, plan, ScannedGroups(scan, job), scan, job);
  }

  /** Once a run can claim, read and plan, nothing else can fail: neither a put, nor the checkpoint, nor the release. */
  lemma RunNeedsNothingElse(world: World, spec: Spec, input: Input)
    requires Injective(input.hash) && spec.Valid() && Fine(world, input.hash)
    ensures RunOnce(world, spec, input).1.Ok?
            <==> && spec.initialStart < input.watermark
                 && Claims.Decide(Claims.Acquire(input.owner, input.now + input.lease, input.now),
                     RecordOf(world.claim)).Ok?
                 && Read(world, spec, input.watermark).Ok?
                 && Plan(world.aggregates, Read(world, spec, input.watermark).value, JobOf(spec, input)).Ok?
  {
    hide Injective, Fine, Plan, PutAll, Scan, ScanStart, Pages, Spec.Valid;
    WindowIsPositive(spec);
    if && spec.initialStart < input.watermark
       && Claims.Decide(Claims.Acquire(input.owner, input.now + input.lease, input.now), RecordOf(world.claim)).Ok?
       && Read(world, spec, input.watermark).Ok?
       && Plan(world.aggregates, Read(world, spec, input.watermark).value, JobOf(spec, input)).Ok?
    {
      var scan := Read(world, spec, input.watermark).value;
      RunCompletes(world, spec, input, scan, Plan(world.aggregates, scan, JobOf(spec, input)).value);
    }
  }

  lemma PlansExactly(rows: seq<Aggregate>, scan: seq<Event>, job: Job)
    requires job.spec.windowSize > 0
    ensures Plan(rows, scan, job).Ok? <==> AggregateAll(scan, map[], job).Ok?
  {
    hide AggregateGroups, SortedGroups, PreviousOf;
    if AggregateAll(scan, map[], job).Ok? {
      var provisional := AggregateAll(scan, map[], job).value;
      GroupsSucceed(ScannedGroups(scan, job), scan, job, PreviousOf(rows, provisional, job.spec.scope), job);
    }
  }

  /** The groups of a scan are small enough to fingerprint and their totals small enough to store. */
  ghost predicate GroupsFit(scan: seq<Event>, spec: Spec, watermark: int)
    requires spec.windowSize > 0
  {
    forall i :: 0 <= i < |scan| ==>
      var members := Members(scan, KeyOf(scan[i], spec), spec, watermark);
      |members| <= MAX_ARRAY && Abs(SumUnits(Values(members))) < Pow10(76)
  }

  lemma ScanPlansExactly(rows: seq<Aggregate>, events: seq<Event>, from: int, job: Job)
    requires job.spec.Valid() && AllMetered(events)
    ensures var scan := Scan(events, job.spec, from, job.watermark);
            Plan(rows, scan, job).Ok? <==> GroupsFit(scan, job.spec, job.watermark)
  {
    hide Plan, Scan, Members, KeyOf, SumUnits, Pow10, AllMetered, AggregateAll, Matches, AggregateId, SetFingerprint,
        Spec.Valid;
    WindowIsPositive(job.spec);
    var scan := Scan(events, job.spec, from, job.watermark);
    ScanHolds(events, job.spec, from, job.watermark);
    ScanIsBefore(events, job.spec, from, job.watermark);
    PlansExactly(rows, scan, job);
    NormalizedAggregatesExactly(scan, map[], job);
  }

  lemma ScanIsBefore(events: seq<Event>, spec: Spec, from: int, to: int)
    ensures forall i :: 0 <= i < |Scan(events, spec, from, to)| ==> Scan(events, spec, from, to)[i].start < to
  {
    hide Scan, Matches;
    var scan := Scan(events, spec, from, to);
    forall i | 0 <= i < |scan| ensures scan[i].start < to {
      ScanMeaning(events, spec, from, to, scan[i]);
      assert scan[i] in multiset(scan);
    }
  }

  /**
    A run succeeds exactly when its watermark follows the start, is not behind the checkpoint and leaves something to
    scan; its lease is positive and no other owner's is unexpired; and the scan takes at most 10000 pages, its groups
    at most 256 members each, with totals below 10^58.
   */
  lemma RunSucceedsExactly(world: World, spec: Spec, input: Input)
    requires Injective(input.hash) && spec.Valid() && Fine(world, input.hash)
    ensures var claim, checkpoint := RecordOf(world.claim), RecordOf(world.checkpoint);
            var scan := Scan(world.events, spec, ScanStart(spec, checkpoint), input.watermark);
            RunOnce(world, spec, input).1.Ok?
            <==> && spec.initialStart < input.watermark
                 && (checkpoint.None? || checkpoint.value.watermark <= input.watermark)
                 && ScanStart(spec, checkpoint) < input.watermark
                 && input.lease > 0
                 && (claim.None? || claim.value.expiresAt <= input.now || claim.value.owner == input.owner)
                 && Max(1, (|scan| + spec.pageSize - 1) / spec.pageSize) <= 10_000
                 && GroupsFit(scan, spec, input.watermark)
  {
    hide Injective, AllMetered, Chained, Plan, Scan, ScanStart, Pages, Spec.Valid, RunOnce, GroupsFit;
    WindowIsPositive(spec);
    var claim, checkpoint := RecordOf(world.claim), RecordOf(world.checkpoint);
    var scan := Scan(world.events, spec, ScanStart(spec, checkpoint), input.watermark);
    RunNeedsNothingElse(world, spec, input);
    Claims.AcquiresExactly(input.owner, input.now + input.lease, input.now, claim);
    PagesIsCeiling(|scan|, spec.pageSize);
    ScanPlansExactly(world.aggregates, world.events, ScanStart(spec, checkpoint), JobOf(spec, input));
  }

  /** Why a run fails, in the order of its checks. */
  lemma RunFailsWith(world: World, spec: Spec, input: Input)
    requires Injective(input.hash) && spec.Valid() && Fine(world, input.hash) && RunOnce(world, spec, input).1.Err?
    ensures var error, checkpoint := RunOnce(world, spec, input).1.error, RecordOf(world.checkpoint);
            var from := ScanStart(spec, checkpoint);
            var scan := Scan(world.events, spec, from, input.watermark);
            if input.watermark <= spec.initialStart || input.lease <= 0 then error == InvalidUsage
            else if !Claimable(RecordOf(world.claim), input) then error == ClaimUnavailable
            else if checkpoint.Some? && input.watermark < checkpoint.value.watermark then error == InvalidUsage
            else if from >= input.watermark then error == InvalidUsage
            else if Max(1, (|scan| + spec.pageSize - 1) / spec.pageSize) > 10_000 then error == InvalidUsageResult
            else Plan(world.aggregates, scan, JobOf(spec, input)) == Err(error)
  {
    hide Injective, Fine, Plan, Scan, ScanStart, Pages, Spec.Valid, RunOnce;
    WindowIsPositive(spec);
    if input.watermark <= spec.initialStart || !Claimable(RecordOf(world.claim), input) {
      RefusedRunChangesNothing(world, spec, input);
    } else {
      var from := ScanStart(spec, RecordOf(world.checkpoint));
      PagesIsCeiling(|Scan(world.events, spec, from, input.watermark)|, spec.pageSize);
      RunNeedsNothingElse(world, spec, input);
      Claims.AcquiresExactly(input.owner, input.now + input.lease, input.now, RecordOf(world.claim));
      UnreadOrUnplanned(world, spec, input);
    }
  }

  lemma UnreadOrUnplanned(world: World, spec: Spec, input: Input)
    requires spec.windowSize > 0 && spec.pageSize > 0 && spec.initialStart < input.watermark
    requires Claimable(RecordOf(world.claim), input)
    ensures var read, r := Read(world, spec, input.watermark), RunOnce(world, spec, input).1;
            && (read.Err? ==> r == Err(read.error))
            && (read.Ok? && Plan(world.aggregates, read.value, JobOf(spec, input)).Err? ==>
                  r == Err(Plan(world.aggregates, read.value, JobOf(spec, input)).error))
  {
    hide Plan, PutAll, ScanResult;
  }

  /**
    Repeating a run at its own watermark leaves nothing to scan exactly if no lateness is allowed and the watermark is a
    bucket edge.
   */
  lemma RerunWindowIsEmptyExactly(spec: Spec, checkpoint: Checkpoints.Checkpoint)
    requires spec.Valid() && spec.initialStart < checkpoint.watermark
    ensures ScanStart(spec, Some(checkpoint)) >= checkpoint.watermark
            <==> spec.allowedLateness == 0 && checkpoint.watermark % spec.windowSize == 0
  {
    hide Bucket;
    var start := LateLimit(spec, Some(checkpoint));
    BucketAligned(start, spec.windowSize);
    if checkpoint.watermark % spec.windowSize == 0 {
      BucketContains(checkpoint.watermark, spec.windowSize, checkpoint.watermark);
    }
  }

  /** There the rerun fails, although it got the claim, and changes nothing but the claim. */
  lemma RerunAtEdgeFails(world: World, spec: Spec, input: Input)
    requires spec.Valid() && spec.allowedLateness == 0 && input.watermark % spec.windowSize == 0
    requires spec.initialStart < input.watermark
    requires RecordOf(world.checkpoint).Some? && RecordOf(world.checkpoint).value.watermark == input.watermark
    requires Claims.Decide(Claims.Acquire(input.owner, input.now + input.lease, input.now), RecordOf(world.claim)).Ok?
    ensures RunOnce(world, spec, input).1 == Err(InvalidUsage)
    ensures RunOnce(world, spec, input).0 == world.(claim := RunOnce(world, spec, input).0.claim)
  {
    hide ScanStart, Plan, PutAll, Scan, Spec.Valid;
    WindowIsPositive(spec);
    RerunWindowIsEmptyExactly(spec, RecordOf(world.checkpoint).value);
  }

  /** The world in which a run stopped for good after the first `j` of its puts: claimed, watermark not moved. */
  function Interrupted(world: World, spec: Spec, input: Input, plan: seq<Aggregate>, j: nat): World
    requires j <= |plan|
  {
    var claim := Claims.Decide(Claims.Acquire(input.owner, input.now + input.lease, input.now), RecordOf(world.claim));
    world.(
      aggregates := PutAll(world.aggregates, plan[..j], input.hash).0,
      claim := if claim.Ok? then WriteState(world.claim, claim.value, world.claim, 1) else world.claim)
  }

  /** A run that stopped for good still holds its lease, for as long as it was given from when it began. */
  lemma InterruptedHoldsLease(world: World, spec: Spec, input: Input, plan: seq<Aggregate>, j: nat)
    requires j <= |plan| && Claimable(RecordOf(world.claim), input)
    ensures var before, claim := RecordOf(world.claim), RecordOf(Interrupted(world, spec, input, plan, j).claim);
            && claim.Some? && claim.value.owner == input.owner
            && claim.value.expiresAt == input.now + input.lease && claim.value.updatedAt == input.now
            && claim.value.revision == (if before.None? then 0 else before.value.revision) + 1
    ensures Interrupted(world, spec, input, plan, j).checkpoint == world.checkpoint
  {
    hide PutAll;
  }

  lemma InterruptedRows(world: World, spec: Spec, input: Input, plan: seq<Aggregate>, keys: seq<GroupKey>,
      scan: seq<Event>, j: nat)
    requires Ready(world.aggregates, plan, keys, scan, JobOf(spec, input)) && j <= |plan|
    ensures var mid := Interrupted(world, spec, input, plan, j);
            && mid.aggregates == world.aggregates + Fresh(world.aggregates, plan[..j])
            && Chained(mid.aggregates, input.hash)
            && mid.events == world.events && mid.checkpoint == world.checkpoint
  {
    hide Fresh, PutAll, Chained, PlanFor, Injective, AllMetered, Spec.Valid, Unique;
    ReadyPrefix(world.aggregates, plan, keys, scan, JobOf(spec, input), j);
    PutAllAppendsFresh(world.aggregates, plan[..j], keys[..j], scan, JobOf(spec, input));
  }

  lemma ResumedRows(world: World, spec: Spec, input: Input, j: nat, retry: Input, scan: seq<Event>,
      plan: seq<Aggregate>) returns (again: seq<Aggregate>)
    requires Injective(input.hash) && spec.Valid() && Fine(world, input.hash)
    requires retry == Input(input.watermark, retry.owner, retry.now, retry.lease, retry.ambient, input.hash)
    requires scan == Scan(world.events, spec, ScanStart(spec, RecordOf(world.checkpoint)), input.watermark)
    requires Plan(world.aggregates, scan, JobOf(spec, input)) == Ok(plan) && j <= |plan|
    ensures var mid := Interrupted(world, spec, input, plan, j);
            && mid.events == world.events && mid.checkpoint == world.checkpoint && Fine(mid, input.hash)
            && Plan(mid.aggregates, scan, JobOf(spec, retry)) == Ok(again)
            && AllAlike(mid.aggregates + Fresh(mid.aggregates, again), world.aggregates + Fresh(world.aggregates, plan))
  {
    hide Injective, Chained, AllMetered, Ready, Plan, PutAll, Scan, ScanStart, Fresh, SortedGroups, AllAlike,
        Interrupted, Spec.Valid;
    WindowIsPositive(spec);
    var job, other := JobOf(spec, input), JobOf(spec, retry);
    var keys := ScannedGroups(scan, job);
    ScanIsReady(world.aggregates, world.events, scan, plan, ScanStart(spec, RecordOf(world.checkpoint)), job);
    InterruptedRows(world, spec, input, plan, keys, scan, j);
    var mid := Interrupted(world, spec, input, plan, j);
    PlanSucceeds(world.aggregates, scan, job, mid.aggregates, other);
    again := Plan(mid.aggregates, scan, other).value;
    ScanIsReady(mid.aggregates, mid.events, scan, again, ScanStart(spec, RecordOf(world.checkpoint)), other);
    AllResumed(world.aggregates, plan, keys, scan, job, j, again, other);
  }

  lemma AllResumed(rows: seq<Aggregate>, plan: seq<Aggregate>, keys: seq<GroupKey>, scan: seq<Event>, job: Job,
      j: nat, again: seq<Aggregate>, other: Job)
    requires Ready(rows, plan, keys, scan, job) && j <= |plan|
    requires other == job.(createdAt := other.createdAt, ambient := other.ambient)
    requires Ready(rows + Fresh(rows, plan[..j]), again, keys, scan, other)
    ensures var mid := rows + Fresh(rows, plan[..j]);
            AllAlike(mid + Fresh(mid, again), rows + Fresh(rows, plan))
  {
    hide AllAlike, Fresh, PlanFor, Injective, Chained, AllMetered, Spec.Valid;
    ResumedPuts(rows, plan, keys, scan, job, j, again, other, |plan|);
    assert again[..|plan|] == again && plan[..|plan|] == plan;
    assert j == |plan| ==> plan[..j] == plan;
  }

  /**
    Stop a run after any number of its puts and run again with the same events and watermark, at any time and by
    any owner that gets the claim: the rerun succeeds, and the stored versions are those of one uninterrupted run,
    row by row, in everything but creation time and correlation. So is the checkpoint, but for its update time.
   */
  lemma CrashedRunIsResumed(world: World, spec: Spec, input: Input, j: nat, retry: Input)
    requires Injective(input.hash) && spec.Valid() && Fine(world, input.hash) && RunOnce(world, spec, input).1.Ok?
    requires j <= |RunOnce(world, spec, input).1.value.aggregates|
    requires retry == Input(input.watermark, retry.owner, retry.now, retry.lease, retry.ambient, input.hash)
    requires Claims.Decide(Claims.Acquire(retry.owner, retry.now + retry.lease, retry.now),
                           RecordOf(Interrupted(world, spec, input, RunOnce(world, spec, input).1.value.aggregates,
                               j).claim)).Ok?
    ensures var once := RunOnce(world, spec, input);
            var crashed := Interrupted(world, spec, input, once.1.value.aggregates, j);
            var resumed := RunOnce(crashed, spec, retry);
            && Fine(crashed, input.hash) && resumed.1.Ok?
            && AllAlike(resumed.0.aggregates, once.0.aggregates)
            && RecordOf(resumed.0.checkpoint).Some? && RecordOf(once.0.checkpoint).Some?
            && RecordOf(resumed.0.checkpoint).value == RecordOf(once.0.checkpoint).value.(updatedAt := retry.now)
  {
    hide Injective, Chained, AllMetered, Ready, Plan, PutAll, Scan, ScanStart, Fresh, AllAlike, Spec.Valid, Pages;
    WindowIsPositive(spec);
    var scan := Read(world, spec, input.watermark).value;
    var plan := Plan(world.aggregates, scan, JobOf(spec, input)).value;
    RunCompletes(world, spec, input, scan, plan);
    var again := ResumedRows(world, spec, input, j, retry, scan, plan);
    RunCompletes(Interrupted(world, spec, input, plan, j), spec, retry, scan, again);
  }

  // ---- Any number of crashes ----

  /** Each try gets the claim in the world that the one before it left when it stopped for good amid its puts. */
  ghost predicate Crashes(worlds: seq<World>, tries: seq<Input>, stops: seq<nat>, spec: Spec)
    requires spec.windowSize > 0 && spec.pageSize > 0
  {
    && |worlds| == |tries| == |stops| + 1
    && (forall k :: 0 <= k < |tries| ==>
          && tries[k].watermark == tries[0].watermark && tries[k].hash == tries[0].hash
          && Claims.Decide(Claims.Acquire(tries[k].owner, tries[k].now + tries[k].lease, tries[k].now),
                           RecordOf(worlds[k].claim)).Ok?)
    && forall k :: 0 <= k < |stops| && RunOnce(worlds[k], spec, tries[k]).1.Ok? ==>
         var plan := RunOnce(worlds[k], spec, tries[k]).1.value.aggregates;
         stops[k] <= |plan| && worlds[k + 1] == Interrupted(worlds[k], spec, tries[k], plan, stops[k])
  }

  lemma AlikeIsTransitive(xs: seq<Aggregate>, ys: seq<Aggregate>, zs: seq<Aggregate>)
    requires AllAlike(xs, ys) && AllAlike(ys, zs)
    ensures AllAlike(xs, zs)
  {
    forall i | 0 <= i < |xs| ensures Alike(xs[i], zs[i]) {
      assert Alike(xs[i], ys[i]) && Alike(ys[i], zs[i]);
    }
  }

  lemma AlikeIsReflexive(xs: seq<Aggregate>)
    ensures AllAlike(xs, xs)
  {
  }

  /** However often a run is stopped amid its puts and tried again, a completed try leaves what one run would have. */
  lemma {:induction false} CrashedRunsAreResumed(worlds: seq<World>, tries: seq<Input>, stops: seq<nat>, spec: Spec,
      k: nat)
    requires spec.Valid() && Crashes(worlds, tries, stops, spec) && k < |tries|
    requires Injective(tries[0].hash) && Fine(worlds[0], tries[0].hash) && RunOnce(worlds[0], spec, tries[0]).1.Ok?
    ensures Fine(worlds[k], tries[0].hash)
    ensures var once, last := RunOnce(worlds[0], spec, tries[0]), RunOnce(worlds[k], spec, tries[k]);
            && last.1.Ok?
            && AllAlike(last.0.aggregates, once.0.aggregates)
            && RecordOf(last.0.checkpoint).Some? && RecordOf(once.0.checkpoint).Some?
            && RecordOf(last.0.checkpoint).value == RecordOf(once.0.checkpoint).value.(updatedAt := tries[k].now)
  {
    hide Injective, Fine, RunOnce, AllAlike, Alike, Spec.Valid, Interrupted, Claims.Decide;
    WindowIsPositive(spec);
    if k == 0 {
      AlikeIsReflexive(RunOnce(worlds[0], spec, tries[0]).0.aggregates);
      RunDates(worlds[0], spec, tries[0]);
    } else {
      CrashedRunsAreResumed(worlds, tries, stops, spec, k - 1);
      CrashedRunIsResumed(worlds[k - 1], spec, tries[k - 1], stops[k - 1], tries[k]);
      AlikeIsTransitive(RunOnce(worlds[k], spec, tries[k]).0.aggregates,
                        RunOnce(worlds[k - 1], spec, tries[k - 1]).0.aggregates,
                        RunOnce(worlds[0], spec, tries[0]).0.aggregates);
    }
  }

  lemma RunDates(world: World, spec: Spec, input: Input)
    requires Injective(input.hash) && spec.Valid() && Fine(world, input.hash) && RunOnce(world, spec, input).1.Ok?
    ensures var r := RecordOf(RunOnce(world, spec, input).0.checkpoint); r.Some? && r.value.updatedAt == input.now
  {
    hide Injective, Fine, Plan, Scan, ScanStart, Pages, Spec.Valid;
    WindowIsPositive(spec);
    RunCompletes(world, spec, input, Read(world, spec, input.watermark).value,
                 Plan(world.aggregates, Read(world, spec, input.watermark).value, JobOf(spec, input)).value);
  }
}
