/**
  Aggregation runs. A run claims, scans from a bucket edge, plans, puts and advances the watermark; this
  module states what complete runs, one after the other, and interrupted runs leave behind.
 */
module Runner {
  import opened Prelude
  import opened Digits
  import opened Recovery
  import opened Events
  import opened Aggregation
  import opened AggregationLaws
  import opened Revisions
  import opened Planning
  import opened Cells
  import opened Paging
  import Claims
  import Checkpoints

  const MAX_PAGES := 10_000

  /** What one spec's runs share: event rows, aggregate rows, and the spec's checkpoint and claim records. */
  datatype World = World(
    events: seq<Event>,
    aggregates: seq<Aggregate>,
    checkpoint: Option<Row<Checkpoints.Checkpoint>>,
    claim: Option<Row<Claims.Claim>>)

  datatype Input = Input(watermark: int, owner: string, now: int, lease: int, ambient: Labels, hash: Hash)

  datatype Report = Report(checkpoint: Checkpoints.Checkpoint, eventsRead: nat, aggregates: seq<Aggregate>,
      replayed: nat)

  function JobOf(spec: Spec, input: Input): Job {
    Job(spec, input.watermark, input.now, input.ambient, input.hash)
  }

  /** From here on events may still arrive after the checkpoint. */
  function LateLimit(spec: Spec, checkpoint: Option<Checkpoints.Checkpoint>): int {
    if checkpoint.None? then spec.initialStart
    else Max(spec.initialStart, checkpoint.value.watermark - spec.allowedLateness)
  }

  /** Where a run's scan begins: the edge of the bucket that late events may still reach. */
  function ScanStart(spec: Spec, checkpoint: Option<Checkpoints.Checkpoint>): int
    requires spec.windowSize > 0
  {
    Bucket(LateLimit(spec, checkpoint), spec.windowSize)
  }

  /** The event query from scan start to watermark, drained page by page, for a run that read `checkpoint`. */
  function ScanResult(events: seq<Event>, checkpoint: Option<Checkpoints.Checkpoint>, spec: Spec, watermark: int)
    : Result<seq<Event>>
    requires spec.windowSize > 0 && spec.pageSize > 0
  {
    if checkpoint.Some? && watermark < checkpoint.value.watermark then Err(InvalidUsage)
    else if ScanStart(spec, checkpoint) >= watermark then Err(InvalidUsage)
    else
      var scan := Scan(events, spec, ScanStart(spec, checkpoint), watermark);
      if Pages(|scan|, spec.pageSize) > MAX_PAGES then Err(InvalidUsageResult) else Ok(scan)
  }

  function Read(world: World, spec: Spec, watermark: int): Result<seq<Event>>
    requires spec.windowSize > 0 && spec.pageSize > 0
  {
    ScanResult(world.events, RecordOf(world.checkpoint), spec, watermark)
  }

  /** Reading is what draining the pages of a faithful engine gives. */
  lemma ReadIsPaged(world: World, spec: Spec, watermark: int)
    requires spec.windowSize > 0 && spec.pageSize > 0
    requires ScanStart(spec, RecordOf(world.checkpoint)) < watermark
    requires RecordOf(world.checkpoint).Some? ==> RecordOf(world.checkpoint).value.watermark <= watermark
    requires DigitCount(|Scan(world.events, spec, ScanStart(spec, RecordOf(world.checkpoint)), watermark)|) <= 4096
    ensures var scan := Scan(world.events, spec, ScanStart(spec, RecordOf(world.checkpoint)), watermark);
            Read(world, spec, watermark) == Drained(Pager(scan, spec.pageSize), [], None, spec.pageSize, MAX_PAGES).1
  {
    hide Drained, Pager, Scan, ScanStart, DigitCount;
    var scan := Scan(world.events, spec, ScanStart(spec, RecordOf(world.checkpoint)), watermark);
    PageSizeIsInvisible(scan, spec.pageSize, MAX_PAGES);
    PagesIsCeiling(|scan|, spec.pageSize);
  }

  function Expected(checkpoint: Option<Checkpoints.Checkpoint>): int {
    if checkpoint.None? then 0 else checkpoint.value.revision
  }

  /** Put the plan, then advance. Versions put before a failure stay. */
  function Finished(world: World, input: Input, eventsRead: nat, plan: seq<Aggregate>): (World, Result<Report>) {
    var (aggregates, put) := PutAll(world.aggregates, plan, input.hash);
    var written := world.(aggregates := aggregates);
    match put
    case Err(error) => (written, Err(error))
    case Ok(replayed) =>
      var current := RecordOf(world.checkpoint);
      match Checkpoints.Decide(Checkpoints.Advance(input.watermark, Expected(current), input.now), current)
      case Err(error) => (written, Err(error))
      case Ok(updated) =>
        (written.(checkpoint := WriteState(world.checkpoint, updated, world.checkpoint, 1)),
         Ok(Report(updated, eventsRead, plan, replayed)))
  }

  /** The run between claim and release. */
  function Body(world: World, spec: Spec, input: Input): (World, Result<Report>)
    requires spec.windowSize > 0 && spec.pageSize > 0
  {
    match Read(world, spec, input.watermark)
    case Err(error) => (world, Err(error))
    case Ok(scan) =>
      match Plan(world.aggregates, scan, JobOf(spec, input))
      case Err(error) => (world, Err(error))
      case Ok(plan) => Finished(world, input, |scan|, plan)
  }

  /** Release the claim, whatever the outcome; a failing release can only replace a success. */
  function Released(world: World, claim: Claims.Claim, now: int, r: Result<Report>): (World, Result<Report>) {
    match Claims.Decide(Claims.Release(claim, now), RecordOf(world.claim))
    case Err(error) => (world, if r.Ok? then Err(error) else r)
    case Ok(released) => (world.(claim := WriteState(world.claim, released, world.claim, 1)), r)
  }

  /** `AggregationRunner.run`, nobody else writing meanwhile. */
  function RunOnce(world: World, spec: Spec, input: Input): (World, Result<Report>)
    requires spec.windowSize > 0 && spec.pageSize > 0
  {
    if input.watermark <= spec.initialStart then (world, Err(InvalidUsage))
    else
      match Claims.Decide(Claims.Acquire(input.owner, input.now + input.lease, input.now), RecordOf(world.claim))
      case Err(error) => (world, Err(error))
      case Ok(claim) =>
        var (after, r) := Body(world.(claim := WriteState(world.claim, claim, world.claim, 1)), spec, input);
        Released(after, claim, input.now, r)
  }

  // ---- What a run does to its claim ----

  /** Whether a run gets the claim: its lease is positive, and no other owner's is unexpired. */
  predicate Claimable(claim: Option<Claims.Claim>, input: Input) {
    input.lease > 0 && (claim.None? || claim.value.expiresAt <= input.now || claim.value.owner == input.owner)
  }

  /** However a run ends that got the claim: the claim has expired by then, two revisions on, for anybody to take. */
  lemma ClaimIsReleased(world: World, spec: Spec, input: Input)
    requires spec.windowSize > 0 && spec.pageSize > 0 && spec.initialStart < input.watermark
    requires Claimable(RecordOf(world.claim), input)
    ensures var before, claim := RecordOf(world.claim), RecordOf(RunOnce(world, spec, input).0.claim);
            && claim.Some? && claim.value.owner == input.owner
            && claim.value.expiresAt == claim.value.updatedAt == input.now
            && claim.value.revision == (if before.None? then 0 else before.value.revision) + 2
            && forall owner, expiresAt :: expiresAt > input.now ==>
                 Claims.Decide(Claims.Acquire(owner, expiresAt, input.now), claim).Ok?
  {
    hide Read, Plan, PutAll, Checkpoints.Decide;
  }

  /** A run that cannot start, or does not get the claim, changes nothing and says why. */
  lemma RefusedRunChangesNothing(world: World, spec: Spec, input: Input)
    requires spec.windowSize > 0 && spec.pageSize > 0
    requires input.watermark <= spec.initialStart || !Claimable(RecordOf(world.claim), input)
    ensures RunOnce(world, spec, input)
            == (world, Err(if input.watermark <= spec.initialStart || input.lease <= 0 then InvalidUsage
                           else ClaimUnavailable))
  {
    hide Body;
  }

  /** The outcome of a run that got the claim is that of its body; the release never fails. */
  lemma RunAnswersBody(world: World, spec: Spec, input: Input)
    requires spec.windowSize > 0 && spec.pageSize > 0 && spec.initialStart < input.watermark
    requires Claimable(RecordOf(world.claim), input)
    ensures var (after, r) := Body(world, spec, input);
            && RunOnce(world, spec, input).1 == r
            && RunOnce(world, spec, input).0 == after.(claim := RunOnce(world, spec, input).0.claim)
  {
    hide Plan, PutAll, Checkpoints.Decide, ScanResult;
  }

  // ---- What a world keeps ----

  ghost predicate Fine(world: World, hash: Hash) {
    AllMetered(world.events) && Chained(world.aggregates, hash)
  }

  /** Everything the spec is about: the matching events from the first bucket up to the watermark. */
  function FullScan(events: seq<Event>, spec: Spec, watermark: int): seq<Event>
    requires spec.windowSize > 0
  {
    Scan(events, spec, ScanStart(spec, None), watermark)
  }

  /** The group's current version has exactly the sources that a complete scan finds. */
  ghost predicate CurrentFor(aggregates: seq<Aggregate>, key: GroupKey, members: seq<Event>, spec: Spec, hash: Hash) {
    && Current(aggregates, key, spec, hash).Some?
    && SetFingerprint(members, hash) == Ok(Current(aggregates, key, spec, hash).value.sourceFingerprint)
  }

  /** Every group of the complete scan up to the watermark is current. */
  ghost predicate UpToDate(aggregates: seq<Aggregate>, events: seq<Event>, spec: Spec, watermark: int, hash: Hash)
    requires spec.windowSize > 0
  {
    forall key :: key in SortedGroups(FullScan(events, spec, watermark), spec, watermark) ==>
      CurrentFor(aggregates, key, Members(FullScan(events, spec, watermark), key, spec, watermark), spec, hash)
  }

  // ---- A successful run ----

  /** The scan, its groups and the plan of a successful run. */
  lemma RunParts(world: World, spec: Spec, input: Input) returns (scan: seq<Event>, plan: seq<Aggregate>)
    requires Injective(input.hash) && spec.Valid() && Fine(world, input.hash)
    requires RunOnce(world, spec, input).1.Ok?
    ensures scan == Scan(world.events, spec, ScanStart(spec, RecordOf(world.checkpoint)), input.watermark)
    ensures Ready(world.aggregates, plan, ScannedGroups(scan, JobOf(spec, input)), scan, JobOf(spec, input))
    ensures var after := RunOnce(world, spec, input).0;
            && after.events == world.events
            && after.aggregates == world.aggregates + Fresh(world.aggregates, plan)
            && RecordOf(after.checkpoint).Some? && RecordOf(after.checkpoint).value.watermark == input.watermark
            && (RecordOf(world.checkpoint).Some? ==> RecordOf(world.checkpoint).value.watermark <= input.watermark)
            && ScanStart(spec, RecordOf(world.checkpoint)) < input.watermark
            && spec.initialStart < input.watermark
  {
    hide Injective, Chained, AllMetered, Ready, Plan, PutAll, Scan, ScanStart, Fresh, ScannedGroups;
    var job := JobOf(spec, input);
    scan := Read(world, spec, input.watermark).value;
    plan := Plan(world.aggregates, scan, job).value;
    ScanIsReady(world.aggregates, world.events, scan, plan, ScanStart(spec, RecordOf(world.checkpoint)), job);
    PutAllAppendsFresh(world.aggregates, plan, ScannedGroups(scan, job), scan, job);
  }

  lemma ScanIsReady(rows: seq<Aggregate>, events: seq<Event>, scan: seq<Event>, plan: seq<Aggregate>, from: int,
      job: Job)
    requires Injective(job.hash) && job.spec.Valid() && Chained(rows, job.hash) && AllMetered(events)
    requires scan == Scan(events, job.spec, from, job.watermark) && Plan(rows, scan, job) == Ok(plan)
    ensures Ready(rows, plan, ScannedGroups(scan, job), scan, job)
  {
    hide Injective, Chained, AllMetered, Plan, Scan, SortedGroups, Planned, Members, Current, Spec.Valid;
    WindowIsPositive(job.spec);
    ScanHolds(events, job.spec, from, job.watermark);
    PlanMeaning(rows, scan, job);
    SortedGroupsMeaning(scan, job.spec, job.watermark);
  }

  // ---- Incremental runs amount to one ----

  /** Whatever was stored meanwhile starts inside the next scan, or before the first bucket, where no scan looks. */
  ghost predicate ArrivesInTime(before: seq<Event>, after: seq<Event>, spec: Spec, from: int)
    requires spec.windowSize > 0
  {
    && before <= after
    && forall i :: |before| <= i < |after| && Matches(after[i], spec) && ScanStart(spec, None) <= after[i].start ==>
         from <= after[i].start
  }

  /** An event no later than the allowed lateness is in time, and so is every event before the first run. */
  lemma AllowedLatenessIsInTime(before: World, after: seq<Event>, spec: Spec)
    requires spec.Valid() && before.events <= after
    requires RecordOf(before.checkpoint).Some? ==>
               forall i :: |before.events| <= i < |after| && Matches(after[i], spec) ==>
                 RecordOf(before.checkpoint).value.watermark - spec.allowedLateness <= after[i].start
    ensures ArrivesInTime(before.events, after, spec, ScanStart(spec, RecordOf(before.checkpoint)))
  {
    hide Matches, Bucket;
    var checkpoint := RecordOf(before.checkpoint);
    var start := LateLimit(spec, checkpoint);
    BucketAligned(start, spec.windowSize);
  }

  /** The scan starts at the last bucket edge that leaves out no event still allowed to arrive. */
  lemma ScanStartExactly(spec: Spec, checkpoint: Option<Checkpoints.Checkpoint>, edge: int)
    requires spec.Valid() && edge % spec.windowSize == 0
    ensures ScanStart(spec, checkpoint) % spec.windowSize == 0
    ensures edge <= ScanStart(spec, checkpoint)
            <==> forall t :: MayArrive(spec, checkpoint, t) ==> edge <= t
  {
    hide Bucket;
    var limit := LateLimit(spec, checkpoint);
    BucketAligned(limit, spec.windowSize);
    if edge > ScanStart(spec, checkpoint) {
      NextEdge(ScanStart(spec, checkpoint), edge, spec.windowSize);
      assert MayArrive(spec, checkpoint, limit);
    }
  }

  /** A start that is neither before the spec's nor later than the allowed lateness behind the checkpoint. */
  predicate MayArrive(spec: Spec, checkpoint: Option<Checkpoints.Checkpoint>, t: int) {
    && spec.initialStart <= t
    && (checkpoint.Some? ==> checkpoint.value.watermark - spec.allowedLateness <= t)
  }

  lemma NextEdge(x: int, y: int, size: int)
    requires size > 0 && x % size == 0 && y % size == 0 && x < y
    ensures x + size <= y
  {
    var p, q := x / size, y / size;
    assert x == p * size && y == q * size;
    if q <= p {
      Scaled(q, p, size);
    } else {
      Scaled(p + 1, q, size);
      OneMore(p, size);
    }
  }

  lemma Scaled(a: int, b: int, size: int)
    requires size > 0 && a <= b
    ensures a * size <= b * size
  {
  }

  lemma OneMore(p: int, size: int)
    ensures (p + 1) * size == p * size + size
  {
  }

  lemma ScanStartFacts(spec: Spec, checkpoint: Option<Checkpoints.Checkpoint>)
    requires spec.Valid()
    ensures ScanStart(spec, checkpoint) % spec.windowSize == 0
    ensures ScanStart(spec, None) <= ScanStart(spec, checkpoint)
    ensures checkpoint.Some? && spec.initialStart < checkpoint.value.watermark ==>
              ScanStart(spec, checkpoint) <= checkpoint.value.watermark
  {
    hide Bucket;
    var start := LateLimit(spec, checkpoint);
    BucketAligned(start, spec.windowSize);
    BucketAligned(spec.initialStart, spec.windowSize);
    BucketMonotone(spec.initialStart, start, spec.windowSize);
  }

  lemma BucketMonotone(a: int, b: int, size: int)
    requires size > 0 && a <= b
    ensures Bucket(a, size) <= Bucket(b, size)
  {
    hide Bucket;
    BucketAligned(a, size);
    BucketAligned(b, size);
    if Bucket(b, size) < Bucket(a, size) {
      NextEdge(Bucket(b, size), Bucket(a, size), size);
    }
  }

  lemma KeyIsBucket(e: Event, spec: Spec)
    requires spec.windowSize > 0
    ensures var k := KeyOf(e, spec).start;
            k % spec.windowSize == 0 && k <= e.start < k + spec.windowSize
  {
    hide Bucket, Select;
    BucketAligned(e.start, spec.windowSize);
  }

  lemma GroupHasMember(events: seq<Event>, key: GroupKey, spec: Spec, watermark: int) returns (e: Event)
    requires spec.windowSize > 0 && key in SortedGroups(events, spec, watermark)
    ensures e in multiset(events) && Grouped(e, key, spec, watermark)
  {
    hide SortedGroups, Grouped;
    SortedGroupsMeaning(events, spec, watermark);
    var i :| 0 <= i < |events| && Grouped(events[i], key, spec, watermark);
    e := events[i];
  }

  lemma MemberMakesGroup(events: seq<Event>, key: GroupKey, spec: Spec, watermark: int, e: Event)
    requires spec.windowSize > 0 && e in multiset(events) && Grouped(e, key, spec, watermark)
    ensures key in SortedGroups(events, spec, watermark)
  {
    hide SortedGroups, Grouped;
    SortedGroupsMeaning(events, spec, watermark);
    var i :| 0 <= i < |events| && events[i] == e;
  }

  /** The groups of a scan from a bucket edge are those of the rows it covers. */
  lemma ScannedGroup(rows: seq<Event>, spec: Spec, from: int, to: int, key: GroupKey)
    requires spec.windowSize > 0
    ensures key in SortedGroups(Scan(rows, spec, from, to), spec, to)
            <==> exists e :: e in rows && Visible(e, spec, from, to) && KeyOf(e, spec) == key
  {
    hide SortedGroups, KeyOf, Scan, Matches;
    var scan := Scan(rows, spec, from, to);
    if key in SortedGroups(scan, spec, to) {
      var e := GroupHasMember(scan, key, spec, to);
      ScanMeaning(rows, spec, from, to, e);
      assert e in multiset(rows);
    }
    if e :| e in rows && Visible(e, spec, from, to) && KeyOf(e, spec) == key {
      assert e in multiset(rows);
      ScanMeaning(rows, spec, from, to, e);
      MemberMakesGroup(scan, key, spec, to, e);
    }
  }

  /** A scanned group is complete: the scan starts at a bucket edge, so it cuts no group in two. */
  lemma ScannedGroupIsComplete(events: seq<Event>, spec: Spec, from: int, to: int, key: GroupKey)
    requires spec.windowSize > 0 && ScanStart(spec, None) <= from <= key.start
    ensures multiset(Members(Scan(events, spec, from, to), key, spec, to))
            == multiset(Members(FullScan(events, spec, to), key, spec, to))
  {
    hide Scan, Members, KeyOf, Matches, ScanStart;
    forall e
      ensures multiset(Members(Scan(events, spec, from, to), key, spec, to))[e]
              == multiset(Members(FullScan(events, spec, to), key, spec, to))[e]
    {
      ScannedMembers(events, spec, from, to, key, e);
      ScannedMembers(events, spec, ScanStart(spec, None), to, key, e);
      KeyIsBucket(e, spec);
    }
  }

  lemma LateArrival(before: seq<Event>, after: seq<Event>, spec: Spec, from: int, e: Event)
    requires spec.windowSize > 0 && ArrivesInTime(before, after, spec, from)
    requires Matches(e, spec) && ScanStart(spec, None) <= e.start < from
    ensures multiset(before)[e] == multiset(after)[e]
  {
    hide Matches, ScanStart;
    var arrived := after[|before|..];
    assert after == before + arrived;
    forall i | 0 <= i < |arrived| ensures arrived[i] != e {
      assert arrived[i] == after[|before| + i];
    }
    assert e !in arrived && multiset(arrived)[e] == 0;
  }

  /** A group before the scan is finished: it has the members it had when the last run was over. */
  lemma PassedGroupIsUnchanged(before: seq<Event>, after: seq<Event>, spec: Spec, from: int, last: int, next: int,
      key: GroupKey)
    requires spec.windowSize > 0 && from % spec.windowSize == 0 && key.start < from <= last && from <= next
    requires ArrivesInTime(before, after, spec, from)
    ensures multiset(Members(FullScan(before, spec, last), key, spec, last))
            == multiset(Members(FullScan(after, spec, next), key, spec, next))
  {
    hide Scan, Members, KeyOf, Matches, ScanStart, ArrivesInTime;
    forall e
      ensures multiset(Members(FullScan(before, spec, last), key, spec, last))[e]
              == multiset(Members(FullScan(after, spec, next), key, spec, next))[e]
    {
      ScannedMembers(before, spec, ScanStart(spec, None), last, key, e);
      ScannedMembers(after, spec, ScanStart(spec, None), next, key, e);
      KeyIsBucket(e, spec);
      if KeyOf(e, spec) == key && Matches(e, spec) && ScanStart(spec, None) <= e.start {
        NextEdge(key.start, from, spec.windowSize);
        LateArrival(before, after, spec, from, e);
      }
    }
  }

  lemma SameMembersSameGroup(xs: seq<Event>, a: int, ys: seq<Event>, b: int, key: GroupKey, spec: Spec)
    requires spec.windowSize > 0 && key in SortedGroups(xs, spec, a)
    requires multiset(Members(xs, key, spec, a)) == multiset(Members(ys, key, spec, b))
    ensures key in SortedGroups(ys, spec, b)
  {
    hide SortedGroups, Members, Grouped;
    var e := GroupHasMember(xs, key, spec, a);
    MembersMeaning(xs, key, spec, a, e);
    MembersMeaning(ys, key, spec, b, e);
    MemberMakesGroup(ys, key, spec, b, e);
  }

  lemma CurrentForSame(aggregates: seq<Aggregate>, key: GroupKey, xs: seq<Event>, ys: seq<Event>, spec: Spec,
      hash: Hash)
    requires multiset(xs) == multiset(ys) && CurrentFor(aggregates, key, xs, spec, hash)
    ensures CurrentFor(aggregates, key, ys, spec, hash)
  {
    hide SetFingerprint, Current;
    SetFingerprintPermuted(xs, ys, hash);
  }

  /** Each scanned group is current after the puts. */
  lemma ScannedIsCurrent(rows: seq<Aggregate>, plan: seq<Aggregate>, scan: seq<Event>, job: Job, key: GroupKey)
    requires job.spec.windowSize > 0
    requires Ready(rows, plan, ScannedGroups(scan, job), scan, job) && key in ScannedGroups(scan, job)
    ensures CurrentFor(rows + Fresh(rows, plan), key, Members(scan, key, job.spec, job.watermark), job.spec, job.hash)
  {
    hide Injective, Chained, AllMetered, PlanFor, Spec.Valid, Members, SetFingerprint, Fresh, DealHolds, FindVersion,
        AggregateId, Current, SortedGroups;
    var keys := ScannedGroups(scan, job);
    var i :| 0 <= i < |keys| && keys[i] == key;
    PlannedAt(rows, plan, keys, scan, job, i);
    PlannedBecomesCurrent(rows, plan, keys, scan, job, i);
  }

  /** The last run's outcome, if there was one: everything up to its watermark is current. */
  ghost predicate Settled(world: World, spec: Spec, hash: Hash)
    requires spec.windowSize > 0
  {
    var checkpoint := RecordOf(world.checkpoint);
    checkpoint.Some? ==>
      && spec.initialStart < checkpoint.value.watermark
      && UpToDate(world.aggregates, world.events, spec, checkpoint.value.watermark, hash)
  }

  lemma ScannedGroupIsCurrent(rows: seq<Aggregate>, events: seq<Event>, from: int, job: Job, scan: seq<Event>,
      plan: seq<Aggregate>, key: GroupKey, e: Event)
    requires job.spec.windowSize > 0 && ScanStart(job.spec, None) <= from <= key.start <= e.start
    requires scan == Scan(events, job.spec, from, job.watermark)
    requires Ready(rows, plan, ScannedGroups(scan, job), scan, job)
    requires e in events && Visible(e, job.spec, ScanStart(job.spec, None), job.watermark) && KeyOf(e, job.spec) == key
    ensures CurrentFor(rows + Fresh(rows, plan), key,
            Members(FullScan(events, job.spec, job.watermark), key, job.spec, job.watermark), job.spec, job.hash)
  {
    hide Ready, Scan, ScanStart, Fresh, Members, CurrentFor, SortedGroups, KeyOf;
    var spec, to := job.spec, job.watermark;
    assert Visible(e, spec, from, to);
    ScannedGroup(events, spec, from, to, key);
    ScannedIsCurrent(rows, plan, scan, job, key);
    ScannedGroupIsComplete(events, spec, from, to, key);
    CurrentForSame(rows + Fresh(rows, plan), key, Members(scan, key, spec, to),
        Members(FullScan(events, spec, to), key, spec, to), spec, job.hash);
  }

  /**
    Every group that no later scan reaches is current. This much survives interrupted runs: their puts are for
    groups that will be scanned again.
   */
  ghost predicate PassedCurrent(world: World, spec: Spec, hash: Hash)
    requires spec.windowSize > 0
  {
    var checkpoint := RecordOf(world.checkpoint);
    checkpoint.Some? ==>
      && spec.initialStart < checkpoint.value.watermark
      && forall key ::
           key in SortedGroups(FullScan(world.events, spec, checkpoint.value.watermark), spec,
               checkpoint.value.watermark)
           && key.start < ScanStart(spec, checkpoint) ==>
             PassedGroup(world, spec, checkpoint.value.watermark, key, hash)
  }

  ghost predicate PassedGroup(world: World, spec: Spec, watermark: int, key: GroupKey, hash: Hash)
    requires spec.windowSize > 0
  {
    CurrentFor(world.aggregates, key, Members(FullScan(world.events, spec, watermark), key, spec, watermark), spec,
        hash)
  }

  lemma GroupAfterRun(world: World, spec: Spec, input: Input, key: GroupKey)
    requires Injective(input.hash) && spec.Valid() && Fine(world, input.hash) && PassedCurrent(world, spec, input.hash)
    requires RunOnce(world, spec, input).1.Ok?
    requires key in SortedGroups(FullScan(world.events, spec, input.watermark), spec, input.watermark)
    ensures PassedGroup(RunOnce(world, spec, input).0, spec, input.watermark, key, input.hash)
  {
    hide Injective, Fine, PassedCurrent, Ready, RunOnce, Scan, ScanStart, Fresh, Members, CurrentFor, SortedGroups,
        Spec.Valid, KeyOf, RecordOf;
    WindowIsPositive(spec);
    var checkpoint := RecordOf(world.checkpoint);
    var from, to := ScanStart(spec, checkpoint), input.watermark;
    var scan, plan := RunParts(world, spec, input);
    ScanStartFacts(spec, checkpoint);
    var e := ScannedWitness(world.events, spec, ScanStart(spec, None), to, key);
    KeyIsBucket(e, spec);
    if from <= key.start {
      ScannedGroupIsCurrent(world.aggregates, world.events, from, JobOf(spec, input), scan, plan, key, e);
    } else {
      FirstBucketIsLowest(spec, e, key);
      PassedGroupStaysCurrent(world, spec, input, scan, plan, key);
    }
  }

  /** No visible event's bucket starts before the first scan does. */
  lemma FirstBucketIsLowest(spec: Spec, e: Event, key: GroupKey)
    requires spec.Valid() && KeyOf(e, spec) == key && ScanStart(spec, None) <= e.start
    ensures ScanStart(spec, None) <= key.start
  {
    hide ScanStart, Select;
    ScanStartFacts(spec, None);
    BucketContains(ScanStart(spec, None), spec.windowSize, ScanStart(spec, None));
    BucketMonotone(ScanStart(spec, None), e.start, spec.windowSize);
  }

  lemma ScannedWitness(rows: seq<Event>, spec: Spec, from: int, to: int, key: GroupKey) returns (e: Event)
    requires spec.windowSize > 0 && key in SortedGroups(Scan(rows, spec, from, to), spec, to)
    ensures e in rows && Visible(e, spec, from, to) && KeyOf(e, spec) == key
  {
    hide SortedGroups, Scan, KeyOf, Visible;
    ScannedGroup(rows, spec, from, to, key);
    e :| e in rows && Visible(e, spec, from, to) && KeyOf(e, spec) == key;
  }

  /** A group before the scan has no part in the plan. */
  lemma PassedGroupIsNotScanned(events: seq<Event>, spec: Spec, from: int, to: int, key: GroupKey)
    requires spec.windowSize > 0 && from % spec.windowSize == 0 && key.start < from
    ensures key !in SortedGroups(Scan(events, spec, from, to), spec, to)
  {
    hide Scan, SortedGroups, KeyOf;
    if key in SortedGroups(Scan(events, spec, from, to), spec, to) {
      var e := ScannedWitness(events, spec, from, to, key);
      KeyIsBucket(e, spec);
      NextEdge(key.start, from, spec.windowSize);
    }
  }

  lemma PassedGroupStaysCurrent(world: World, spec: Spec, input: Input, scan: seq<Event>, plan: seq<Aggregate>,
      key: GroupKey)
    requires spec.Valid() && PassedCurrent(world, spec, input.hash)
    requires var from := ScanStart(spec, RecordOf(world.checkpoint));
             && key.start < from <= input.watermark && ScanStart(spec, None) <= key.start
             && scan == Scan(world.events, spec, from, input.watermark)
    requires Ready(world.aggregates, plan, ScannedGroups(scan, JobOf(spec, input)), scan, JobOf(spec, input))
    requires key in SortedGroups(FullScan(world.events, spec, input.watermark), spec, input.watermark)
    ensures CurrentFor(world.aggregates + Fresh(world.aggregates, plan), key,
                       Members(FullScan(world.events, spec, input.watermark), key, spec, input.watermark), spec,
                           input.hash)
  {
    hide Injective, Chained, AllMetered, Ready, Scan, ScanStart, Fresh, Members, SetFingerprint, Current,
        SortedGroups, Spec.Valid, KeyOf;
    WindowIsPositive(spec);
    var checkpoint := RecordOf(world.checkpoint);
    var from, to := ScanStart(spec, checkpoint), input.watermark;
    var last := checkpoint.value.watermark;
    var events := world.events;
    ScanStartFacts(spec, checkpoint);
    PassedGroupIsUnchanged(events, events, spec, from, last, to, key);
    SameMembersSameGroup(FullScan(events, spec, to), to, FullScan(events, spec, last), last, key, spec);
    assert PassedGroup(world, spec, last, key, input.hash);
    PassedGroupIsNotScanned(events, spec, from, to, key);
    OthersKeepCurrent(world.aggregates, plan, ScannedGroups(scan, JobOf(spec, input)), scan, JobOf(spec, input), key);
    CurrentForSame(world.aggregates, key, Members(FullScan(events, spec, last), key, spec, last),
                   Members(FullScan(events, spec, to), key, spec, to), spec, input.hash);
  }
}
