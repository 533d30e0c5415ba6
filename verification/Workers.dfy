/**
  Aggregation runs step by step, several at once: each acquires the shared claim, reads, puts, advances the shared
  checkpoint and releases, and between any two of its steps other runs, arriving events and time may move on.
  Single acquisitions, advances and releases are atomic here; that their reads and writes interleave safely is the
  subject of the conditional state records.
 */
module Workers {
  import opened Prelude
  import opened Orders
  import opened Digits
  import opened Decimals
  import opened Recovery
  import opened Events
  import opened Totals
  import opened Aggregation
  import opened AggregationLaws
  import opened Revisions
  import opened Planning
  import opened Cells
  import opened Paging
  import opened Runner
  import opened Refinement
  import Claims
  import Checkpoints

  /** Where a run is; `seen` counts the event rows its scan could see. */
  datatype Worker =
    | Claimed(input: Input, claim: Claims.Claim)
    | Positioned(input: Input, claim: Claims.Claim, checkpoint: Option<Checkpoints.Checkpoint>)
    | Looking(input: Input, claim: Claims.Claim, checkpoint: Option<Checkpoints.Checkpoint>, seen: nat,
              scan: seq<Event>, provisional: seq<Aggregate>, previous: map<string, Aggregate>, i: nat)
    | Writing(input: Input, claim: Claims.Claim, checkpoint: Option<Checkpoints.Checkpoint>, seen: nat,
              scan: seq<Event>, plan: seq<Aggregate>, i: nat, replayed: nat)
    | Releasing(input: Input, claim: Claims.Claim, result: Result<Report>)
    | Done(input: Input, claim: Claims.Claim, result: Result<Report>)

  /** One step of one run. */
  function Move(world: World, w: Worker, spec: Spec): (World, Worker)
    requires spec.windowSize > 0 && spec.pageSize > 0 && !w.Done?
  {
    match w
    case Claimed(input, claim) => (world, Positioned(input, claim, RecordOf(world.checkpoint)))
    case Positioned(input, claim, checkpoint) => (world, AfterScan(world.events, w, spec))
    case Looking(input, claim, checkpoint, seen, scan, provisional, previous, i) =>
      if i < |provisional| then
        (world, w.(previous := Looked(world.aggregates, provisional[i], previous, spec.scope), i := i + 1))
      else (world, AfterReads(w, spec))
    case Writing(input, claim, checkpoint, seen, scan, plan, i, replayed) =>
      if i < |plan| then
        var (rows, put) := PutAggregate(world.aggregates, plan[i], input.hash);
        (world.(aggregates := rows),
         match put
         case Ok((_, again)) => w.(i := i + 1, replayed := replayed + if again then 1 else 0)
         case Err(error) => Releasing(input, claim, Err(error)))
      else AfterAdvance(world, w)
    case Releasing(input, claim, result) =>
      var (after, r) := Released(world, claim, input.now, result);
      (after, Done(input, claim, r))
  }

  function AfterScan(events: seq<Event>, w: Worker, spec: Spec): Worker
    requires spec.windowSize > 0 && spec.pageSize > 0 && w.Positioned?
  {
    match ScanResult(events, w.checkpoint, spec, w.input.watermark)
    case Err(error) => Releasing(w.input, w.claim, Err(error))
    case Ok(scan) =>
      match AggregateAll(scan, map[], JobOf(spec, w.input))
      case Err(error) => Releasing(w.input, w.claim, Err(error))
      case Ok(provisional) => Looking(w.input, w.claim, w.checkpoint, |events|, scan, provisional, map[], 0)
  }

  /** One latest-version lookup. */
  function Looked(rows: seq<Aggregate>, a: Aggregate, previous: map<string, Aggregate>,
      scope: Labels): map<string, Aggregate> {
    match Latest(rows, scope, a.aggregateId, a.start, a.end)
    case None => previous
    case Some(current) => previous[a.aggregateId := current]
  }

  function AfterReads(w: Worker, spec: Spec): Worker
    requires spec.windowSize > 0 && w.Looking?
  {
    match AggregateAll(w.scan, w.previous, JobOf(spec, w.input))
    case Err(error) => Releasing(w.input, w.claim, Err(error))
    case Ok(plan) => Writing(w.input, w.claim, w.checkpoint, w.seen, w.scan, plan, 0, 0)
  }

  function AfterAdvance(world: World, w: Worker): (World, Worker)
    requires w.Writing?
  {
    var advance := Checkpoints.Advance(w.input.watermark, Expected(w.checkpoint), w.input.now);
    match Checkpoints.Decide(advance, RecordOf(world.checkpoint))
    case Err(error) => (world, Releasing(w.input, w.claim, Err(error)))
    case Ok(updated) =>
      (world.(checkpoint := WriteState(world.checkpoint, updated, world.checkpoint, 1)),
       Releasing(w.input, w.claim, Ok(Report(updated, |w.scan|, w.plan, w.replayed))))
  }

  // ---- A run that nobody interrupts ----

  function Stage(w: Worker): nat {
    match w
    case Claimed(_, _) => 5
    case Positioned(_, _, _) => 4
    case Looking(_, _, _, _, _, _, _, _) => 3
    case Writing(_, _, _, _, _, _, _, _) => 2
    case Releasing(_, _, _) => 1
    case Done(_, _, _) => 0
  }

  function Left(w: Worker): int {
    match w
    case Looking(_, _, _, _, _, provisional, _, i) => |provisional| - i
    case Writing(_, _, _, _, _, plan, i, _) => |plan| - i
    case _ => 0
  }

  /** Every step leaves less to do. */
  lemma MoveProgresses(world: World, w: Worker, spec: Spec)
    requires spec.windowSize > 0 && spec.pageSize > 0 && !w.Done?
    ensures var next := Move(world, w, spec).1;
            Stage(next) < Stage(w) || (Stage(next) == Stage(w) && Left(next) < Left(w) && Left(w) > 0)
  {
    hide AggregateAll, ScanResult, PutAggregate, Released, Looked, AfterAdvance;
    match w {
      case Writing(_, _, _, _, _, plan, i, _) =>
        if i >= |plan| {
          AdvanceReleases(world, w);
        }
      case _ =>
    }
  }

  lemma AdvanceReleases(world: World, w: Worker)
    requires w.Writing?
    ensures AfterAdvance(world, w).1.Releasing?
  {
  }

  /** All remaining steps of a run in one go. */
  function Alone(world: World, w: Worker, spec: Spec): (World, Result<Report>)
    requires spec.windowSize > 0 && spec.pageSize > 0
    decreases Stage(w), Left(w)
  {
    if w.Done? then (world, w.result)
    else
      hide Move;
      MoveProgresses(world, w, spec);
      var (after, next) := Move(world, w, spec);
      Alone(after, next, spec)
  }

  lemma AloneReleases(world: World, w: Worker, spec: Spec)
    requires spec.windowSize > 0 && spec.pageSize > 0 && w.Releasing?
    ensures Alone(world, w, spec) == Released(world, w.claim, w.input.now, w.result)
  {
    hide Released;
  }

  lemma AloneStep(world: World, w: Worker, spec: Spec)
    requires spec.windowSize > 0 && spec.pageSize > 0 && !w.Done?
    ensures Alone(world, w, spec) == Alone(Move(world, w, spec).0, Move(world, w, spec).1, spec)
  {
    hide Move;
  }

  /** The put loop from its `i`-th version on, after `base` took the first `i`. */
  lemma {:induction false} AloneWrites(base: World, world: World, w: Worker, spec: Spec)
    requires spec.windowSize > 0 && spec.pageSize > 0 && w.Writing? && w.i <= |w.plan|
    requires PutAll(base.aggregates, w.plan[..w.i], w.input.hash) == (world.aggregates, Ok(w.replayed))
    requires world == base.(aggregates := world.aggregates) && w.checkpoint == RecordOf(base.checkpoint)
    ensures var (after, r) := Finished(base, w.input, |w.scan|, w.plan);
            Alone(world, w, spec) == Released(after, w.claim, w.input.now, r)
    decreases |w.plan| - w.i
  {
    hide PutAggregate, Released, Alone;
    AloneStep(world, w, spec);
    var (next, step) := Move(world, w, spec);
    if w.i < |w.plan| {
      assert w.plan[..w.i + 1][..w.i] == w.plan[..w.i];
      if step.Writing? {
        AloneWrites(base, next, step, spec);
      } else {
        AloneReleases(next, step, spec);
        StoppedPuts(base.aggregates, w.plan, w.i + 1, w.input.hash);
      }
    } else {
      assert w.plan[..w.i] == w.plan;
      AloneReleases(next, step, spec);
    }
  }

  lemma AloneWritesFromStart(world: World, w: Worker, spec: Spec)
    requires spec.windowSize > 0 && spec.pageSize > 0 && w.Writing? && w.i == 0 && w.replayed == 0
    requires w.checkpoint == RecordOf(world.checkpoint)
    ensures var (after, r) := Finished(world, w.input, |w.scan|, w.plan);
            Alone(world, w, spec) == Released(after, w.claim, w.input.now, r)
  {
    hide Released, Alone, Finished;
    assert w.plan[..0] == [];
    AloneWrites(world, world, w, spec);
  }

  /** The lookup loop from its `i`-th version on. */
  lemma {:induction false} AloneReads(world: World, w: Worker, spec: Spec)
    requires spec.windowSize > 0 && spec.pageSize > 0 && w.Looking? && w.i <= |w.provisional|
    requires w.previous == PreviousOf(world.aggregates, w.provisional[..w.i], spec.scope)
    requires AggregateAll(w.scan, map[], JobOf(spec, w.input)) == Ok(w.provisional)
    requires w.checkpoint == RecordOf(world.checkpoint)
    ensures var plan := Plan(world.aggregates, w.scan, JobOf(spec, w.input));
            Alone(world, w, spec)
            == match plan
               case Err(error) => Released(world, w.claim, w.input.now, Err(error))
               case Ok(p) =>
                 var (after, r) := Finished(world, w.input, |w.scan|, p);
                 Released(after, w.claim, w.input.now, r)
    decreases |w.provisional| - w.i
  {
    hide Released, Alone, Finished, AggregateAll, Latest;
    AloneStep(world, w, spec);
    var (next, step) := Move(world, w, spec);
    if w.i < |w.provisional| {
      assert w.provisional[..w.i + 1][..w.i] == w.provisional[..w.i];
      AloneReads(next, step, spec);
    } else {
      assert w.provisional[..w.i] == w.provisional;
      if step.Writing? {
        AloneWritesFromStart(world, step, spec);
      } else {
        AloneReleases(world, step, spec);
      }
    }
  }

  lemma AloneScans(world: World, w: Worker, spec: Spec)
    requires spec.windowSize > 0 && spec.pageSize > 0 && w.Positioned? && w.checkpoint == RecordOf(world.checkpoint)
    ensures var (after, r) := Body(world, spec, w.input);
            Alone(world, w, spec) == Released(after, w.claim, w.input.now, r)
  {
    hide Released, Alone, Finished, AggregateAll, PreviousOf, ScanResult;
    AloneStep(world, w, spec);
    var (next, step) := Move(world, w, spec);
    if step.Looking? {
      NothingLooked(world.aggregates, step.provisional, spec.scope);
      AloneReads(world, step, spec);
    } else {
      AloneReleases(world, step, spec);
    }
  }

  lemma NothingLooked(rows: seq<Aggregate>, provisional: seq<Aggregate>, scope: Labels)
    ensures PreviousOf(rows, provisional[..0], scope) == map[]
  {
  }

  /** A run whose steps nobody comes between is the run that the refinement and crash results are about. */
  lemma AloneIsRunOnce(world: World, spec: Spec, input: Input, claim: Claims.Claim)
    requires spec.windowSize > 0 && spec.pageSize > 0 && spec.initialStart < input.watermark
    requires Claims.Decide(Claims.Acquire(input.owner, input.now + input.lease, input.now), RecordOf(world.claim))
            == Ok(claim)
    ensures Alone(world.(claim := WriteState(world.claim, claim, world.claim, 1)), Claimed(input, claim), spec)
            == RunOnce(world, spec, input)
  {
    hide Released, Alone, Body;
    var claimed := world.(claim := WriteState(world.claim, claim, world.claim, 1));
    AloneStep(claimed, Claimed(input, claim), spec);
    AloneScans(claimed, Positioned(input, claim, RecordOf(claimed.checkpoint)), spec);
  }

  lemma MoveFrame(world: World, w: Worker, spec: Spec)
    requires spec.windowSize > 0 && spec.pageSize > 0 && !w.Done?
    ensures var (after, next) := Move(world, w, spec);
            && next.input == w.input && next.claim == w.claim
            && (!next.Done? ==> after.claim == world.claim)
  {
    hide AggregateAll, ScanResult, PutAggregate, Looked;
  }

  /** Wherever a run is, if it goes on undisturbed it ends with its claim expired and one revision on. */
  lemma {:induction false} AloneReleasesClaim(world: World, w: Worker, spec: Spec)
    requires spec.windowSize > 0 && spec.pageSize > 0 && !w.Done? && RecordOf(world.claim) == Some(w.claim)
    ensures RecordOf(Alone(world, w, spec).0.claim)
            == Some(Claims.Claim(w.claim.owner, w.input.now, w.claim.revision + 1, w.input.now))
    decreases Stage(w), Left(w)
  {
    hide Move, Alone;
    AloneStep(world, w, spec);
    if w.Releasing? {
      AloneReleases(world, w, spec);
    } else {
      MoveProgresses(world, w, spec);
      MoveFrame(world, w, spec);
      NotYetDone(world, w, spec);
      AloneReleasesClaim(Move(world, w, spec).0, Move(world, w, spec).1, spec);
    }
  }

  lemma NotYetDone(world: World, w: Worker, spec: Spec)
    requires spec.windowSize > 0 && spec.pageSize > 0 && !w.Done? && !w.Releasing?
    ensures !Move(world, w, spec).1.Done?
  {
    hide AggregateAll, ScanResult, PutAggregate, Looked, Checkpoints.Decide;
  }

  /** A run whose claim was superseded releases nothing: success turns into the release's error, a failure stays. */
  lemma LostClaimShows(world: World, w: Worker, spec: Spec)
    requires spec.windowSize > 0 && spec.pageSize > 0 && w.Releasing?
    requires var stored := RecordOf(world.claim);
             stored.None? || stored.value.revision != w.claim.revision || stored.value.owner != w.claim.owner
    ensures Move(world, w, spec)
            == (world, Done(w.input, w.claim, if w.result.Ok? then Err(ClaimUnavailable) else w.result))
  {
  }

  // ---- Many runs of one spec ----

  /** The shared store, the runs begun so far by number, and the time. A run that stopped for good never moves again. */
  datatype Site = Site(world: World, workers: map<nat, Worker>, clock: int)

  /** A run begins by acquiring the claim now. */
  ghost predicate BeginStep(s: Site, t: Site, c: nat, input: Input, spec: Spec) {
    && c !in s.workers && input.now == s.clock && spec.initialStart < input.watermark
    && var claim := Claims.Decide(Claims.Acquire(input.owner, input.now + input.lease, input.now),
        RecordOf(s.world.claim));
    && claim.Ok?
    && t == s.(world := s.world.(claim := WriteState(s.world.claim, claim.value, s.world.claim, 1)),
               workers := s.workers[c := Claimed(input, claim.value)])
  }

  ghost predicate MoveStep(s: Site, t: Site, c: nat, spec: Spec)
    requires spec.windowSize > 0 && spec.pageSize > 0
  {
    && c in s.workers && !s.workers[c].Done?
    && var (world, w) := Move(s.world, s.workers[c], spec);
    && t == s.(world := world, workers := s.workers[c := w])
  }

  ghost predicate TickStep(s: Site, t: Site) {
    s.clock <= t.clock && t == s.(clock := t.clock)
  }

  ghost predicate ArriveStep(s: Site, t: Site) {
    && t == s.(world := s.world.(events := t.world.events))
    && s.world.events <= t.world.events && AllMetered(t.world.events)
  }

  ghost predicate Next(s: Site, t: Site, spec: Spec)
    requires spec.windowSize > 0 && spec.pageSize > 0
  {
    || (exists c: nat, input :: BeginStep(s, t, c, input, spec))
    || (exists c: nat :: MoveStep(s, t, c, spec))
    || TickStep(s, t)
    || ArriveStep(s, t)
  }

  ghost predicate Run(run: seq<Site>, spec: Spec)
    requires spec.windowSize > 0 && spec.pageSize > 0
  {
    && run != [] && AllMetered(run[0].world.events) && run[0].workers == map[]
    && run[0].world == World(run[0].world.events, [], None, None)
    && forall i :: 0 <= i < |run| - 1 ==> Next(run[i], run[i + 1], spec)
  }

  lemma Extend(run: seq<Site>, t: Site, spec: Spec)
    requires spec.windowSize > 0 && spec.pageSize > 0 && Run(run, spec) && Next(run[|run| - 1], t, spec)
    ensures Run(run + [t], spec)
  {
    hide Next, AllMetered;
    var longer := run + [t];
    forall i | 0 <= i < |longer| - 1 ensures Next(longer[i], longer[i + 1], spec) {
      assert i < |run| - 1 ==> longer[i] == run[i] && longer[i + 1] == run[i + 1];
    }
  }

  // ---- Runs whose leases do not overlap ----

  predicate Live(s: Site, c: nat) {
    c in s.workers && !s.workers[c].Done? && s.clock < s.workers[c].claim.expiresAt
  }

  /** Nobody moves after its lease ran out, and no owner begins again under its own unexpired lease. */
  ghost predicate OrderlyNext(s: Site, t: Site, spec: Spec, hash: Hash)
    requires spec.windowSize > 0 && spec.pageSize > 0
  {
    || (exists c: nat, input: Input ::
          && BeginStep(s, t, c, input, spec) && input.hash == hash
          && forall d :: Live(s, d) ==> s.workers[d].input.owner != input.owner)
    || (exists c: nat :: MoveStep(s, t, c, spec) && Live(s, c))
    || TickStep(s, t)
    || ArriveStep(s, t)
  }

  ghost predicate OrderlyRun(run: seq<Site>, spec: Spec, hash: Hash)
    requires spec.windowSize > 0 && spec.pageSize > 0
  {
    && run != [] && Fine(run[0].world, hash) && run[0].workers == map[]
    && forall i :: 0 <= i < |run| - 1 ==> OrderlyNext(run[i], run[i + 1], spec, hash)
  }

  /** What a live run knows: what it read is still so, but for its own puts. */
  ghost predicate Knows(world: World, w: Worker, spec: Spec)
    requires spec.windowSize > 0 && spec.pageSize > 0
  {
    match w
    case Claimed(_, _) => true
    case Positioned(_, _, checkpoint) => checkpoint == RecordOf(world.checkpoint)
    case Looking(input, _, checkpoint, seen, scan, provisional, previous, i) =>
      && Scanned(world, w, spec) && i <= |provisional|
      && AggregateAll(scan, map[], JobOf(spec, input)) == Ok(provisional)
      && previous == PreviousOf(world.aggregates, provisional[..i], spec.scope)
    case Writing(input, _, checkpoint, seen, scan, plan, i, replayed) =>
      && Scanned(world, w, spec) && i <= |plan|
      && exists base :: WroteFrom(base, world, w, spec)
    case Releasing(_, _, _) => true
    case Done(_, _, _) => true
  }

  /** The scan is complete for the events that were stored when it was made. */
  ghost predicate Scanned(world: World, w: Worker, spec: Spec)
    requires spec.windowSize > 0 && spec.pageSize > 0 && (w.Looking? || w.Writing?)
  {
    && w.seen <= |world.events|
    && w.checkpoint == RecordOf(world.checkpoint)
    && ScanResult(world.events[..w.seen], w.checkpoint, spec, w.input.watermark) == Ok(w.scan)
  }

  /** The plan was made over `base`, and its first puts are all that has happened since. */
  ghost predicate WroteFrom(base: seq<Aggregate>, world: World, w: Worker, spec: Spec)
    requires spec.windowSize > 0 && w.Writing?
  {
    && Chained(base, w.input.hash)
    && Plan(base, w.scan, JobOf(spec, w.input)) == Ok(w.plan)
    && w.i <= |w.plan|
    && PutAll(base, w.plan[..w.i], w.input.hash) == (world.aggregates, Ok(w.replayed))
  }

  ghost predicate Orderly(s: Site, spec: Spec, hash: Hash)
    requires spec.windowSize > 0 && spec.pageSize > 0
  {
    && Fine(s.world, hash)
    && (forall c :: c in s.workers ==>
        s.workers[c].input.hash == hash && s.workers[c].input.owner == s.workers[c].claim.owner)
    && (forall c, d :: Live(s, c) && Live(s, d) ==> c == d)
    && (forall c :: Live(s, c) ==>
        RecordOf(s.world.claim) == Some(s.workers[c].claim) && Knows(s.world, s.workers[c], spec))
  }

  /** While a run is live, no other owner can begin. */
  lemma LiveKeepsOthersOut(s: Site, d: nat, input: Input, spec: Spec, hash: Hash)
    requires spec.Valid() && Orderly(s, spec, hash) && Live(s, d)
    requires input.now == s.clock && s.workers[d].input.owner != input.owner
    ensures Claims.Decide(Claims.Acquire(input.owner, input.now + input.lease, input.now), RecordOf(s.world.claim)).Err?
  {
    hide Fine, Knows, Spec.Valid;
    Claims.AcquiresExactly(input.owner, input.now + input.lease, input.now, RecordOf(s.world.claim));
  }

  lemma BeginKeepsOrder(s: Site, t: Site, c: nat, input: Input, spec: Spec, hash: Hash)
    requires spec.Valid() && Orderly(s, spec, hash) && BeginStep(s, t, c, input, spec) && input.hash == hash
    requires forall d :: Live(s, d) ==> s.workers[d].input.owner != input.owner
    ensures Orderly(t, spec, hash)
  {
    hide Fine, Knows, Spec.Valid;
    WindowIsPositive(spec);
    forall d | Live(s, d)
      ensures Claims.Decide(Claims.Acquire(input.owner, input.now + input.lease, input.now),
              RecordOf(s.world.claim)).Err?
    {
      LiveKeepsOthersOut(s, d, input, spec, hash);
    }
    FineWithoutClaim(s.world, t.world, hash);
    assert forall d :: Live(t, d) ==> d == c;
    ClaimedKnows(t.world, t.workers[c], spec);
  }

  lemma ClaimedKnows(world: World, w: Worker, spec: Spec)
    requires spec.windowSize > 0 && spec.pageSize > 0 && w.Claimed?
    ensures Knows(world, w, spec)
  {
  }

  lemma FineWithoutClaim(before: World, after: World, hash: Hash)
    requires Fine(before, hash) && after.events == before.events && after.aggregates == before.aggregates
    ensures Fine(after, hash)
  {
  }

  lemma TickKeepsOrder(s: Site, t: Site, spec: Spec, hash: Hash)
    requires spec.Valid() && Orderly(s, spec, hash) && TickStep(s, t)
    ensures Orderly(t, spec, hash)
  {
    hide Fine, Knows, Spec.Valid;
    assert forall c :: Live(t, c) ==> Live(s, c);
  }

  lemma KnowsMoreEvents(before: World, after: World, w: Worker, spec: Spec)
    requires spec.windowSize > 0 && spec.pageSize > 0 && Knows(before, w, spec)
    requires before.events <= after.events && after == before.(events := after.events)
    ensures Knows(after, w, spec)
  {
    hide AggregateAll, ScanResult, Chained, Plan, PutAll, PreviousOf;
    if w.Looking? || w.Writing? {
      assert after.events[..w.seen] == before.events[..w.seen];
    }
    if w.Writing? {
      var base :| WroteFrom(base, before, w, spec);
      assert WroteFrom(base, after, w, spec);
    }
  }

  lemma ArriveKeepsOrder(s: Site, t: Site, spec: Spec, hash: Hash)
    requires spec.Valid() && Orderly(s, spec, hash) && ArriveStep(s, t)
    ensures Orderly(t, spec, hash)
  {
    hide Chained, Knows, Spec.Valid, AllMetered;
    WindowIsPositive(spec);
    assert forall c :: Live(t, c) <==> Live(s, c);
    forall c | Live(t, c)
      ensures RecordOf(t.world.claim) == Some(t.workers[c].claim) && Knows(t.world, t.workers[c], spec)
    {
      assert Live(s, c);
      KnowsMoreEvents(s.world, t.world, s.workers[c], spec);
    }
  }

  /** A scan and a plan over stored versions are ready to be put. */
  lemma WroteFromIsReady(base: seq<Aggregate>, world: World, w: Worker, spec: Spec)
    requires Injective(w.input.hash) && spec.Valid() && w.Writing? && AllMetered(world.events)
    requires Scanned(world, w, spec) && WroteFrom(base, world, w, spec)
    ensures Ready(base, w.plan, ScannedGroups(w.scan, JobOf(spec, w.input)), w.scan, JobOf(spec, w.input))
  {
    hide Injective, Chained, AllMetered, Plan, PutAll, Scan, ScanStart, SortedGroups, Spec.Valid, Ready, Pages;
    WindowIsPositive(spec);
    var seen := world.events[..w.seen];
    SomeMetered(world.events, w.seen);
    ScanIsReady(base, seen, w.scan, w.plan, ScanStart(spec, w.checkpoint), JobOf(spec, w.input));
  }

  lemma SomeMetered(events: seq<Event>, n: nat)
    requires AllMetered(events) && n <= |events|
    ensures AllMetered(events[..n])
  {
    hide Metered;
  }

  /** After its first `i` puts a live run's store is what it planned over and the fresh ones among them. */
  lemma WrittenRows(base: seq<Aggregate>, world: World, w: Worker, spec: Spec)
    requires Injective(w.input.hash) && spec.Valid() && w.Writing? && AllMetered(world.events)
    requires Scanned(world, w, spec) && WroteFrom(base, world, w, spec)
    ensures world.aggregates == base + Fresh(base, w.plan[..w.i]) && Chained(world.aggregates, w.input.hash)
    ensures Ready(base, w.plan, ScannedGroups(w.scan, JobOf(spec, w.input)), w.scan, JobOf(spec, w.input))
    ensures |w.plan| == |ScannedGroups(w.scan, JobOf(spec, w.input))|
  {
    hide Injective, Chained, AllMetered, Plan, PutAll, Scanned, SortedGroups, Spec.Valid, Ready, Fresh;
    var job := JobOf(spec, w.input);
    WindowIsPositive(spec);
    var keys := ScannedGroups(w.scan, job);
    WroteFromIsReady(base, world, w, spec);
    AsManyPlanned(base, w.plan, keys, w.scan, job);
    ReadyPrefix(base, w.plan, keys, w.scan, job, w.i);
    PutAllAppendsFresh(base, w.plan[..w.i], keys[..w.i], w.scan, job);
  }

  lemma ScanKnows(world: World, w: Worker, spec: Spec)
    requires spec.windowSize > 0 && spec.pageSize > 0 && w.Positioned? && Knows(world, w, spec)
    ensures Knows(world, AfterScan(world.events, w, spec), spec)
  {
    hide AggregateAll, ScanResult, PreviousOf;
    assert world.events[..|world.events|] == world.events;
    if AfterScan(world.events, w, spec).Looking? {
      NothingLooked(world.aggregates, AfterScan(world.events, w, spec).provisional, spec.scope);
    }
  }

  lemma LookKnows(world: World, w: Worker, spec: Spec)
    requires spec.windowSize > 0 && spec.pageSize > 0 && w.Looking? && Knows(world, w, spec) && w.i < |w.provisional|
    ensures Knows(world, Move(world, w, spec).1, spec)
  {
    hide AggregateAll, ScanResult, Latest;
    assert w.provisional[..w.i + 1][..w.i] == w.provisional[..w.i];
  }

  lemma PlanKnows(world: World, w: Worker, spec: Spec)
    requires spec.windowSize > 0 && spec.pageSize > 0 && w.Looking? && Knows(world, w, spec) && w.i == |w.provisional|
    requires Chained(world.aggregates, w.input.hash)
    ensures Knows(world, AfterReads(w, spec), spec)
  {
    hide AggregateAll, ScanResult, Chained, PutAll, PreviousOf;
    assert w.provisional[..w.i] == w.provisional;
    var next := AfterReads(w, spec);
    if next.Writing? {
      NothingPut(world.aggregates, next.plan, w.input.hash);
      assert WroteFrom(world.aggregates, world, next, spec);
    }
  }

  lemma NothingPut(rows: seq<Aggregate>, plan: seq<Aggregate>, hash: Hash)
    ensures PutAll(rows, plan[..0], hash) == (rows, Ok(0))
  {
  }

  lemma PutKnows(world: World, w: Worker, spec: Spec)
    requires Injective(w.input.hash) && spec.Valid() && Fine(world, w.input.hash)
    requires w.Writing? && Knows(world, w, spec) && w.i < |w.plan|
    ensures var (after, next) := Move(world, w, spec);
            Fine(after, w.input.hash) && Knows(after, next, spec)
  {
    hide StoredAs, Injective, Chained, AllMetered, Plan, PutAggregate, ScanResult, SortedGroups, Spec.Valid, Ready,
        Fresh;
    WindowIsPositive(spec);
    var base :| WroteFrom(base, world, w, spec);
    var (after, next) := Move(world, w, spec);
    assert w.plan[..w.i + 1][..w.i] == w.plan[..w.i];
    if next.Writing? {
      assert WroteFrom(base, after, next, spec);
      WrittenRows(base, after, next, spec);
    } else {
      PutIsStored(world.aggregates, w.plan[w.i], w.input.hash);
    }
  }

  lemma MoveKnows(world: World, w: Worker, spec: Spec)
    requires Injective(w.input.hash) && spec.Valid() && Fine(world, w.input.hash) && Knows(world, w, spec) && !w.Done?
    ensures var (after, next) := Move(world, w, spec);
            Fine(after, w.input.hash) && Knows(after, next, spec)
  {
    hide Injective, Chained, AllMetered, Plan, PutAggregate, ScanResult, SortedGroups, Spec.Valid, Ready, Fresh,
        AggregateAll, PreviousOf, Latest, PutAll;
    WindowIsPositive(spec);
    match w {
      case Claimed(_, _) =>
      case Positioned(_, _, _) => ScanKnows(world, w, spec);
      case Looking(_, _, _, _, _, provisional, _, i) =>
        if i < |provisional| {
          LookKnows(world, w, spec);
        } else {
          PlanKnows(world, w, spec);
        }
      case Writing(_, _, _, _, _, plan, i, _) =>
        if i < |plan| {
          PutKnows(world, w, spec);
        } else {
          AdvanceReleases(world, w);
        }
      case Releasing(_, _, _) =>
    }
  }

  lemma MoveKeepsOrder(s: Site, t: Site, c: nat, spec: Spec, hash: Hash)
    requires Injective(hash) && spec.Valid() && Orderly(s, spec, hash) && MoveStep(s, t, c, spec) && Live(s, c)
    ensures Orderly(t, spec, hash)
  {
    hide Injective, Fine, Knows, Spec.Valid, Move;
    WindowIsPositive(spec);
    MoveKnows(s.world, s.workers[c], spec);
    MoveFrame(s.world, s.workers[c], spec);
    assert forall d :: Live(t, d) ==> Live(s, d);
  }

  lemma StepKeepsOrder(s: Site, t: Site, spec: Spec, hash: Hash)
    requires Injective(hash) && spec.Valid() && Orderly(s, spec, hash) && OrderlyNext(s, t, spec, hash)
    ensures Orderly(t, spec, hash)
  {
    hide Injective, Orderly, Spec.Valid, MoveStep, BeginStep;
    WindowIsPositive(spec);
    if c: nat, input: Input :|
      && BeginStep(s, t, c, input, spec) && input.hash == hash
      && forall d :: Live(s, d) ==> s.workers[d].input.owner != input.owner
    {
      BeginKeepsOrder(s, t, c, input, spec, hash);
    } else if c: nat :| MoveStep(s, t, c, spec) && Live(s, c) {
      MoveKeepsOrder(s, t, c, spec, hash);
    } else if TickStep(s, t) {
      TickKeepsOrder(s, t, spec, hash);
    } else {
      ArriveKeepsOrder(s, t, spec, hash);
    }
  }

  /**
    With leases that do not overlap at most one run is live, it holds the stored claim, and nobody writes behind its
    back.
   */
  lemma {:induction false} OrderlyRunsExclude(run: seq<Site>, spec: Spec, hash: Hash, i: nat)
    requires Injective(hash) && spec.Valid() && OrderlyRun(run, spec, hash) && i < |run|
    ensures Orderly(run[i], spec, hash)
  {
    hide Injective, Fine, Knows, Spec.Valid, OrderlyNext;
    if i > 0 {
      OrderlyRunsExclude(run, spec, hash, i - 1);
      StepKeepsOrder(run[i - 1], run[i], spec, hash);
    }
  }

  lemma AdvanceSucceeds(world: World, w: Worker, spec: Spec)
    requires spec.windowSize > 0 && spec.pageSize > 0 && w.Writing? && Scanned(world, w, spec)
    requires w.i == |w.plan|
    ensures var next := Move(world, w, spec).1;
            next.Releasing? && next.result.Ok? && Move(world, w, spec).0.aggregates == world.aggregates
  {
    hide Scan, ScanStart, Pages;
  }

  lemma WrittenIsCurrent(world: World, w: Worker, spec: Spec, key: GroupKey)
    requires Injective(w.input.hash) && spec.Valid() && Fine(world, w.input.hash)
    requires w.Writing? && w.i == |w.plan| && Knows(world, w, spec)
    requires key in ScannedGroups(w.scan, JobOf(spec, w.input))
    ensures CurrentFor(world.aggregates, key, Members(w.scan, key, spec, w.input.watermark), spec, w.input.hash)
  {
    hide Injective, Chained, AllMetered, Plan, PutAll, ScanResult, SortedGroups, Spec.Valid, Ready, Fresh, CurrentFor,
        Members;
    WindowIsPositive(spec);
    var base :| WroteFrom(base, world, w, spec);
    WrittenRows(base, world, w, spec);
    assert w.plan[..w.i] == w.plan;
    ScannedIsCurrent(base, w.plan, w.scan, JobOf(spec, w.input), key);
  }

  /**
    A live run that has put its plan advances the checkpoint without fail, and then the latest version of each group
    it scanned covers exactly its scan: every event of the group that was stored when it looked.
   */
  lemma LiveRunCovers(run: seq<Site>, spec: Spec, hash: Hash, i: nat, c: nat)
    requires Injective(hash) && spec.Valid() && OrderlyRun(run, spec, hash) && i + 1 < |run|
    requires MoveStep(run[i], run[i + 1], c, spec) && Live(run[i], c)
    requires run[i].workers[c].Writing? && run[i].workers[c].i == |run[i].workers[c].plan|
    ensures var w, after := run[i].workers[c], run[i + 1];
            && after.workers[c].Releasing? && after.workers[c].result.Ok?
            && w.seen <= |run[i].world.events|
            && ScanResult(run[i].world.events[..w.seen], w.checkpoint, spec, w.input.watermark) == Ok(w.scan)
            && forall key :: key in ScannedGroups(w.scan, JobOf(spec, w.input)) ==>
                 CurrentFor(after.world.aggregates, key, Members(w.scan, key, spec, w.input.watermark), spec, hash)
  {
    hide Injective, Fine, ScanResult, SortedGroups, Spec.Valid, CurrentFor, Members, Move, WroteFrom, OrderlyNext;
    WindowIsPositive(spec);
    OrderlyRunsExclude(run, spec, hash, i);
    var w := run[i].workers[c];
    AdvanceSucceeds(run[i].world, w, spec);
    forall key | key in ScannedGroups(w.scan, JobOf(spec, w.input))
      ensures CurrentFor(run[i].world.aggregates, key, Members(w.scan, key, spec, w.input.watermark), spec, hash)
    {
      WrittenIsCurrent(run[i].world, w, spec, key);
    }
  }

  /** A live run's last step releases its claim and keeps its result, good or bad. */
  lemma LiveRunReleases(run: seq<Site>, spec: Spec, hash: Hash, i: nat, c: nat)
    requires Injective(hash) && spec.Valid() && OrderlyRun(run, spec, hash) && i + 1 < |run|
    requires MoveStep(run[i], run[i + 1], c, spec) && Live(run[i], c) && run[i].workers[c].Releasing?
    ensures var w, after := run[i].workers[c], run[i + 1];
            && after.workers[c] == Done(w.input, w.claim, w.result)
            && RecordOf(after.world.claim)
               == Some(Claims.Claim(w.input.owner, w.input.now, w.claim.revision + 1, w.input.now))
  {
    hide Injective, Fine, Spec.Valid, OrderlyNext;
    WindowIsPositive(spec);
    OrderlyRunsExclude(run, spec, hash, i);
  }

  // ---- A run whose lease ran out ----

  lemma ThenMove(run: seq<Site>, c: nat, spec: Spec) returns (longer: seq<Site>)
    requires spec.windowSize > 0 && spec.pageSize > 0 && run != [] && Run(run, spec)
    requires c in run[|run| - 1].workers && !run[|run| - 1].workers[c].Done?
    ensures longer != [] && Run(longer, spec)
    ensures var s := run[|run| - 1];
            var (world, w) := Move(s.world, s.workers[c], spec);
            longer == run + [s.(world := world, workers := s.workers[c := w])]
  {
    hide Run, Move;
    var s := run[|run| - 1];
    var (world, w) := Move(s.world, s.workers[c], spec);
    var t := s.(world := world, workers := s.workers[c := w]);
    assert MoveStep(s, t, c, spec);
    Extend(run, t, spec);
    longer := run + [t];
  }

  /** Let one run take all its remaining steps. */
  lemma {:induction false} ThenAlone(run: seq<Site>, c: nat, spec: Spec) returns (longer: seq<Site>)
    requires spec.windowSize > 0 && spec.pageSize > 0 && run != [] && Run(run, spec) && c in run[|run| - 1].workers
    ensures longer != [] && Run(longer, spec) && run <= longer
    ensures var s, t := run[|run| - 1], longer[|longer| - 1];
            && c in t.workers && t.workers[c].Done? && t.clock == s.clock
            && Alone(s.world, s.workers[c], spec) == (t.world, t.workers[c].result)
            && t.workers == s.workers[c := t.workers[c]] && t.workers[c].input == s.workers[c].input
    decreases Stage(run[|run| - 1].workers[c]), Left(run[|run| - 1].workers[c])
  {
    hide Run, Move, Alone;
    var s := run[|run| - 1];
    var w := s.workers[c];
    if w.Done? {
      longer := run;
      AloneDone(s.world, w, spec);
      assert s.workers == s.workers[c := w];
    } else {
      var next := ThenMove(run, c, spec);
      MoveProgresses(s.world, w, spec);
      MoveFrame(s.world, w, spec);
      AloneStep(s.world, w, spec);
      longer := ThenAlone(next, c, spec);
    }
  }

  lemma AloneDone(world: World, w: Worker, spec: Spec)
    requires spec.windowSize > 0 && spec.pageSize > 0 && w.Done?
    ensures Alone(world, w, spec) == (world, w.result)
  {
  }

  /** Events of one group, few and small enough to aggregate. */
  ghost predicate OneGroup(events: seq<Event>, key: GroupKey, job: Job)
    requires job.spec.windowSize > 0
  {
    && 0 < |events| <= MAX_ARRAY && AllMetered(events)
    && (forall i :: 0 <= i < |events| ==>
          Visible(events[i], job.spec, ScanStart(job.spec, None), job.watermark) && KeyOf(events[i], job.spec) == key)
    && Abs(SumUnits(Values(events))) < Pow10(76)
  }

  lemma AllVisible(events: seq<Event>, spec: Spec, from: int, to: int)
    requires forall i :: 0 <= i < |events| ==> Visible(events[i], spec, from, to)
    ensures multiset(Scan(events, spec, from, to)) == multiset(events)
  {
    hide Scan, Matches;
    var scan := Scan(events, spec, from, to);
    forall e ensures multiset(scan)[e] == multiset(events)[e] {
      ScanMeaning(events, spec, from, to, e);
      if e in multiset(events) {
        var i :| 0 <= i < |events| && events[i] == e;
      }
    }
  }

  lemma {:induction false} AllMembers(events: seq<Event>, key: GroupKey, spec: Spec, watermark: int)
    requires spec.windowSize > 0 && events != []
    requires forall i :: 0 <= i < |events| ==> Grouped(events[i], key, spec, watermark)
    ensures Members(events, key, spec, watermark) == events && Groups(events, spec, watermark) == [key]
  {
    hide KeyOf;
    var n := |events| - 1;
    if n == 0 {
      assert events[..0] == [] && [] + [events[0]] == events;
    } else {
      AllMembers(events[..n], key, spec, watermark);
      assert events[..n] + [events[n]] == events;
    }
  }

  /** A scan of one group has it as its only group, with all its events. */
  lemma OneGroupScan(events: seq<Event>, key: GroupKey, job: Job) returns (scan: seq<Event>)
    requires job.spec.Valid() && OneGroup(events, key, job)
    ensures scan == Scan(events, job.spec, ScanStart(job.spec, None), job.watermark) && |scan| == |events|
    ensures OneGroup(scan, key, job)
    ensures ScannedGroups(scan, job) == [key] && Members(scan, key, job.spec, job.watermark) == scan
  {
    hide Scan, Members, KeyOf, Matches, Metered, ScanStart, SumUnits, Pow10, Spec.Valid;
    WindowIsPositive(job.spec);
    scan := Scan(events, job.spec, ScanStart(job.spec, None), job.watermark);
    AllVisible(events, job.spec, ScanStart(job.spec, None), job.watermark);
    assert |scan| == |multiset(scan)| == |multiset(events)| == |events|;
    forall i | 0 <= i < |scan|
      ensures Visible(scan[i], job.spec, ScanStart(job.spec, None), job.watermark) && KeyOf(scan[i], job.spec) == key
      ensures Metered(scan[i].value) && Grouped(scan[i], key, job.spec, job.watermark)
    {
      SameElements(scan, events, scan[i]);
      var j :| 0 <= j < |events| && events[j] == scan[i];
    }
    SameUnits(scan, events);
    AllMembers(scan, key, job.spec, job.watermark);
    OneSorted(key);
  }

  lemma SameUnits(xs: seq<Event>, ys: seq<Event>)
    requires multiset(xs) == multiset(ys)
    ensures SumUnits(Values(xs)) == SumUnits(Values(ys))
  {
    hide SumUnits;
    ValuesPermuted(xs, ys);
    SumUnitsPermuted(Values(xs), Values(ys));
  }

  lemma OneSorted(key: GroupKey)
    ensures Sort(KeyLess, [key]) == [key]
  {
    assert [key][1..] == [];
  }

  /** Aggregating one group gives its one planned version. */
  lemma OneGroupPlan(scan: seq<Event>, key: GroupKey, previous: map<string, Aggregate>, job: Job)
    requires job.spec.Valid() && OneGroup(scan, key, job)
    requires ScannedGroups(scan, job) == [key] && Members(scan, key, job.spec, job.watermark) == scan
    ensures var planned := Planned(key, scan, Prior(previous, AggregateId(job.spec, key, job.hash)), job);
            planned.Ok? && AggregateAll(scan, previous, job) == Ok([planned.value])
  {
    hide Members, KeyOf, ScanStart, SumUnits, Pow10, Spec.Valid, SortedGroups, AggregateId, SetFingerprint, RunningSum,
        StorageResult, AllMetered;
    WindowIsPositive(job.spec);
    NormalizedTotalStorable(scan);
    TooManyMembers(scan, job.hash);
    assert [key][1..] == [];
    var planned := Planned(key, scan, Prior(previous, AggregateId(job.spec, key, job.hash)), job);
    assert AggregateGroups([], scan, previous, job) == Ok([]);
    assert [planned.value] + [] == [planned.value];
  }

  lemma {:induction false} FewPages(n: nat, limit: nat)
    requires 0 < limit
    ensures Pages(n, limit) <= Max(1, n)
  {
    if n > limit {
      FewPages(n - limit, limit);
    }
  }

  /** What a run reads first, over one group and no checkpoint. */
  lemma OneGroupRead(events: seq<Event>, key: GroupKey, job: Job) returns (scan: seq<Event>)
    requires job.spec.Valid() && OneGroup(events, key, job)
    ensures ScanResult(events, None, job.spec, job.watermark) == Ok(scan) && |scan| == |events|
    ensures OneGroup(scan, key, job)
    ensures ScannedGroups(scan, job) == [key] && Members(scan, key, job.spec, job.watermark) == scan
  {
    hide Scan, Members, KeyOf, Metered, ScanStart, SumUnits, Pow10, Spec.Valid, SortedGroups;
    WindowIsPositive(job.spec);
    scan := OneGroupScan(events, key, job);
    FewPages(|scan|, job.spec.pageSize);
    assert Visible(events[0], job.spec, ScanStart(job.spec, None), job.watermark);
  }

  /** The older run claims and scans `older`; its lease runs out; `later` arrives in the same group. */
  lemma OlderScans(spec: Spec, key: GroupKey, older: seq<Event>, later: seq<Event>, input: Input,
      now: int) returns (run: seq<Site>, scan: seq<Event>)
    requires spec.Valid() && OneGroup(older, key, JobOf(spec, input)) && AllMetered(later)
    requires spec.initialStart < input.watermark && input.lease > 0 && input.now + input.lease <= now
    ensures run != [] && Run(run, spec)
    ensures |scan| == |older| && OneGroup(scan, key, JobOf(spec, input))
    ensures ScannedGroups(scan, JobOf(spec, input)) == [key] && Members(scan, key, spec, input.watermark) == scan
    ensures Planned(key, scan, None, JobOf(spec, input)).Ok?
    ensures var claim := Claims.Claim(input.owner, input.now + input.lease, 1, input.now);
            run[|run| - 1] == Site(
              World(older + later, [], None, Some(Row(claim, 1))),
              map[0 := Looking(input, claim, None, |older|, scan, [Planned(key, scan, None, JobOf(spec, input)).value],
                  map[], 0)],
              now)
  {
    hide ScanResult, Members, KeyOf, ScanStart, SumUnits, Pow10, Spec.Valid, SortedGroups, Planned, AggregateAll,
        AllMetered, Run, OneGroup;
    WindowIsPositive(spec);
    OneGroupMetered(older, key, JobOf(spec, input));
    var claim := Claims.Claim(input.owner, input.now + input.lease, 1, input.now);
    var s0 := Site(World(older, [], None, None), map[], input.now);
    var s1 := Site(World(older, [], None, Some(Row(claim, 1))), map[0 := Claimed(input, claim)], input.now);
    BeginRun(s0, spec);
    assert BeginStep(s0, s1, 0, input, spec);
    Extend([s0], s1, spec);
    var run2 := ThenMove([s0] + [s1], 0, spec);
    scan := OneGroupRead(older, key, JobOf(spec, input));
    OneGroupPlan(scan, key, map[], JobOf(spec, input));
    var run3 := ThenMove(run2, 0, spec);
    var s3 := run3[|run3| - 1];
    var s4 := s3.(clock := now);
    assert TickStep(s3, s4);
    Extend(run3, s4, spec);
    var s5 := s4.(world := s4.world.(events := older + later));
    BothMetered(older, later);
    assert ArriveStep(s4, s5);
    Extend(run3 + [s4], s5, spec);
    run := run3 + [s4] + [s5];
  }

  lemma BeginRun(s: Site, spec: Spec)
    requires spec.windowSize > 0 && spec.pageSize > 0
    requires AllMetered(s.world.events) && s.workers == map[] && s.world == World(s.world.events, [], None, None)
    ensures Run([s], spec)
  {
    hide AllMetered, Next;
  }

  lemma OneGroupMetered(events: seq<Event>, key: GroupKey, job: Job)
    requires job.spec.windowSize > 0 && OneGroup(events, key, job)
    ensures AllMetered(events)
  {
  }

  lemma BothMetered(a: seq<Event>, b: seq<Event>)
    requires AllMetered(a) && AllMetered(b)
    ensures AllMetered(a + b)
  {
    hide Metered;
  }

  /** Another owner's run over all the events, undisturbed. */
  lemma NewerRuns(run: seq<Site>, spec: Spec, key: GroupKey, input: Input) returns (longer: seq<Site>, scan: seq<Event>)
    requires Injective(input.hash) && spec.Valid() && run != [] && Run(run, spec)
    requires var s := run[|run| - 1];
             && 1 !in s.workers && input.now == s.clock && s.world.aggregates == [] && s.world.checkpoint == None
             && OneGroup(s.world.events, key, JobOf(spec, input))
             && (RecordOf(s.world.claim).Some? ==> RecordOf(s.world.claim).value.expiresAt <= input.now)
    requires spec.initialStart < input.watermark && input.lease > 0
    ensures longer != [] && Run(longer, spec) && run <= longer
    ensures |scan| == |run[|run| - 1].world.events| && AllMetered(scan)
            && Planned(key, scan, None, JobOf(spec, input)).Ok?
    ensures var s, t := run[|run| - 1], longer[|longer| - 1];
            && t.world.events == s.world.events && t.clock == s.clock
            && t.world.aggregates == [Planned(key, scan, None, JobOf(spec, input)).value]
            && RecordOf(t.world.checkpoint) == Some(Checkpoints.Checkpoint(input.watermark, 1, input.now))
            && RecordOf(t.world.claim).Some? && RecordOf(t.world.claim).value.owner == input.owner
            && 1 in t.workers && t.workers[1].Done? && t.workers[1].result.Ok? && t.workers[1].input == input
            && t.workers == s.workers[1 := t.workers[1]]
  {
    hide ScanResult, Members, KeyOf, ScanStart, SumUnits, Pow10, Spec.Valid, SortedGroups, Planned, AggregateAll,
        AllMetered, Run, OneGroup, RunOnce, Alone, Chained, Injective, Plan, Fresh;
    WindowIsPositive(spec);
    var s, job := run[|run| - 1], JobOf(spec, input);
    OneGroupMetered(s.world.events, key, job);
    Claims.AcquiresExactly(input.owner, input.now + input.lease, input.now, RecordOf(s.world.claim));
    var claim := Claims.Decide(Claims.Acquire(input.owner, input.now + input.lease, input.now),
        RecordOf(s.world.claim)).value;
    var t := s.(world := s.world.(claim := WriteState(s.world.claim, claim, s.world.claim, 1)),
                workers := s.workers[1 := Claimed(input, claim)]);
    assert BeginStep(s, t, 1, input, spec);
    Extend(run, t, spec);
    longer := ThenAlone(run + [t], 1, spec);
    AloneIsRunOnce(s.world, spec, input, claim);
    scan := OneGroupRead(s.world.events, key, job);
    OneGroupMetered(scan, key, job);
    NothingStored(input.hash);
    FirstPlan(scan, key, job);
    var first := Planned(key, scan, None, job).value;
    RunCompletes(s.world, spec, input, scan, [first]);
    FreshFirst(first);
    ClaimIsReleased(s.world, spec, input);
    assert s.workers[1 := Claimed(input, claim)][1 := longer[|longer| - 1].workers[1]]
        == s.workers[1 := longer[|longer| - 1].workers[1]];
  }

  lemma NothingStored(hash: Hash)
    ensures Chained([], hash)
  {
  }

  lemma FirstPlan(scan: seq<Event>, key: GroupKey, job: Job)
    requires job.spec.Valid() && OneGroup(scan, key, job)
    requires ScannedGroups(scan, job) == [key] && Members(scan, key, job.spec, job.watermark) == scan
    ensures Planned(key, scan, None, job).Ok? && Plan([], scan, job) == Ok([Planned(key, scan, None, job).value])
  {
    hide Members, KeyOf, ScanStart, SumUnits, Pow10, Spec.Valid, SortedGroups, AggregateId, Planned, AggregateAll,
        OneGroup;
    WindowIsPositive(job.spec);
    OneGroupPlan(scan, key, map[], job);
    var provisional := AggregateAll(scan, map[], job).value;
    NothingBefore(provisional, job.spec.scope);
  }

  lemma {:induction false} NothingBefore(provisional: seq<Aggregate>, scope: Labels)
    ensures PreviousOf([], provisional, scope) == map[]
  {
    if provisional != [] {
      NothingBefore(provisional[..|provisional| - 1], scope);
    }
  }

  lemma FreshFirst(a: Aggregate)
    ensures [] + Fresh([], [a]) == [a]
  {
    assert [a][..0] == [];
  }

  lemma FirstVersion(key: GroupKey, scan: seq<Event>, job: Job)
    requires Planned(key, scan, None, job).Ok?
    ensures var a := Planned(key, scan, None, job).value;
            && a.revision == 1 && a.eventCount == |scan|
            && a.scope == job.spec.scope && a.aggregateId == AggregateId(job.spec, key, job.hash)
            && a.start == key.start && a.end == key.start + job.spec.windowSize
            && SetFingerprint(scan, job.hash) == Ok(a.sourceFingerprint)
  {
    hide SetFingerprint, RunningSum, StorageResult, AggregateId;
  }

  lemma SecondVersion(key: GroupKey, scan: seq<Event>, first: Aggregate, job: Job)
    requires first.revision == 1 && SetFingerprint(scan, job.hash) != Ok(first.sourceFingerprint)
    requires Planned(key, scan, Some(first), job).Ok?
    ensures var a := Planned(key, scan, Some(first), job).value;
            && a.revision == 2 && a.eventCount == |scan|
            && a.scope == job.spec.scope && a.aggregateId == AggregateId(job.spec, key, job.hash)
            && a.start == key.start && SetFingerprint(scan, job.hash) == Ok(a.sourceFingerprint)
            && a.supersedes == Some(VersionId(first.aggregateId, 1))
  {
    hide SetFingerprint, RunningSum, StorageResult, AggregateId;
  }

  lemma DifferentSources(older: seq<Event>, newer: seq<Event>, hash: Hash)
    requires Injective(hash) && AllMetered(older) && AllMetered(newer) && |older| != |newer|
    ensures SetFingerprint(older, hash).Ok? ==> SetFingerprint(older, hash) != SetFingerprint(newer, hash)
  {
    hide Injective, AllMetered, SetFingerprint, RunningSum;
    if SetFingerprint(older, hash).Ok? && SetFingerprint(older, hash) == SetFingerprint(newer, hash) {
      SourceFixesNumbers(older, newer, hash);
    }
  }

  /**
    The stale run goes on: it looks up what the newer one put, supersedes it, and only then fails at the checkpoint.
   */
  lemma OlderGoesOn(run: seq<Site>, spec: Spec, key: GroupKey, job: Job, first: Aggregate) returns (longer: seq<Site>)
    requires spec.Valid() && job.spec == spec && run != [] && Run(run, spec)
    requires var s := run[|run| - 1];
             && 0 in s.workers && s.workers[0].Looking? && s.workers[0].i == 0 && s.workers[0].previous == map[]
             && JobOf(spec, s.workers[0].input) == job && s.workers[0].checkpoint == None
             && Planned(key, s.workers[0].scan, None, job).Ok?
             && s.workers[0].provisional == [Planned(key, s.workers[0].scan, None, job).value]
             && OneGroup(s.workers[0].scan, key, job) && ScannedGroups(s.workers[0].scan, job) == [key]
             && Members(s.workers[0].scan, key, spec, job.watermark) == s.workers[0].scan
             && SetFingerprint(s.workers[0].scan, job.hash) != Ok(first.sourceFingerprint)
             && s.world.aggregates == [first]
             && RecordOf(s.world.checkpoint).Some? && RecordOf(s.world.checkpoint).value.revision == 1
             && RecordOf(s.world.claim).Some? && RecordOf(s.world.claim).value.owner != s.workers[0].claim.owner
    requires first.revision == 1 && VersionOf(first, spec, key, job.hash) && first.start == key.start
    ensures longer != [] && Run(longer, spec)
    ensures var s, t := run[|run| - 1], longer[|longer| - 1];
            && |t.world.aggregates| == 2 && t.world.aggregates[0] == first
            && t.world.checkpoint == s.world.checkpoint && t.world.events == s.world.events && t.clock == s.clock
            && t.world.aggregates[1].eventCount == |s.workers[0].scan|
            && Current(t.world.aggregates, key, spec, job.hash) == Some(t.world.aggregates[1])
            && t.world.aggregates[1].revision == 2
            && SetFingerprint(s.workers[0].scan, job.hash) == Ok(t.world.aggregates[1].sourceFingerprint)
            && 0 in t.workers && t.workers[0].Done? && t.workers[0].result == Err(CheckpointConflict)
            && t.workers == s.workers[0 := t.workers[0]]
  {
    hide Members, KeyOf, ScanStart, SumUnits, Pow10, Spec.Valid, SortedGroups, Planned, AggregateAll, AllMetered, Run,
        OneGroup, SetFingerprint, AggregateId, AggregateFingerprint, Latest, Released, FindVersion;
    WindowIsPositive(spec);
    var w := run[|run| - 1].workers[0];
    var id := AggregateId(spec, key, job.hash);
    FirstVersion(key, w.scan, job);
    LatestOf(first, spec.scope, id, key.start, key.start + spec.windowSize);
    var looked := ThenMove(run, 0, spec);
    var previous: map<string, Aggregate> := map[id := first];
    OneGroupPlan(w.scan, key, previous, job);
    var second := Planned(key, w.scan, Some(first), job).value;
    SecondVersion(key, w.scan, first, job);
    var planned := ThenMove(looked, 0, spec);
    SecondIsAbsent(first, second);
    var put := ThenMove(planned, 0, spec);
    assert [first] + [second] == [first, second];
    LatestOfTwo(first, second, spec.scope, id, key.start, key.start + spec.windowSize);
    var advanced := ThenMove(put, 0, spec);
    LostClaimShows(advanced[|advanced| - 1].world, advanced[|advanced| - 1].workers[0], spec);
    longer := ThenMove(advanced, 0, spec);
  }

  /**
    The claim does not fence aggregate writes. A run claims and scans; its lease runs out; more events of the same
    group arrive; another owner claims, aggregates everything and advances the checkpoint; then the first run puts
    revision 2, computed from its older scan, as the latest version. Only then does its checkpoint advance fail.
   */
  lemma StaleScanCanWin(spec: Spec, key: GroupKey, older: seq<Event>, later: seq<Event>, first: Input, second: Input)
    returns (run: seq<Site>)
    requires Injective(first.hash) && spec.Valid() && first.hash == second.hash && first.watermark == second.watermark
    requires spec.initialStart < first.watermark && first.owner != second.owner
    requires first.lease > 0 && second.lease > 0 && first.now + first.lease <= second.now
    requires later != [] && AllMetered(later)
    requires OneGroup(older, key, JobOf(spec, first)) && OneGroup(older + later, key, JobOf(spec, second))
    ensures run != [] && Run(run, spec)
    ensures var t := run[|run| - 1];
            && t.clock >= first.now + first.lease && t.world.events == older + later
            && 1 in t.workers && t.workers[1].Done? && t.workers[1].result.Ok? && t.workers[1].input == second
            && 0 in t.workers && t.workers[0].Done? && t.workers[0].result == Err(CheckpointConflict)
            && |t.world.aggregates| == 2
            && t.world.aggregates[0].eventCount == |older + later|
            && Current(t.world.aggregates, key, spec, first.hash) == Some(t.world.aggregates[1])
            && t.world.aggregates[1].revision == 2 && t.world.aggregates[1].eventCount == |older|
            && RecordOf(t.world.checkpoint).Some? && RecordOf(t.world.checkpoint).value.revision == 1
  {
    hide Members, KeyOf, ScanStart, SumUnits, Pow10, Spec.Valid, SortedGroups, Planned, AggregateAll, AllMetered, Run,
        OneGroup, SetFingerprint, AggregateId, Latest, Current, Injective;
    WindowIsPositive(spec);
    var start, scan := OlderScans(spec, key, older, later, first, second.now);
    var middle, whole := NewerRuns(start, spec, key, second);
    var version := Planned(key, whole, None, JobOf(spec, second)).value;
    FirstVersion(key, whole, JobOf(spec, second));
    OneGroupMetered(scan, key, JobOf(spec, first));
    DifferentSources(scan, whole, first.hash);
    FirstVersion(key, scan, JobOf(spec, first));
    run := OlderGoesOn(middle, spec, key, JobOf(spec, first), version);
  }
}
