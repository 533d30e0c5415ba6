/**
  The repository and the aggregation runner as they change their store: one table per resource, nobody else
  writing meanwhile. Each method is proved against the function that the laws of its module are about.
 */
module Repository {
  import opened Prelude
  import opened Meters
  import opened Events
  import opened Aggregation
  import opened Recording
  import opened Batches
  import opened Revisions
  import opened Planning
  import opened Cells
  import opened Paging
  import opened Runner
  import Claims
  import Checkpoints

  type Key = (Labels, string)

  function Get<K, V>(table: map<K, V>, key: K): Option<V> {
    if key in table then Some(table[key]) else None
  }

  /** The table after a conditional write of one row. */
  function Written<T>(table: map<Key, Row<T>>, key: Key, data: T): map<Key, Row<T>> {
    match WriteState(Get(table, key), data, Get(table, key), 1)
    case None => table
    case Some(row) => table[key := row]
  }

  class UsageRepository {
    var events: seq<Event>
    var batches: map<Key, Manifest>
    var aggregates: seq<Aggregate>
    var checkpoints: map<Key, Row<Checkpoints.Checkpoint>>
    var claims: map<Key, Row<Claims.Claim>>
    const setting: Setting

    constructor (setting: Setting)
      ensures events == [] && batches == map[] && aggregates == [] && checkpoints == map[] && claims == map[]
      ensures this.setting == setting
    {
      this.setting := setting;
      events, batches, aggregates, checkpoints, claims := [], map[], [], map[], map[];
    }

    // ---- Conditional state ----

    /** `_write_state` on the checkpoint table; `read` is the row the caller read, if any. */
    method WriteCheckpoint(key: Key, data: Checkpoints.Checkpoint,
        read: Option<Row<Checkpoints.Checkpoint>>) returns (written: bool)
      modifies this`checkpoints
      ensures var w := WriteState(Get(old(checkpoints), key), data, read, 1);
              && written == w.Some?
              && checkpoints == if w.Some? then old(checkpoints)[key := w.value] else old(checkpoints)
    {
      if read.None? {
        if key in checkpoints {
          return false;
        }
        checkpoints := checkpoints[key := Row(data, 1)];
      } else {
        if key !in checkpoints || checkpoints[key].version != read.value.version {
          return false;
        }
        checkpoints := checkpoints[key := Row(data, read.value.version + 1)];
      }
      return true;
    }

    /** `_write_state` on the claim table. */
    method WriteClaim(key: Key, data: Claims.Claim, read: Option<Row<Claims.Claim>>) returns (written: bool)
      modifies this`claims
      ensures var w := WriteState(Get(old(claims), key), data, read, 1);
              && written == w.Some?
              && claims == if w.Some? then old(claims)[key := w.value] else old(claims)
    {
      if read.None? {
        if key in claims {
          return false;
        }
        claims := claims[key := Row(data, 1)];
      } else {
        if key !in claims || claims[key].version != read.value.version {
          return false;
        }
        claims := claims[key := Row(data, read.value.version + 1)];
      }
      return true;
    }

    method AdvanceCheckpoint(scope: Labels, id: string, watermark: int, expectedRevision: int,
        now: int) returns (r: Result<Checkpoints.Checkpoint>)
      modifies this`checkpoints
      ensures r == Checkpoints.Decide(Checkpoints.Advance(watermark, expectedRevision, now),
              RecordOf(Get(old(checkpoints), (scope, id))))
      ensures checkpoints == if r.Ok? then Written(old(checkpoints), (scope, id), r.value) else old(checkpoints)
    {
      if expectedRevision < 0 {
        return Err(InvalidUsage);
      }
      var record := Get(checkpoints, (scope, id));
      var current := RecordOf(record);
      var currentRevision := if current.None? then 0 else current.value.revision;
      if currentRevision != expectedRevision {
        return Err(CheckpointConflict);
      }
      if current.Some? && watermark < current.value.watermark {
        return Err(InvalidUsage);
      }
      var updated := Checkpoints.Checkpoint(watermark, currentRevision + 1, now);
      var written := WriteCheckpoint((scope, id), updated, record);
      if !written {
        return Err(CheckpointConflict);
      }
      return Ok(updated);
    }

    method AcquireClaim(scope: Labels, id: string, owner: string, expiresAt: int,
        now: int) returns (r: Result<Claims.Claim>)
      modifies this`claims
      ensures r == Claims.Decide(Claims.Acquire(owner, expiresAt, now), RecordOf(Get(old(claims), (scope, id))))
      ensures claims == if r.Ok? then Written(old(claims), (scope, id), r.value) else old(claims)
    {
      if expiresAt <= now {
        return Err(InvalidUsage);
      }
      var record := Get(claims, (scope, id));
      var current := RecordOf(record);
      if current.Some? && current.value.expiresAt > now && current.value.owner != owner {
        return Err(ClaimUnavailable);
      }
      var revision := if current.None? then 1 else current.value.revision + 1;
      var claim := Claims.Claim(owner, expiresAt, revision, now);
      var written := WriteClaim((scope, id), claim, record);
      if !written {
        return Err(ClaimUnavailable);
      }
      return Ok(claim);
    }

    method ReleaseClaim(scope: Labels, id: string, claim: Claims.Claim, now: int) returns (r: Result<Claims.Claim>)
      modifies this`claims
      ensures r == Claims.Decide(Claims.Release(claim, now), RecordOf(Get(old(claims), (scope, id))))
      ensures claims == if r.Ok? then Written(old(claims), (scope, id), r.value) else old(claims)
    {
      var record := Get(claims, (scope, id));
      var current := RecordOf(record);
      if current.None? || current.value.revision != claim.revision || current.value.owner != claim.owner {
        return Err(ClaimUnavailable);
      }
      var released := Claims.Claim(claim.owner, now, claim.revision + 1, now);
      var written := WriteClaim((scope, id), released, record);
      if !written {
        return Err(ClaimUnavailable);
      }
      return Ok(released);
    }

    // ---- Events ----

    method RecordEvent(event: Event, meter: Meter) returns (r: Result<Receipt>)
      modifies this`events
      ensures (events, r) == Record(old(events), event, meter, setting.ambient, setting.hash)
    {
      hide NormalizeEvent, Fingerprint, SameDomain;
      var normalized :- NormalizeEvent(event, meter, setting.ambient);
      if normalized.correctionOf.Some? {
        var target := Find(events, normalized.scope, normalized.correctionOf.value);
        if target.None? || !SameDomain(normalized, target.value) {
          return Err(InvalidCorrection);
        }
      }
      var existing := Find(events, normalized.scope, normalized.eventId);
      if existing.Some? {
        if Fingerprint(existing.value, setting.hash) != Fingerprint(normalized, setting.hash) {
          return Err(UsageConflict);
        }
        return Ok(Receipt(existing.value, Replayed));
      }
      events := events + [normalized];
      return Ok(Receipt(normalized, Recorded));
    }

    method NormalizeAll(input: seq<Event>) returns (r: Result<seq<Event>>)
      ensures r == NormalizeBatch(input, setting)
    {
      hide NormalizeOne;
      if !(1 <= |input| <= MAX_BATCH) {
        return Err(InvalidUsage);
      }
      var normalized: seq<Event> := [];
      ghost var all := NormalizeEach(input, setting);
      assert input[0..] == input;
      PrependNothing(all);
      for i := 0 to |input|
        invariant all == Prepend(normalized, NormalizeEach(input[i..], setting))
      {
        var one :- NormalizeOne(input[i], setting);
        assert input[i..][1..] == input[i + 1..];
        PrependStep(normalized, one, NormalizeEach(input[i + 1..], setting));
        normalized := normalized + [one];
      }
      assert input[|input|..] == [];
      PrependEnd(normalized);
      if !OneScope(normalized) || !UniqueIds(normalized) {
        return Err(InvalidUsage);
      }
      return Ok(normalized);
    }

    method RecordBatchEvent(event: Event) returns (r: Result<Receipt>)
      modifies this`events
      ensures (events, r) == RecordAgain(old(events), event, setting)
    {
      hide Record;
      var meter :- MeterOf(event, setting);
      r := RecordEvent(event, meter);
    }

    /** Inside a transaction: the snapshot is restored when an event fails. */
    method RecordAtomic(batch: seq<Event>) returns (r: Result<seq<Item>>)
      modifies this`events
      ensures match AtomicItems(old(events), batch, setting)
              case Ok((rows, items)) => events == rows && r == Ok(items)
              case Err(error) => events == old(events) && r == Err(error)
    {
      hide RecordAgain, ItemOf;
      var snapshot := events;
      var items: seq<Item> := [];
      assert batch[0..] == batch;
      ContinuedNothing(AtomicItems(events, batch, setting));
      for i := 0 to |batch|
        invariant AtomicItems(snapshot, batch, setting) == Continued(items, AtomicItems(events, batch[i..], setting))
      {
        ghost var before := events;
        var receipt := RecordBatchEvent(batch[i]);
        assert batch[i..][1..] == batch[i + 1..];
        if receipt.Err? {
          events := snapshot;
          return Err(receipt.error);
        }
        var item := ItemOf(batch[i], receipt, setting.hash);
        ContinuedStep(items, item, AtomicItems(events, batch[i + 1..], setting));
        items := items + [item];
      }
      assert items + [] == items;
      return Ok(items);
    }

    method RecordPartitioned(batch: seq<Event>) returns (items: seq<Item>)
      modifies this`events
      ensures (events, items) == PartitionedItems(old(events), batch, setting)
    {
      hide RecordAgain, ItemOf;
      items := [];
      ghost var all := PartitionedItems(events, batch, setting);
      assert batch[0..] == batch;
      for i := 0 to |batch|
        invariant all.0 == PartitionedItems(events, batch[i..], setting).0
        invariant all.1 == items + PartitionedItems(events, batch[i..], setting).1
      {
        var receipt := RecordBatchEvent(batch[i]);
        assert batch[i..][1..] == batch[i + 1..];
        items := items + [ItemOf(batch[i], receipt, setting.hash)];
      }
      assert batch[|batch|..] == [] && items + [] == items;
    }

    method RecordBatch(input: seq<Event>, batchId: Option<string>, mode: Mode) returns (r: Result<BatchReceipt>)
      modifies this`events, this`batches
      ensures (Store(events, batches), r)
              == Batches.RecordBatch(Store(old(events), old(batches)), input, batchId, mode, setting)
    {
      hide NormalizeBatch, BatchFingerprint, AtomicItems, PartitionedItems;
      var normalized :- NormalizeAll(input);
      var fingerprint :- BatchFingerprint(mode, normalized, setting.hash);
      var id := if batchId.Some? then batchId.value else "batch-" + fingerprint;
      NormalizedIsNonempty(input, setting);
      var key := (normalized[0].scope, id);
      if key in batches {
        if batches[key].fingerprint != fingerprint {
          return Err(UsageConflict);
        }
        return Ok(BatchReceipt(batches[key], true));
      }
      var items: seq<Item>;
      if mode == Atomic {
        items :- RecordAtomic(normalized);
      } else {
        items := RecordPartitioned(normalized);
      }
      var manifest := Manifest(id, normalized[0].scope, mode, fingerprint, items);
      batches := batches[key := manifest];
      return Ok(BatchReceipt(manifest, false));
    }

    // ---- Aggregates ----

    method PutAggregateVersion(aggregate: Aggregate) returns (r: Result<(Aggregate, bool)>)
      modifies this`aggregates
      ensures (aggregates, r) == PutAggregate(old(aggregates), aggregate, setting.hash)
    {
      hide AggregateFingerprint;
      var existing := FindVersion(aggregates, aggregate);
      if existing.Some? {
        if AggregateFingerprint(existing.value, setting.hash) != AggregateFingerprint(aggregate, setting.hash) {
          return Err(UsageConflict);
        }
        return Ok((existing.value, true));
      }
      aggregates := aggregates + [aggregate];
      return Ok((aggregate, false));
    }

    /** One query per provisional aggregate. */
    method ReadPrevious(provisional: seq<Aggregate>, scope: Labels) returns (previous: map<string, Aggregate>)
      ensures previous == PreviousOf(aggregates, provisional, scope)
    {
      hide Latest;
      previous := map[];
      for i := 0 to |provisional|
        invariant previous == PreviousOf(aggregates, provisional[..i], scope)
      {
        var aggregate := provisional[i];
        assert provisional[..i + 1][..i] == provisional[..i];
        var current := Latest(aggregates, scope, aggregate.aggregateId, aggregate.start, aggregate.end);
        if current.Some? {
          previous := previous[aggregate.aggregateId := current.value];
        }
      }
      assert provisional[..|provisional|] == provisional;
    }

    method PutVersions(plan: seq<Aggregate>) returns (r: Result<nat>)
      modifies this`aggregates
      ensures (aggregates, r) == PutAll(old(aggregates), plan, setting.hash)
    {
      hide PutAggregate;
      var replayed: nat := 0;
      for i := 0 to |plan|
        invariant (aggregates, Ok(replayed)) == PutAll(old(aggregates), plan[..i], setting.hash)
      {
        assert plan[..i + 1][..i] == plan[..i];
        var put := PutAggregateVersion(plan[i]);
        if put.Err? {
          StoppedPuts(old(aggregates), plan, i + 1, setting.hash);
          return Err(put.error);
        }
        replayed := replayed + if put.value.1 then 1 else 0;
      }
      assert plan[..|plan|] == plan;
      return Ok(replayed);
    }

    // ---- Runs ----

    /** What the runs of one spec see of the repository. */
    ghost function View(spec: Spec): World
      reads this
    {
      World(events, aggregates, Get(checkpoints, (spec.scope, spec.checkpointId)),
          Get(claims, (spec.scope, spec.claimId)))
    }

    method ReadEvents(spec: Spec, watermark: int) returns (r: Result<seq<Event>>)
      requires spec.windowSize > 0 && spec.pageSize > 0
      ensures r == Read(View(spec), spec, watermark)
    {
      hide Scan, Pages;
      var checkpoint := RecordOf(Get(checkpoints, (spec.scope, spec.checkpointId)));
      if checkpoint.Some? && watermark < checkpoint.value.watermark {
        return Err(InvalidUsage);
      }
      var start := spec.initialStart;
      if checkpoint.Some? {
        start := Max(spec.initialStart, checkpoint.value.watermark - spec.allowedLateness);
      }
      var scanStart := Bucket(start, spec.windowSize);
      if scanStart >= watermark {
        return Err(InvalidUsage);
      }
      var scan := Scan(events, spec, scanStart, watermark);
      if Pages(|scan|, spec.pageSize) > MAX_PAGES {
        return Err(InvalidUsageResult);
      }
      return Ok(scan);
    }

    /** The run between claim and release. */
    method RunClaimed(spec: Spec, input: Input) returns (r: Result<Report>)
      requires spec.windowSize > 0 && spec.pageSize > 0 && input.hash == setting.hash
      modifies this`aggregates, this`checkpoints
      ensures (View(spec), r) == Body(old(View(spec)), spec, input)
      ensures forall k :: k != (spec.scope, spec.checkpointId) ==> Get(checkpoints, k) == Get(old(checkpoints), k)
    {
      hide Read, AggregateAll, PreviousOf, PutAll;
      var checkpoint := RecordOf(Get(checkpoints, (spec.scope, spec.checkpointId)));
      var scan :- ReadEvents(spec, input.watermark);
      var job := JobOf(spec, input);
      var provisional :- AggregateEvents(scan, map[], job);
      var previous := ReadPrevious(provisional, spec.scope);
      var plan :- AggregateEvents(scan, previous, job);
      var replayed :- PutVersions(plan);
      var updated :- AdvanceCheckpoint(spec.scope, spec.checkpointId, input.watermark, Expected(checkpoint), input.now);
      return Ok(Report(updated, |scan|, plan, replayed));
    }

    /**
      `AggregationRunner.run`: the claim is released whatever happens, and only its own failure can replace a success.
     */
    method RunAggregation(spec: Spec, input: Input) returns (r: Result<Report>)
      requires spec.windowSize > 0 && spec.pageSize > 0 && input.hash == setting.hash
      modifies this`aggregates, this`checkpoints, this`claims
      ensures (View(spec), r) == RunOnce(old(View(spec)), spec, input)
    {
      hide Body;
      if input.watermark <= spec.initialStart {
        return Err(InvalidUsage);
      }
      var claim :- AcquireClaim(spec.scope, spec.claimId, input.owner, input.now + input.lease, input.now);
      r := RunClaimed(spec, input);
      var released := ReleaseClaim(spec.scope, spec.claimId, claim, input.now);
      match released {
        case Ok(_) =>
        case Err(error) => r := if r.Ok? then Err(error) else r;
      }
    }
  }

  function Continued(items: seq<Item>, rest: Result<(seq<Event>, seq<Item>)>): Result<(seq<Event>, seq<Item>)> {
    match rest
    case Ok((rows, more)) => Ok((rows, items + more))
    case Err(error) => Err(error)
  }

  lemma ContinuedNothing(rest: Result<(seq<Event>, seq<Item>)>)
    ensures Continued([], rest) == rest
  {
    if rest.Ok? {
      assert [] + rest.value.1 == rest.value.1;
    }
  }

  lemma ContinuedStep(items: seq<Item>, item: Item, rest: Result<(seq<Event>, seq<Item>)>)
    ensures Continued(items, Continued([item], rest)) == Continued(items + [item], rest)
  {
    if rest.Ok? {
      assert items + ([item] + rest.value.1) == (items + [item]) + rest.value.1;
    }
  }

  lemma NormalizedIsNonempty(events: seq<Event>, setting: Setting)
    requires NormalizeBatch(events, setting).Ok?
    ensures |NormalizeBatch(events, setting).value| > 0
  {
    hide NormalizeOne, OneScope, UniqueIds;
  }
}
