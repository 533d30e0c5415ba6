/** Deterministic aggregation of an event set into immutable aggregate versions. */
module Aggregation {
  import opened Prelude
  import opened Digits
  import opened Orders
  import opened Canonical
  import opened Decimals
  import opened Recovery
  import opened Events
  import opened Totals

  const SECOND := 1_000_000
  const MAX_ARRAY := 256

  /** `meter_id` to `algorithm` of an aggregation spec; durations and instants in microseconds. */
  datatype Spec = Spec(
    scope: Labels,
    meterId: string,
    meterVersion: int,
    initialStart: int,
    windowSize: int,
    dimensions: seq<string>,
    allowedLateness: int,
    checkpointId: string,
    claimId: string,
    pageSize: nat,
    algorithm: string)
  {
    /** What the constructor establishes. */
    ghost predicate Valid() {
      && windowSize > 0 && windowSize % SECOND == 0
      && allowedLateness >= 0 && allowedLateness % SECOND == 0
      && 1 <= pageSize <= 500
      && Sorted(TextLess, dimensions) && Unique(dimensions)
    }
  }

  datatype Aggregate = Aggregate(
    aggregateId: string,
    revision: nat,
    scope: Labels,
    meterId: string,
    meterVersion: int,
    start: int,
    end: int,
    dimensions: Labels,
    total: Decimal,
    eventCount: nat,
    watermark: int,
    sourceFingerprint: string,
    createdAt: int,
    supersedes: Option<string>,
    algorithm: string,
    correlation: Labels)

  function VersionId(aggregateId: string, revision: nat): string {
    aggregateId + "@" + Numeral(revision)
  }

  /** Everything one call of `aggregate_events` is given besides the events and the previous versions. */
  datatype Job = Job(spec: Spec, watermark: int, createdAt: int, ambient: Labels, hash: Hash)

  // ---- Groups ----

  /** `UsageWindow.bucket(instant, size).start`. */
  function Bucket(instant: int, size: int): int
    requires size > 0
  {
    instant / size * size
  }

  /** The bucket is the one aligned window of its size that contains the instant. */
  lemma BucketContains(instant: int, size: int, start: int)
    requires size > 0 && start % size == 0
    ensures start == Bucket(instant, size) <==> start <= instant < start + size
  {
    var q, k := instant / size, start / size;
    assert instant == q * size + instant % size && start == k * size;
    if k < q {
      ScaleMonotone(k + 1, q, size);
      assert (k + 1) * size == k * size + size;
    } else if q < k {
      ScaleMonotone(q + 1, k, size);
      assert (q + 1) * size == q * size + size;
    }
  }

  lemma BucketAligned(instant: int, size: int)
    requires size > 0
    ensures Bucket(instant, size) % size == 0
    ensures Bucket(instant, size) <= instant < Bucket(instant, size) + size
  {
    AlignedMultiple(instant / size, size);
  }

  lemma AlignedMultiple(q: int, size: int)
    requires size > 0
    ensures q * size % size == 0
  {
    var k, r := q * size / size, q * size % size;
    assert q * size == k * size + r;
    assert r == (q - k) * size;
    if q - k >= 1 {
      ScaleMonotone(1, q - k, size);
    } else if q - k <= -1 {
      ScaleMonotone(q - k, -1, size);
    }
  }

  datatype GroupKey = GroupKey(start: int, dimensions: Labels)

  function Text(labels: Labels, name: string): Option<string> {
    if labels == [] then None
    else if labels[0].name == name then Some(labels[0].text)
    else Text(labels[1..], name)
  }

  /** The labels named by the spec that are present, in the spec's order. */
  function Select(labels: Labels, names: seq<string>): Labels {
    if names == [] then []
    else
      match Text(labels, names[0])
      case None => Select(labels, names[1..])
      case Some(text) => [Label(names[0], text)] + Select(labels, names[1..])
  }

  function KeyOf(e: Event, spec: Spec): GroupKey
    requires spec.windowSize > 0
  {
    GroupKey(Bucket(e.start, spec.windowSize), Select(e.dimensions, spec.dimensions))
  }

  predicate Matches(e: Event, spec: Spec) {
    e.scope == spec.scope && (e.meterId, e.meterVersion) == (spec.meterId, spec.meterVersion)
  }

  predicate Grouped(e: Event, key: GroupKey, spec: Spec, watermark: int)
    requires spec.windowSize > 0
  {
    e.start < watermark && KeyOf(e, spec) == key
  }

  /** The members of one group, in input order. */
  function Members(events: seq<Event>, key: GroupKey, spec: Spec, watermark: int): seq<Event>
    requires spec.windowSize > 0
  {
    if events == [] then []
    else
      var n := |events| - 1;
      var before := Members(events[..n], key, spec, watermark);
      if Grouped(events[n], key, spec, watermark) then before + [events[n]] else before
  }

  /** The groups, in order of first appearance. */
  function Groups(events: seq<Event>, spec: Spec, watermark: int): seq<GroupKey>
    requires spec.windowSize > 0
  {
    if events == [] then []
    else
      var n := |events| - 1;
      var before := Groups(events[..n], spec, watermark);
      var key := KeyOf(events[n], spec);
      if events[n].start < watermark && key !in before then before + [key] else before
  }

  predicate LabelLess(a: Label, b: Label) {
    TextLess(a.name, b.name) || (a.name == b.name && TextLess(a.text, b.text))
  }

  predicate KeyLess(a: GroupKey, b: GroupKey) {
    a.start < b.start || (a.start == b.start && LexLess(LabelLess, a.dimensions, b.dimensions))
  }

  lemma KeyOrder()
    ensures StrictTotalOrder(KeyLess)
  {
    hide LexLess, TextLess;
    LabelOrder();
    forall a: Labels ensures !LexLess(LabelLess, a, a) { LexIrreflexive(LabelLess, a); }
    forall a: Labels, b: Labels, c: Labels | LexLess(LabelLess, a, b) && LexLess(LabelLess, b, c)
      ensures LexLess(LabelLess, a, c)
    {
      LexTransitive(LabelLess, a, b, c);
    }
    forall a: Labels, b: Labels
      ensures a == b || LexLess(LabelLess, a, b) || LexLess(LabelLess, b, a)
    {
      LexConnected(LabelLess, a, b);
    }
  }

  lemma LabelOrder()
    ensures StrictTotalOrder(LabelLess)
  {
    hide LexLess, TextLess;
    TextOrder();
  }

  /** The groups in processing order. */
  function SortedGroups(events: seq<Event>, spec: Spec, watermark: int): seq<GroupKey>
    requires spec.windowSize > 0
  {
    Sort(KeyLess, Groups(events, spec, watermark))
  }

  // ---- Identities ----

  function SpecJson(spec: Spec, hash: Hash): Json {
    Obj([
      Entry("algorithm", Str(spec.algorithm)),
      Entry("allowedLatenessSeconds", Int(spec.allowedLateness / SECOND)),
      Entry("dimensions", Arr(TextItems(spec.dimensions))),
      Entry("initialStart", Int(spec.initialStart)),
      Entry("meterId", Str(spec.meterId)),
      Entry("meterVersion", Int(spec.meterVersion)),
      Entry("scopeFingerprint", Str(Digest(LabelsJson(spec.scope), hash))),
      Entry("windowSeconds", Int(spec.windowSize / SECOND))
    ])
  }

  /** `AggregationSpec.fingerprint`: everything that shapes the result; not the page size or the coordination ids. */
  function SpecFingerprint(spec: Spec, hash: Hash): string {
    Digest(SpecJson(spec, hash), hash)
  }

  function GroupJson(spec: Spec, key: GroupKey, hash: Hash): Json {
    Obj([
      Entry("dimensions", LabelsJson(key.dimensions)),
      Entry("spec", Str(SpecFingerprint(spec, hash))),
      Entry("window", Obj([Entry("end", Int(key.start + spec.windowSize)), Entry("start", Int(key.start))]))
    ])
  }

  function AggregateId(spec: Spec, key: GroupKey, hash: Hash): string {
    "aggregate-" + Digest(GroupJson(spec, key, hash), hash)
  }

  function Fingerprints(events: seq<Event>, hash: Hash): (r: seq<string>)
    ensures |r| == |events| && forall i :: 0 <= i < |r| ==> r[i] == Fingerprint(events[i], hash)
  {
    seq(|events|, i requires 0 <= i < |events| => Fingerprint(events[i], hash))
  }

  /** `event_set_fingerprint`; the encoder refuses arrays of more than 256 items. */
  function SetFingerprint(events: seq<Event>, hash: Hash): Result<string> {
    if |events| > MAX_ARRAY then Err(InvalidUsage)
    else Ok(Digest(Arr(TextItems(Sort(TextLess, Fingerprints(events, hash)))), hash))
  }

  /**
    That refusal is the encoder's: over fingerprints short enough to encode, the digest is that of the canonical array.
   */
  lemma SetFingerprintIsCanonical(events: seq<Event>, hash: Hash)
    requires forall i :: 0 <= i < |events| ==> BoundedText(Fingerprint(events[i], hash), 4096)
    ensures CanonicalText(Arr(TextItems(Sort(TextLess, Fingerprints(events, hash))))).Err? <==> |events| > MAX_ARRAY
    ensures SetFingerprint(events, hash)
            == match CanonicalText(Arr(TextItems(Sort(TextLess, Fingerprints(events, hash)))))
               case Ok(text) => Ok(hash(text))
               case Err(error) => Err(error)
  {
    hide Fingerprint, BoundedText, NormalForm, TextLess, Sort;
    var sorted := Sort(TextLess, Fingerprints(events, hash));
    forall i | 0 <= i < |sorted| ensures BoundedText(sorted[i], 4096) {
      SameElements(sorted, Fingerprints(events, hash), sorted[i]);
    }
    TextArrayExactly(sorted, 0);
  }

  function Values(events: seq<Event>): (r: seq<Decimal>)
    ensures |r| == |events| && forall i :: 0 <= i < |r| ==> r[i] == events[i].value
  {
    seq(|events|, i requires 0 <= i < |events| => events[i].value)
  }

  // ---- One call ----

  /** A new version of a group, over the current one if there is any. */
  function NewVersion(key: GroupKey, members: seq<Event>, source: string, current: Option<Aggregate>,
      job: Job): Result<Aggregate> {
    var id := AggregateId(job.spec, key, job.hash);
    var total :- StorageResult(RunningSum(Values(members)));
    Ok(Aggregate(
      id,
      if current.None? then 1 else current.value.revision + 1,
      job.spec.scope,
      job.spec.meterId,
      job.spec.meterVersion,
      key.start,
      key.start + job.spec.windowSize,
      key.dimensions,
      total,
      |members|,
      job.watermark,
      source,
      job.createdAt,
      if current.None? then None else Some(VersionId(current.value.aggregateId, current.value.revision)),
      job.spec.algorithm,
      job.ambient))
  }

  function Prior(previous: map<string, Aggregate>, id: string): Option<Aggregate> {
    if id in previous then Some(previous[id]) else None
  }

  /**
    The version planned for a group over its current one: that one if it has the same sources, otherwise its successor.
   */
  function Planned(key: GroupKey, members: seq<Event>, current: Option<Aggregate>, job: Job): Result<Aggregate> {
    var source :- SetFingerprint(members, job.hash);
    if current.Some? && current.value.sourceFingerprint == source then Ok(current.value)
    else NewVersion(key, members, source, current, job)
  }

  function AggregateGroup(key: GroupKey, members: seq<Event>, previous: map<string, Aggregate>,
      job: Job): Result<Aggregate> {
    Planned(key, members, Prior(previous, AggregateId(job.spec, key, job.hash)), job)
  }

  function AggregateGroups(keys: seq<GroupKey>, events: seq<Event>, previous: map<string, Aggregate>,
      job: Job): Result<seq<Aggregate>>
    requires job.spec.windowSize > 0
  {
    if keys == [] then Ok([])
    else
      var first :- AggregateGroup(keys[0], Members(events, keys[0], job.spec, job.watermark), previous, job);
      var rest :- AggregateGroups(keys[1..], events, previous, job);
      Ok([first] + rest)
  }

  function AggregateAll(events: seq<Event>, previous: map<string, Aggregate>, job: Job): Result<seq<Aggregate>>
    requires job.spec.windowSize > 0
  {
    if exists i :: 0 <= i < |events| && !Matches(events[i], job.spec) then Err(InvalidUsage)
    else AggregateGroups(SortedGroups(events, job.spec, job.watermark), events, previous, job)
  }

  /** Filling the groups, one event further. */
  lemma OneEventFurther(events: seq<Event>, i: nat, spec: Spec, watermark: int)
    requires spec.windowSize > 0 && i < |events|
    ensures var before, after := events[..i], events[..i + 1];
            var skipped, key := events[i].start >= watermark, KeyOf(events[i], spec);
            && Groups(after, spec, watermark)
               == (if skipped || key in Groups(before, spec, watermark) then Groups(before, spec, watermark)
                   else Groups(before, spec, watermark) + [key])
            && forall k ::
                 Members(after, k, spec, watermark)
                 == if skipped || k != key then Members(before, k, spec, watermark)
                    else Members(before, k, spec, watermark) + [events[i]]
  {
    hide KeyOf;
    assert events[..i + 1][..i] == events[..i];
  }

  /** `aggregate_events`: fill the groups, then build one version per group in key order. */
  method AggregateEvents(events: seq<Event>, previous: map<string, Aggregate>,
      job: Job) returns (r: Result<seq<Aggregate>>)
    requires job.spec.windowSize > 0
    ensures r == AggregateAll(events, previous, job)
  {
    hide AggregateGroup, KeyOf, Matches, KeyLess, Members, Groups, Sort, AggregateGroups;
    NothingGrouped(job.spec, job.watermark);
    var spec, watermark := job.spec, job.watermark;
    assert events[..0] == [];
    var keys: seq<GroupKey> := [];
    var groups: map<GroupKey, seq<Event>> := map[];
    for i := 0 to |events|
      invariant forall j :: 0 <= j < i ==> Matches(events[j], spec)
      invariant keys == Groups(events[..i], spec, watermark)
      invariant forall k :: k in keys <==> k in groups
      invariant forall k :: k in groups ==> groups[k] == Members(events[..i], k, spec, watermark)
      invariant forall k :: k !in groups ==> Members(events[..i], k, spec, watermark) == []
    {
      var event := events[i];
      if !Matches(event, spec) {
        return Err(InvalidUsage);
      }
      OneEventFurther(events, i, spec, watermark);
      if event.start >= watermark {
        continue;
      }
      var key := KeyOf(event, spec);
      if key !in groups {
        keys := keys + [key];
        groups := groups[key := []];
      }
      groups := groups[key := groups[key] + [event]];
    }
    assert events[..|events|] == events;
    forall k | k in Sort(KeyLess, keys) ensures k in keys { SameElements(Sort(KeyLess, keys), keys, k); }
    r := BuildVersions(Sort(KeyLess, keys), groups, events, previous, job);
  }

  lemma NothingGrouped(spec: Spec, watermark: int)
    requires spec.windowSize > 0
    ensures Groups([], spec, watermark) == [] && forall k :: Members([], k, spec, watermark) == []
  {
  }

  method BuildVersions(sorted: seq<GroupKey>, groups: map<GroupKey, seq<Event>>, events: seq<Event>,
      previous: map<string, Aggregate>, job: Job)
    returns (r: Result<seq<Aggregate>>)
    requires job.spec.windowSize > 0
    requires forall k :: k in sorted ==> k in groups && groups[k] == Members(events, k, job.spec, job.watermark)
    ensures r == AggregateGroups(sorted, events, previous, job)
  {
    hide AggregateGroup, Members;
    var aggregates: seq<Aggregate> := [];
    ghost var all := AggregateGroups(sorted, events, previous, job);
    assert sorted[0..] == sorted;
    PrependNothing(all);
    for i := 0 to |sorted|
      invariant all == Prepend(aggregates, AggregateGroups(sorted[i..], events, previous, job))
    {
      var aggregate :- AggregateGroup(sorted[i], groups[sorted[i]], previous, job);
      assert sorted[i..][1..] == sorted[i + 1..];
      PrependStep(aggregates, aggregate, AggregateGroups(sorted[i + 1..], events, previous, job));
      aggregates := aggregates + [aggregate];
    }
    assert sorted[|sorted|..] == [];
    PrependEnd(aggregates);
    return Ok(aggregates);
  }
}
