/** Batches: normalized together, then recorded atomically or item by item, under one replayable manifest. */
module Batches {
  import opened Prelude
  import opened Canonical
  import opened Recovery
  import opened Meters
  import opened Events
  import opened Aggregation
  import opened Recording
  import opened AggregationLaws
  import opened Orders
  import StoredRecords

  const MAX_BATCH := 1000

  datatype Mode = Atomic | Partitioned

  /** One item's outcome, under the fingerprint of the batch's normalized event. */
  datatype Item = Item(eventId: string, outcome: Result<Status>, fingerprint: string)

  datatype Manifest = Manifest(batchId: string, scope: Labels, mode: Mode, fingerprint: string, items: seq<Item>)

  datatype BatchReceipt = BatchReceipt(manifest: Manifest, replayed: bool)

  /** What recording reads besides the rows: registered meters, ambient correlation, digest. */
  datatype Setting = Setting(meters: map<(string, int), Meter>, ambient: Labels, hash: Hash)
  {
    ghost predicate Valid() {
      forall k :: k in meters ==> meters[k].Valid()
    }
  }

  function MeterOf(e: Event, setting: Setting): Result<Meter> {
    var key := (e.meterId, e.meterVersion);
    if key in setting.meters then Ok(setting.meters[key]) else Err(UnknownMeter)
  }

  function NormalizeOne(e: Event, setting: Setting): Result<Event> {
    var m :- MeterOf(e, setting);
    NormalizeEvent(e, m, setting.ambient)
  }

  function NormalizeEach(events: seq<Event>, setting: Setting): (r: Result<seq<Event>>)
    ensures r.Ok? ==> |r.value| == |events|
  {
    if events == [] then Ok([])
    else
      var first :- NormalizeOne(events[0], setting);
      var rest :- NormalizeEach(events[1..], setting);
      Ok([first] + rest)
  }

  predicate OneScope(events: seq<Event>) {
    forall i :: 0 <= i < |events| ==> events[i].scope == events[0].scope
  }

  predicate UniqueIds(events: seq<Event>) {
    forall i, j :: 0 <= i < j < |events| ==> events[i].eventId != events[j].eventId
  }

  /** `_normalize_batch`. */
  function NormalizeBatch(events: seq<Event>, setting: Setting): Result<seq<Event>> {
    if !(1 <= |events| <= MAX_BATCH) then Err(InvalidUsage)
    else
      var normalized :- NormalizeEach(events, setting);
      if !OneScope(normalized) || !UniqueIds(normalized) then Err(InvalidUsage) else Ok(normalized)
  }

  function ModeText(mode: Mode): string {
    match mode
    case Atomic => "atomic"
    case Partitioned => "partitioned"
  }

  function BatchJson(mode: Mode, events: seq<Event>, hash: Hash): Json {
    Obj([
      Entry("eventFingerprints", Arr(TextItems(Fingerprints(events, hash)))),
      Entry("mode", Str(ModeText(mode)))
    ])
  }

  /** The digest over mode and event fingerprints, in batch order; the encoder refuses more than 256 of them. */
  function BatchFingerprint(mode: Mode, events: seq<Event>, hash: Hash): Result<string> {
    if |events| > MAX_ARRAY then Err(InvalidUsage)
    else Ok(Digest(BatchJson(mode, events, hash), hash))
  }

  /** `record` of a batch event: it is normalized once more. */
  function RecordAgain(rows: seq<Event>, e: Event, setting: Setting): (seq<Event>, Result<Receipt>) {
    match MeterOf(e, setting)
    case Err(error) => (rows, Err(error))
    case Ok(m) => Record(rows, e, m, setting.ambient, setting.hash)
  }

  function ItemOf(e: Event, r: Result<Receipt>, hash: Hash): Item {
    Item(e.eventId, match r case Ok(receipt) => Ok(receipt.status) case Err(error) => Err(error), Fingerprint(e, hash))
  }

  /** The body of the transaction: the first failure ends it. */
  function AtomicItems(rows: seq<Event>, events: seq<Event>, setting: Setting): Result<(seq<Event>, seq<Item>)>
    decreases |events|
  {
    if events == [] then Ok((rows, []))
    else
      var (more, r) := RecordAgain(rows, events[0], setting);
      var _ :- r;
      var rest :- AtomicItems(more, events[1..], setting);
      Ok((rest.0, [ItemOf(events[0], r, setting.hash)] + rest.1))
  }

  function PartitionedItems(rows: seq<Event>, events: seq<Event>, setting: Setting): (r: (seq<Event>, seq<Item>))
    ensures |r.1| == |events|
    decreases |events|
  {
    if events == [] then (rows, [])
    else
      var (more, r) := RecordAgain(rows, events[0], setting);
      var rest := PartitionedItems(more, events[1..], setting);
      (rest.0, [ItemOf(events[0], r, setting.hash)] + rest.1)
  }

  function BatchItems(rows: seq<Event>, events: seq<Event>, mode: Mode,
      setting: Setting): Result<(seq<Event>, seq<Item>)> {
    match mode
    case Atomic => AtomicItems(rows, events, setting)
    case Partitioned => Ok(PartitionedItems(rows, events, setting))
  }

  /** Event rows and batch manifests. */
  datatype Store = Store(rows: seq<Event>, batches: map<(Labels, string), Manifest>)

  function ReplayedBatch(persisted: Manifest, fingerprint: string): Result<BatchReceipt> {
    if persisted.fingerprint != fingerprint then Err(UsageConflict) else Ok(BatchReceipt(persisted, true))
  }

  /**
    `record_batch` on a store that nobody else is writing to. A failing atomic batch is rolled back and leaves no
    manifest.
   */
  function RecordBatch(store: Store, events: seq<Event>, batchId: Option<string>, mode: Mode,
      setting: Setting): (Store, Result<BatchReceipt>) {
    match NormalizeBatch(events, setting)
    case Err(error) => (store, Err(error))
    case Ok(normalized) =>
      match BatchFingerprint(mode, normalized, setting.hash)
      case Err(error) => (store, Err(error))
      case Ok(fingerprint) =>
        var id := if batchId.Some? then batchId.value else "batch-" + fingerprint;
        var scope := normalized[0].scope;
        if (scope, id) in store.batches then
          (store, ReplayedBatch(store.batches[(scope, id)], fingerprint))
        else
          match BatchItems(store.rows, normalized, mode, setting)
          case Err(error) => (store, Err(error))
          case Ok((rows, items)) =>
            var manifest := Manifest(id, scope, mode, fingerprint, items);
            (Store(rows, store.batches[(scope, id) := manifest]), Ok(BatchReceipt(manifest, false)))
  }

  /** Exactly the events whose meter id and version are not registered are refused as such. */
  lemma UnregisteredMeterFails(e: Event, setting: Setting)
    requires setting.Valid() && Constructed(e)
    ensures NormalizeOne(e, setting) == Err(UnknownMeter) <==> (e.meterId, e.meterVersion) !in setting.meters
    ensures NormalizeOne(e, setting).Ok? ==>
              NormalizeOne(e, setting)
              == NormalizeEvent(e, setting.meters[(e.meterId, e.meterVersion)], setting.ambient)
  {
    hide Events.Normalized, Construct;
    if (e.meterId, e.meterVersion) in setting.meters {
      CapturedIsConstructed(e, setting.ambient);
      NormalizationKnowsMeter(WithCapturedCorrelation(e, setting.ambient),
                              setting.meters[(e.meterId, e.meterVersion)]);
    }
  }

  // ---- Double normalization ----

  ghost predicate Settled(e: Event, setting: Setting) {
    && MeterOf(e, setting).Ok?
    && NormalizeEvent(e, MeterOf(e, setting).value, setting.ambient) == Ok(e)
  }

  lemma NormalizeOneSettles(e: Event, setting: Setting)
    requires setting.Valid() && Constructed(e) && NormalizeOne(e, setting).Ok?
    ensures Settled(NormalizeOne(e, setting).value, setting)
  {
    hide NormalizeEvent, Construct;
    var m := MeterOf(e, setting).value;
    NormalizingAgainChangesNothing(e, m, setting.ambient);
    NormalizedKeepsMeter(e, m, setting.ambient);
  }

  lemma NormalizedKeepsMeter(e: Event, m: Meter, ambient: Labels)
    requires m.Valid() && Constructed(e) && NormalizeEvent(e, m, ambient).Ok?
    ensures var n := NormalizeEvent(e, m, ambient).value; n.meterId == e.meterId && n.meterVersion == e.meterVersion
  {
    hide Events.Normalized, Construct;
    CapturedIsConstructed(e, ambient);
    NormalizedFields(WithCapturedCorrelation(e, ambient), m);
  }

  ghost predicate AllSettled(events: seq<Event>, setting: Setting) {
    forall i :: 0 <= i < |events| ==> Settled(events[i], setting)
  }

  lemma {:induction false} NormalizeEachSettles(events: seq<Event>, setting: Setting)
    requires setting.Valid() && NormalizeEach(events, setting).Ok?
    requires forall i :: 0 <= i < |events| ==> Constructed(events[i])
    ensures AllSettled(NormalizeEach(events, setting).value, setting)
  {
    hide Settled, NormalizeOne, Construct, Setting.Valid;
    if events != [] {
      NormalizeOneSettles(events[0], setting);
      NormalizeEachSettles(events[1..], setting);
    }
  }

  /** Recording a settled event is recording it as it stands. */
  lemma SettledRecords(rows: seq<Event>, e: Event, setting: Setting)
    requires Settled(e, setting)
    ensures RecordAgain(rows, e, setting) == RecordNormalized(rows, e, setting.hash)
  {
    hide RecordNormalized, NormalizeEvent;
  }

  /** A transaction body over settled events records them all, in order, or fails. */
  lemma {:induction false} AtomicIsRecordAll(rows: seq<Event>, events: seq<Event>, setting: Setting)
    requires AllSettled(events, setting)
    ensures AtomicItems(rows, events, setting).Ok? <==> RecordAll(rows, events, setting.hash).Ok?
    ensures AtomicItems(rows, events, setting).Err? ==>
              AtomicItems(rows, events, setting).error == RecordAll(rows, events, setting.hash).error
    ensures AtomicItems(rows, events, setting).Ok? ==>
              var (more, items) := AtomicItems(rows, events, setting).value;
              var (rows', receipts) := RecordAll(rows, events, setting.hash).value;
              && more == rows' && |items| == |receipts| == |events|
              && forall i :: 0 <= i < |events| ==> items[i] == ItemOf(events[i], Ok(receipts[i]), setting.hash)
    decreases |events|
  {
    hide RecordNormalized, Settled, Fingerprint, RecordAgain;
    if events != [] {
      SettledRecords(rows, events[0], setting);
      AtomicIsRecordAll(RecordNormalized(rows, events[0], setting.hash).0, events[1..], setting);
    }
  }

  // ---- What a batch leaves behind ----

  /** An item that did not fail names a stored event by its fingerprint. */
  ghost predicate Backed(rows: seq<Event>, scope: Labels, item: Item, hash: Hash) {
    item.outcome.Ok? ==>
      exists e :: e in rows && e.scope == scope && e.eventId == item.eventId && Fingerprint(e, hash) == item.fingerprint
  }

  lemma BackedGrows(rows: seq<Event>, more: seq<Event>, scope: Labels, item: Item, hash: Hash)
    requires Backed(rows, scope, item, hash) && rows <= more
    ensures Backed(more, scope, item, hash)
  {
    hide Fingerprint;
    if item.outcome.Ok? {
      var e :| e in rows && e.scope == scope && e.eventId == item.eventId && Fingerprint(e, hash) == item.fingerprint;
      assert e in more;
    }
  }

  /** The events whose items say that this call recorded them. */
  function NewlyRecorded(events: seq<Event>, items: seq<Item>): seq<Event>
    requires |events| == |items|
  {
    if events == [] then []
    else (if items[0].outcome == Ok(Recorded) then [events[0]] else []) + NewlyRecorded(events[1..], items[1..])
  }

  lemma OneItem(rows: seq<Event>, e: Event, setting: Setting)
    requires Sound(rows) && Settled(e, setting)
    ensures var (more, r) := RecordAgain(rows, e, setting);
            var item := ItemOf(e, r, setting.hash);
            && Sound(more) && rows <= more
            && Backed(more, e.scope, item, setting.hash)
            && more == rows + if item.outcome == Ok(Recorded) then [e] else []
  {
    hide Fingerprint, Settled, Sound, RecordAgain, CorrectionHolds;
    SettledRecords(rows, e, setting);
    RecordKeeps(rows, e, setting.hash);
    assert rows + [] == rows;
  }

  /** Partitioned batches: every surviving item is backed, and exactly the newly recorded events were appended. */
  lemma {:induction false} PartitionedIsBacked(rows: seq<Event>, events: seq<Event>, setting: Setting)
    requires Sound(rows) && AllSettled(events, setting)
    ensures var (more, items) := PartitionedItems(rows, events, setting);
            && |items| == |events| && Sound(more) && rows <= more
            && more == rows + NewlyRecorded(events, items)
            && forall i :: 0 <= i < |items| ==> Backed(more, events[i].scope, items[i], setting.hash)
    decreases |events|
  {
    hide Fingerprint, Settled, Sound, RecordAgain, Backed, ItemOf;
    if events == [] {
      assert rows + [] == rows;
    } else {
      var (next, r) := RecordAgain(rows, events[0], setting);
      OneItem(rows, events[0], setting);
      PartitionedIsBacked(next, events[1..], setting);
      var (more, items) := PartitionedItems(rows, events, setting);
      BackedGrows(next, more, events[0].scope, items[0], setting.hash);
      AppendedTogether(rows, next, more, events, items);
      forall i | 0 <= i < |items| ensures Backed(more, events[i].scope, items[i], setting.hash) {
        if i > 0 {
          assert items[i] == items[1..][i - 1] && events[i] == events[1..][i - 1];
        }
      }
    }
  }

  lemma AppendedTogether(rows: seq<Event>, next: seq<Event>, more: seq<Event>, events: seq<Event>, items: seq<Item>)
    requires |events| == |items| > 0
    requires next == rows + if items[0].outcome == Ok(Recorded) then [events[0]] else []
    requires more == next + NewlyRecorded(events[1..], items[1..])
    ensures more == rows + NewlyRecorded(events, items)
  {
    var first := if items[0].outcome == Ok(Recorded) then [events[0]] else [];
    Associative(rows, first, NewlyRecorded(events[1..], items[1..]));
  }

  lemma Associative(a: seq<Event>, b: seq<Event>, c: seq<Event>)
    ensures a + b + c == a + (b + c)
  {
  }

  lemma {:induction false} AtomicIsBacked(rows: seq<Event>, events: seq<Event>, setting: Setting)
    requires Sound(rows) && AllSettled(events, setting) && AtomicItems(rows, events, setting).Ok?
    ensures var (more, items) := AtomicItems(rows, events, setting).value;
            && |items| == |events| && Sound(more) && rows <= more
            && forall i :: 0 <= i < |items| ==>
                items[i].outcome.Ok? && Backed(more, events[i].scope, items[i], setting.hash)
  {
    hide Fingerprint, Settled, Sound, AtomicItems, RecordAll;
    AtomicIsRecordAll(rows, events, setting);
    RecordAllKeeps(rows, events, setting.hash);
    var (more, receipts) := RecordAll(rows, events, setting.hash).value;
    var items := AtomicItems(rows, events, setting).value.1;
    forall i | 0 <= i < |items| ensures items[i].outcome.Ok? && Backed(more, events[i].scope, items[i], setting.hash) {
      assert receipts[i].event in more;
    }
  }

  /**
    A batch call that is alone on its store keeps the event store sound and append-only. Whatever its mode, every item
    that did not fail carries the fingerprint of the event that is stored under its id, although each event is
    normalized twice. A failed call stores nothing at all; a successful atomic one stores every event.
   */
  lemma BatchIsFaithful(store: Store, events: seq<Event>, batchId: Option<string>, mode: Mode, setting: Setting)
    requires setting.Valid() && Sound(store.rows)
    requires forall i :: 0 <= i < |events| ==> Constructed(events[i])
    ensures var (after, r) := RecordBatch(store, events, batchId, mode, setting);
            && Sound(after.rows) && store.rows <= after.rows
            && (r.Err? ==> after == store)
            && (r.Ok? && !r.value.replayed ==>
                  var m := r.value.manifest;
                  && |m.items| == |events|
                  && (forall i :: 0 <= i < |m.items| ==> Backed(after.rows, m.scope, m.items[i], setting.hash))
                  && (mode == Atomic ==> forall i :: 0 <= i < |m.items| ==> m.items[i].outcome.Ok?))
  {
    hide Fingerprint, AllSettled, Sound, Construct, AtomicItems, PartitionedItems, NormalizeEach, BatchFingerprint,
        Backed, UniqueIds;
    var (after, r) := RecordBatch(store, events, batchId, mode, setting);
    if r.Ok? && !r.value.replayed {
      NormalizeEachSettles(events, setting);
      var normalized := NormalizeBatch(events, setting).value;
      if mode == Atomic {
        AtomicIsBacked(store.rows, normalized, setting);
      } else {
        PartitionedIsBacked(store.rows, normalized, setting);
      }
    }
  }

  /** Each item of a partitioned batch is answered as recording it alone over the rows stored by then. */
  lemma {:induction false} PartitionedAnswers(rows: seq<Event>, events: seq<Event>, setting: Setting, i: nat)
    requires Sound(rows) && AllSettled(events, setting) && i < |events|
    ensures |PartitionedItems(rows, events, setting).1| == |events|
    ensures var items := PartitionedItems(rows, events, setting).1;
            var before := rows + NewlyRecorded(events[..i], items[..i]);
            var r := RecordNormalized(before, events[i], setting.hash).1;
            && items[i].eventId == events[i].eventId && items[i].fingerprint == Fingerprint(events[i], setting.hash)
            && items[i].outcome == match r case Ok(receipt) => Ok(receipt.status) case Err(error) => Err(error)
    decreases |events|
  {
    hide Fingerprint, Settled, Sound, RecordAgain, RecordNormalized;
    var (next, r) := RecordAgain(rows, events[0], setting);
    var items := PartitionedItems(rows, events, setting).1;
    SettledRecords(rows, events[0], setting);
    if i == 0 {
      assert rows + [] == rows;
    } else {
      OneItem(rows, events[0], setting);
      PartitionedAnswers(next, events[1..], setting, i - 1);
      assert events[..i][1..] == events[1..][..i - 1] && items[..i][1..] == items[1..][..i - 1];
      AppendedTogether(rows, next, next + NewlyRecorded(events[..i][1..], items[..i][1..]), events[..i], items[..i]);
    }
  }

  /** Each item of an atomic batch is answered as recording it over the rows before it; all of them succeed. */
  lemma {:induction false} AllReceipts(rows: seq<Event>, events: seq<Event>, hash: Hash, i: nat)
    requires Sound(rows) && RecordAll(rows, events, hash).Ok? && i < |events|
    ensures |RecordAll(rows, events, hash).value.1| == |events|
    ensures RecordAll(rows, events[..i], hash).Ok?
    ensures RecordNormalized(RecordAll(rows, events[..i], hash).value.0, events[i], hash).1
            == Ok(RecordAll(rows, events, hash).value.1[i])
    decreases |events|
  {
    hide Fingerprint, Sound, RecordNormalized;
    RecordAllKeeps(rows, events, hash);
    if i > 0 {
      RecordKeeps(rows, events[0], hash);
      AllReceipts(RecordNormalized(rows, events[0], hash).0, events[1..], hash, i - 1);
      assert events[..i][1..] == events[1..][..i - 1] && events[..i][0] == events[0];
    }
  }

  /** A new manifest names its batch: id, scope, mode, fingerprint, and the events in order. */
  lemma ManifestNamesBatch(store: Store, events: seq<Event>, batchId: Option<string>, mode: Mode, setting: Setting)
    requires setting.Valid() && forall i :: 0 <= i < |events| ==> Constructed(events[i])
    requires var r := RecordBatch(store, events, batchId, mode, setting).1; r.Ok? && !r.value.replayed
    ensures var (after, r) := RecordBatch(store, events, batchId, mode, setting);
            var m := r.value.manifest;
            && events != [] && m.scope == events[0].scope && m.mode == mode
            && NormalizeBatch(events, setting).Ok?
            && BatchFingerprint(mode, NormalizeBatch(events, setting).value, setting.hash) == Ok(m.fingerprint)
            && m.batchId == (if batchId.Some? then batchId.value else "batch-" + m.fingerprint)
            && after.batches == store.batches[(m.scope, m.batchId) := m] && (m.scope, m.batchId) !in store.batches
            && |m.items| == |events|
            && forall i :: 0 <= i < |events| ==> m.items[i].eventId == events[i].eventId
  {
    hide Fingerprint, AllSettled, Construct, AtomicItems, PartitionedItems, NormalizeEach, BatchFingerprint,
        UniqueIds, OneScope, Setting.Valid;
    NormalizedKeepsKeys(events, setting);
    NormalizeEachSettles(events, setting);
    var normalized := NormalizeBatch(events, setting).value;
    if mode == Atomic {
      AtomicNames(store.rows, normalized, setting);
    } else {
      PartitionedNames(store.rows, normalized, setting);
    }
  }

  lemma {:induction false} AtomicNames(rows: seq<Event>, events: seq<Event>, setting: Setting)
    requires AtomicItems(rows, events, setting).Ok?
    ensures var items := AtomicItems(rows, events, setting).value.1;
            |items| == |events| && forall i :: 0 <= i < |events| ==> items[i].eventId == events[i].eventId
    decreases |events|
  {
    hide RecordAgain, Fingerprint;
    if events != [] {
      AtomicNames(RecordAgain(rows, events[0], setting).0, events[1..], setting);
    }
  }

  lemma {:induction false} PartitionedNames(rows: seq<Event>, events: seq<Event>, setting: Setting)
    ensures var items := PartitionedItems(rows, events, setting).1;
            forall i :: 0 <= i < |events| ==> items[i].eventId == events[i].eventId
    decreases |events|
  {
    hide RecordAgain, Fingerprint;
    if events != [] {
      PartitionedNames(RecordAgain(rows, events[0], setting).0, events[1..], setting);
    }
  }

  /** Submitting the same batch again returns the same manifest and changes nothing. */
  lemma BatchReplays(store: Store, events: seq<Event>, batchId: Option<string>, mode: Mode, setting: Setting)
    requires RecordBatch(store, events, batchId, mode, setting).1.Ok?
    ensures var (after, r) := RecordBatch(store, events, batchId, mode, setting);
            RecordBatch(after, events, batchId, mode, setting) == (after, Ok(BatchReceipt(r.value.manifest, true)))
  {
    hide NormalizeBatch, BatchFingerprint, BatchItems;
  }

  // ---- What a batch fingerprint fixes ----

  lemma BatchJsonFixes(a: Mode, xs: seq<Event>, b: Mode, ys: seq<Event>, hash: Hash)
    requires BatchJson(a, xs, hash) == BatchJson(b, ys, hash)
    ensures a == b && Fingerprints(xs, hash) == Fingerprints(ys, hash)
  {
    hide Fingerprint, TextItems;
    var p, q := BatchJson(a, xs, hash), BatchJson(b, ys, hash);
    assert p.entries[1].value == q.entries[1].value && p.entries[0].value == q.entries[0].value;
    ModesDiffer();
    TextItemsInjective(Fingerprints(xs, hash), Fingerprints(ys, hash));
  }

  lemma ModesDiffer()
    ensures ModeText(Atomic) != ModeText(Partitioned)
  {
    assert |ModeText(Atomic)| != |ModeText(Partitioned)|;
  }

  /** Batches with one fingerprint have one mode and the same events, in the same order. */
  lemma BatchFingerprintFixesBatch(a: Mode, xs: seq<Event>, b: Mode, ys: seq<Event>, hash: Hash)
    requires Injective(hash) && BatchFingerprint(a, xs, hash).Ok?
    requires BatchFingerprint(a, xs, hash) == BatchFingerprint(b, ys, hash)
    ensures a == b && |xs| == |ys| && forall i :: 0 <= i < |xs| ==> Fingerprint(xs[i], hash) == Fingerprint(ys[i], hash)
  {
    hide Injective, Digest, BatchJson, Fingerprint;
    DigestInjective(BatchJson(a, xs, hash), BatchJson(b, ys, hash), hash);
    BatchJsonFixes(a, xs, b, ys, hash);
    var p, q := Fingerprints(xs, hash), Fingerprints(ys, hash);
    assert |p| == |q| && forall i :: 0 <= i < |p| ==> p[i] == q[i];
  }

  /** Of metered events every field and text is fixed; the original value may differ in padding only. */
  lemma BatchFingerprintFixesEvents(a: Mode, xs: seq<Event>, b: Mode, ys: seq<Event>, hash: Hash, i: nat)
    requires Injective(hash) && BatchFingerprint(a, xs, hash).Ok? && AllMetered(xs) && AllMetered(ys)
    requires BatchFingerprint(a, xs, hash) == BatchFingerprint(b, ys, hash) && i < |xs|
    ensures |xs| == |ys| && xs[i] == ys[i].(originalValue := xs[i].originalValue)
    ensures StoredRecords.TextOf(xs[i].originalValue) == StoredRecords.TextOf(ys[i].originalValue)
  {
    hide Injective, BatchFingerprint, Fingerprint, Metered, StoredRecords.TextOf;
    BatchFingerprintFixesBatch(a, xs, b, ys, hash);
    FingerprintFixesEvent(xs[i], ys[i], hash);
  }

  /**
    A call under the id of a stored batch records nothing: it replays that batch's manifest if it is that batch again,
    mode, events and order, and fails with a conflict otherwise.
   */
  lemma TakenIdReplaysOrConflicts(store: Store, stored: seq<Event>, storedMode: Mode, id: string, events: seq<Event>,
      mode: Mode, setting: Setting)
    requires Injective(setting.hash) && NormalizeBatch(events, setting).Ok? && |events| <= MAX_ARRAY && stored != []
    requires NormalizeBatch(events, setting).value[0].scope == stored[0].scope
    requires (stored[0].scope, id) in store.batches && BatchFingerprint(storedMode, stored, setting.hash).Ok?
    requires var fingerprint := BatchFingerprint(storedMode, stored, setting.hash).value;
             store.batches[(stored[0].scope, id)].fingerprint == fingerprint
    ensures var again := NormalizeBatch(events, setting).value;
            var (after, r) := RecordBatch(store, events, Some(id), mode, setting);
            && after == store
            && if mode == storedMode && Fingerprints(again, setting.hash) == Fingerprints(stored, setting.hash) then
                 r == Ok(BatchReceipt(store.batches[(stored[0].scope, id)], true))
               else r == Err(UsageConflict)
  {
    hide Injective, Fingerprint, NormalizeEach, OneScope, UniqueIds, Digest;
    var again := NormalizeBatch(events, setting).value;
    if BatchFingerprint(mode, again, setting.hash) == BatchFingerprint(storedMode, stored, setting.hash) {
      BatchFingerprintFixesBatch(mode, again, storedMode, stored, setting.hash);
      assert Fingerprints(again, setting.hash) == Fingerprints(stored, setting.hash);
    }
  }

  // ---- When a batch succeeds ----

  lemma {:induction false} NormalizesEach(events: seq<Event>, setting: Setting)
    ensures NormalizeEach(events, setting).Ok?
            <==> forall i :: 0 <= i < |events| ==> NormalizeOne(events[i], setting).Ok?
  {
    hide NormalizeOne;
    if events != [] {
      NormalizesEach(events[1..], setting);
      forall i | 0 < i < |events| ensures events[i] == events[1..][i - 1] {
      }
    }
  }

  lemma {:induction false} NormalizedAt(events: seq<Event>, setting: Setting, i: nat)
    requires NormalizeEach(events, setting).Ok? && i < |events|
    ensures NormalizeOne(events[i], setting) == Ok(NormalizeEach(events, setting).value[i])
  {
    hide NormalizeOne;
    if i > 0 {
      NormalizedAt(events[1..], setting, i - 1);
    }
  }

  lemma NormalizedKeepsKey(e: Event, setting: Setting)
    requires setting.Valid() && Constructed(e) && NormalizeOne(e, setting).Ok?
    ensures SameKey(NormalizeOne(e, setting).value, e)
  {
    hide Events.Normalized, Construct;
    var m := MeterOf(e, setting).value;
    CapturedIsConstructed(e, setting.ambient);
    NormalizedFields(WithCapturedCorrelation(e, setting.ambient), m);
  }

  lemma NormalizedKeepsKeys(events: seq<Event>, setting: Setting)
    requires setting.Valid() && NormalizeEach(events, setting).Ok?
    requires forall i :: 0 <= i < |events| ==> Constructed(events[i])
    ensures var normalized := NormalizeEach(events, setting).value;
            && (OneScope(normalized) <==> OneScope(events))
            && (UniqueIds(normalized) <==> UniqueIds(events))
            && forall i :: 0 <= i < |events| ==> SameKey(normalized[i], events[i])
  {
    hide NormalizeOne, NormalizeEach, Construct, Setting.Valid;
    var normalized := NormalizeEach(events, setting).value;
    forall i | 0 <= i < |events| ensures SameKey(normalized[i], events[i]) {
      NormalizedAt(events, setting, i);
      NormalizedKeepsKey(events[i], setting);
    }
  }

  /** The dictionary that a batch fingerprint covers, in the order in which the source writes it. */
  function BatchInserted(mode: Mode, events: seq<Event>, hash: Hash): Json {
    Obj([
      Entry("mode", Str(if mode == Atomic then "atomic" else "partitioned")),
      Entry("eventFingerprints", Arr(TextItems(Fingerprints(events, hash))))
    ])
  }

  /** The batch fingerprint exists exactly up to 256 events; the refusal is the encoder's. */
  lemma BatchFingerprintIsCanonical(mode: Mode, events: seq<Event>, hash: Hash)
    requires forall i :: 0 <= i < |events| ==> BoundedText(Fingerprint(events[i], hash), 4096)
    ensures CanonicalText(BatchInserted(mode, events, hash)).Err? <==> |events| > MAX_ARRAY
    ensures BatchFingerprint(mode, events, hash)
            == match CanonicalText(BatchInserted(mode, events, hash))
               case Ok(text) => Ok(hash(text))
               case Err(error) => Err(error)
  {
    hide Fingerprint, Print;
    var fingerprints := Fingerprints(events, hash);
    assert forall i :: 0 <= i < |fingerprints| ==> BoundedText(fingerprints[i], 4096);
    BatchNormalForm(mode, fingerprints);
  }

  lemma BatchNormalForm(mode: Mode, fingerprints: seq<string>)
    requires forall i :: 0 <= i < |fingerprints| ==> BoundedText(fingerprints[i], 4096)
    ensures var x, y := Entry("eventFingerprints", Arr(TextItems(fingerprints))), Entry("mode", Str(ModeText(mode)));
            NormalForm(Obj([y, x]), 0) == if |fingerprints| > MAX_ARRAY then Err(InvalidUsage) else Ok(Obj([x, y]))
  {
    hide TextItems, BoundedText;
    TextArrayExactly(fingerprints, 1);
    TwoSorted(Arr(TextItems(fingerprints)), Str(ModeText(mode)));
    FixedTexts(mode);
    TwoNormal(Entry("eventFingerprints", Arr(TextItems(fingerprints))), Entry("mode", Str(ModeText(mode))));
  }

  lemma TwoSorted(a: Json, b: Json)
    ensures Sort(EntryLess, [Entry("mode", b), Entry("eventFingerprints", a)])
            == [Entry("eventFingerprints", a), Entry("mode", b)]
  {
    var x, y := Entry("eventFingerprints", a), Entry("mode", b);
    assert EntryLess(x, y) && !EntryLess(y, x);
    assert [y, x][1..] == [x] && [x][1..] == [];
    assert Sort(EntryLess, [x]) == [x];
  }

  lemma FixedTexts(mode: Mode)
    ensures BoundedText("eventFingerprints", 128) && BoundedText("mode", 128) && BoundedText(ModeText(mode), 4096)
  {
    hide BoundedText;
    StoredRecords.PlainText("eventFingerprints", 128);
    StoredRecords.PlainText("mode", 128);
    ModeIsText(mode);
  }

  lemma ModeIsText(mode: Mode)
    ensures BoundedText(ModeText(mode), 4096)
  {
    hide BoundedText;
    match mode {
      case Atomic => StoredRecords.PlainText("atomic", 4096);
      case Partitioned => StoredRecords.PlainText("partitioned", 4096);
    }
  }

  lemma LastNormal(v: Json, y: Entry)
    requires y < v && BoundedText(y.key, 128) && NormalForm(y.value, 1) == Ok(y.value)
    ensures NormalEntries(v, [y], 1) == Ok([y])
  {
    hide BoundedText, NormalForm;
    assert [y][1..] == [] && NormalEntries(v, [], 1) == Ok([]);
    assert Entry(y.key, y.value) == y && [y] + [] == [y];
  }

  lemma PairNormal(v: Json, x: Entry, y: Entry)
    requires x < v && y < v && BoundedText(x.key, 128) && BoundedText(y.key, 128)
            && NormalForm(y.value, 1) == Ok(y.value)
    ensures NormalEntries(v, [x, y], 1)
            == match NormalForm(x.value, 1) case Ok(first) => Ok([Entry(x.key, first), y]) case Err(error) => Err(error)
  {
    hide BoundedText, NormalForm;
    LastNormal(v, y);
    var both := [x, y];
    assert both[0] == x && both[1..] == [y];
    var rest := NormalEntries(v, both[1..], 1);
    assert rest == Ok([y]);
    match NormalForm(x.value, 1) {
      case Ok(first) =>
        assert [Entry(x.key, first)] + [y] == [Entry(x.key, first), y];
        assert NormalEntries(v, both, 1) == Ok([Entry(x.key, first)] + rest.value);
      case Err(error) => assert NormalEntries(v, both, 1) == Err(error);
    }
  }

  lemma TwoNormal(x: Entry, y: Entry)
    requires Sort(EntryLess, [y, x]) == [x, y] && BoundedText(x.key, 128) && BoundedText(y.key, 128)
    requires NormalForm(y.value, 1) == Ok(y.value)
    ensures NormalForm(Obj([y, x]), 0)
            == match NormalForm(x.value, 1) case Ok(v) => Ok(Obj([Entry(x.key, v), y])) case Err(error) => Err(error)
  {
    hide BoundedText, EntryLess, Sort;
    var v := Obj([y, x]);
    SortKeeps([y, x]);
    assert [y, x][0] == y && [y, x][1] == x;
    PairNormal(v, x, y);
  }

  /**
    A batch call succeeds exactly when it has 1 to 256 events, all of which normalize, of one scope with distinct ids,
    and either repeats the batch already stored under its id, or no batch is and, if atomic, its events can be
    recorded in order.
   */
  lemma BatchSucceedsExactly(store: Store, events: seq<Event>, batchId: Option<string>, mode: Mode, setting: Setting)
    requires setting.Valid() && forall i :: 0 <= i < |events| ==> Constructed(events[i])
    ensures RecordBatch(store, events, batchId, mode, setting).1.Ok?
            <==> && 1 <= |events| <= 256
                 && (forall i :: 0 <= i < |events| ==> NormalizeOne(events[i], setting).Ok?)
                 && (forall i :: 0 <= i < |events| ==> events[i].scope == events[0].scope)
                 && (forall i, j :: 0 <= i < j < |events| ==> events[i].eventId != events[j].eventId)
                 && BatchGoes(store, NormalizeEach(events, setting), batchId, mode, setting.hash)
  {
    hide NormalizeOne, Construct, Setting.Valid, Fingerprint, AllSettled;
    NormalizesEach(events, setting);
    if NormalizeEach(events, setting).Ok? {
      var normalized := NormalizeEach(events, setting).value;
      NormalizedKeepsKeys(events, setting);
      NormalizeEachSettles(events, setting);
      AtomicIsRecordAll(store.rows, normalized, setting);
    }
  }

  /** The event whose normalization fails first names the error. */
  lemma {:induction false} NormalizationStops(events: seq<Event>, setting: Setting) returns (i: nat)
    requires NormalizeEach(events, setting).Err?
    ensures i < |events| && NormalizeOne(events[i], setting) == Err(NormalizeEach(events, setting).error)
    ensures forall j :: 0 <= j < i ==> NormalizeOne(events[j], setting).Ok?
  {
    hide NormalizeOne;
    if NormalizeOne(events[0], setting).Err? {
      i := 0;
    } else {
      var k := NormalizationStops(events[1..], setting);
      i := k + 1;
      assert forall j :: 0 < j < |events| ==> events[j] == events[1..][j - 1];
    }
  }

  /** The event that cannot be recorded over the ones before it names the error. */
  lemma {:induction false} RecordingStops(rows: seq<Event>, events: seq<Event>, hash: Hash) returns (i: nat)
    requires RecordAll(rows, events, hash).Err?
    ensures i < |events| && RecordAll(rows, events[..i], hash).Ok?
    ensures RecordNormalized(RecordAll(rows, events[..i], hash).value.0, events[i], hash).1
            == Err(RecordAll(rows, events, hash).error)
    decreases |events|
  {
    hide RecordNormalized;
    if RecordNormalized(rows, events[0], hash).1.Err? {
      i := 0;
    } else {
      var k := RecordingStops(RecordNormalized(rows, events[0], hash).0, events[1..], hash);
      i := k + 1;
      assert events[..i][1..] == events[1..][..k] && events[..i][0] == events[0];
    }
  }

  /** Why a batch call fails, in the order of its checks. */
  lemma BatchFailsWith(store: Store, events: seq<Event>, batchId: Option<string>, mode: Mode, setting: Setting)
    requires setting.Valid() && forall i :: 0 <= i < |events| ==> Constructed(events[i])
    requires RecordBatch(store, events, batchId, mode, setting).1.Err?
    ensures var error := RecordBatch(store, events, batchId, mode, setting).1.error;
            var each := NormalizeEach(events, setting);
            if !(1 <= |events| <= 1000) then error == InvalidUsage
            else if each.Err? then error == each.error
            else if exists i :: 0 <= i < |events| && events[i].scope != events[0].scope then error == InvalidUsage
            else if exists i, j :: 0 <= i < j < |events| && events[i].eventId == events[j].eventId then
              error == InvalidUsage
            else if |events| > 256 then error == InvalidUsage
            else
              var fingerprint := BatchFingerprint(mode, each.value, setting.hash).value;
              var id := if batchId.Some? then batchId.value else "batch-" + fingerprint;
              if (events[0].scope, id) in store.batches then error == UsageConflict
              else mode == Atomic && RecordAll(store.rows, each.value, setting.hash) == Err(error)
  {
    hide NormalizeOne, NormalizeEach, Construct, Setting.Valid, Fingerprint, AllSettled, RecordAll,
        Digest;
    if NormalizeEach(events, setting).Ok? {
      NormalizedKeepsKeys(events, setting);
      NormalizeEachSettles(events, setting);
      AtomicIsRecordAll(store.rows, NormalizeEach(events, setting).value, setting);
    }
  }

  /** What the store decides about a normalized batch. */
  predicate BatchGoes(store: Store, normalized: Result<seq<Event>>, batchId: Option<string>, mode: Mode, hash: Hash) {
    && normalized.Ok? && normalized.value != []
    && var fingerprint := BatchFingerprint(mode, normalized.value, hash);
    && fingerprint.Ok?
    && var key := (normalized.value[0].scope, if batchId.Some? then batchId.value else "batch-" + fingerprint.value);
    && if key in store.batches then store.batches[key].fingerprint == fingerprint.value
       else mode == Partitioned || RecordAll(store.rows, normalized.value, hash).Ok?
  }

  /** The failing inputs among the batches admitted: above 256 events every call fails and stores nothing. */
  lemma LargeBatchFails(store: Store, events: seq<Event>, batchId: Option<string>, mode: Mode, setting: Setting)
    requires |events| > MAX_ARRAY
    ensures RecordBatch(store, events, batchId, mode, setting).1.Err?
    ensures RecordBatch(store, events, batchId, mode, setting).0 == store
  {
    hide NormalizeEach, OneScope, UniqueIds;
  }

  // ---- When events can be recorded in order ----

  /** No stored event, or the same one, has the key. */
  predicate Free(rows: seq<Event>, e: Event, hash: Hash) {
    var existing := Find(rows, e.scope, e.eventId);
    existing.None? || Fingerprint(existing.value, hash) == Fingerprint(e, hash)
  }

  lemma FindAppended(rows: seq<Event>, e: Event, scope: Labels, eventId: string)
    requires e.scope != scope || e.eventId != eventId
    ensures Find(rows + [e], scope, eventId) == Find(rows, scope, eventId)
  {
    if rows != [] {
      assert (rows + [e])[1..] == rows[1..] + [e];
      FindAppended(rows[1..], e, scope, eventId);
    } else {
      assert rows + [e] == [e];
    }
  }

  predicate Targets(target: Event, e: Event) {
    e.correctionOf == Some(target.eventId) && target.scope == e.scope && SameDomain(e, target)
  }

  lemma HasTargetAmong(rows: seq<Event>, e: Event)
    ensures HasTarget(rows, e) <==> e.correctionOf.None? || exists r :: r in rows && Targets(r, e)
  {
    hide SameDomain;
    if e.correctionOf.Some? && HasTarget(rows, e) {
      var j :| IsTarget(rows, e, j);
      assert Targets(rows[j], e);
    }
    if r :| r in rows && Targets(r, e) {
      var j :| 0 <= j < |rows| && rows[j] == r;
      assert IsTarget(rows, e, j);
    }
  }

  /** A replayed batch event targets no differently than the stored row it replays. */
  lemma TargetThroughReplay(rows: seq<Event>, first: Event, between: seq<Event>, e: Event, hash: Hash)
    requires Injective(hash) && AllMetered(rows) && Metered(first.value)
    requires Find(rows, first.scope, first.eventId).Some? && Free(rows, first, hash)
    ensures HasTarget(rows + between, e) <==> HasTarget(rows + [first] + between, e)
  {
    hide Injective, Metered, Fingerprint, HasTarget, SameDomain;
    HasTargetAmong(rows + between, e);
    HasTargetAmong(rows + [first] + between, e);
    var stored := Find(rows, first.scope, first.eventId).value;
    var i :| 0 <= i < |rows| && rows[i] == stored;
    FingerprintFixesEvent(stored, first, hash);
    SameTargeting(stored, first, e);
  }

  lemma SameTargeting(a: Event, b: Event, e: Event)
    requires a == b.(originalValue := a.originalValue)
    ensures Targets(a, e) <==> Targets(b, e)
  {
  }

  /**
    Events of one scope with distinct ids can all be recorded in order exactly when none of them conflicts with a
    stored row, and each corrects nothing or something stored or earlier in the batch.
   */
  lemma {:induction false} RecordAllExactly(rows: seq<Event>, events: seq<Event>, hash: Hash)
    requires Injective(hash) && Sound(rows) && AllMetered(rows) && AllMetered(events) && UniqueIds(events)
    ensures RecordAll(rows, events, hash).Ok?
            <==> forall i :: 0 <= i < |events| ==>
                Free(rows, events[i], hash) && HasTarget(rows + events[..i], events[i])
    decreases |events|
  {
    hide Injective, Metered, Fingerprint, HasTarget, Sound, Free, RecordNormalized;
    if events != [] {
      FirstOfAll(rows, events, hash);
      if RecordNormalized(rows, events[0], hash).1.Ok? {
        var more := RecordNormalized(rows, events[0], hash).0;
        FirstRecorded(rows, events, hash);
        RecordAllExactly(more, events[1..], hash);
        var rest := events[1..];
        forall i | 0 < i < |events|
          ensures rest[i - 1] == events[i] && rest[..i - 1] == events[1..i]
          ensures Free(rows, events[i], hash) <==> Free(more, rest[i - 1], hash)
          ensures HasTarget(rows + events[..i], events[i]) <==> HasTarget(more + rest[..i - 1], rest[i - 1])
        {
          RestAlike(rows, events, hash, i);
        }
        forall i | 0 <= i < |rest| ensures rest[i] == events[i + 1] && rest[..i] == rest[..(i + 1) - 1] {
        }
      }
    }
  }

  lemma FirstRecorded(rows: seq<Event>, events: seq<Event>, hash: Hash)
    requires Sound(rows) && AllMetered(rows) && AllMetered(events) && UniqueIds(events) && events != []
    requires RecordNormalized(rows, events[0], hash).1.Ok?
    ensures var more := RecordNormalized(rows, events[0], hash).0;
            Sound(more) && AllMetered(more) && AllMetered(events[1..]) && UniqueIds(events[1..])
  {
    hide Fingerprint, Metered, Sound;
    RecordKeeps(rows, events[0], hash);
  }

  lemma RestAlike(rows: seq<Event>, events: seq<Event>, hash: Hash, i: nat)
    requires Injective(hash) && Sound(rows) && AllMetered(rows) && AllMetered(events) && UniqueIds(events)
    requires 0 < i < |events| && RecordNormalized(rows, events[0], hash).1.Ok?
    ensures var more := RecordNormalized(rows, events[0], hash).0;
            && (Free(rows, events[i], hash) <==> Free(more, events[i], hash))
            && (HasTarget(rows + events[..i], events[i]) <==> HasTarget(more + events[1..i], events[i]))
  {
    hide Injective, Metered, Fingerprint, HasTarget, Sound, CorrectionHolds;
    assert events[..i] == [events[0]] + events[1..i];
    assert rows + events[..i] == rows + [events[0]] + events[1..i];
    if Find(rows, events[0].scope, events[0].eventId).Some? {
      TargetThroughReplay(rows, events[0], events[1..i], events[i], hash);
    } else {
      FindAppended(rows, events[0], events[i].scope, events[i].eventId);
    }
  }

  lemma FirstOfAll(rows: seq<Event>, events: seq<Event>, hash: Hash)
    requires Sound(rows) && events != []
    ensures RecordNormalized(rows, events[0], hash).1.Ok?
            <==> Free(rows, events[0], hash) && HasTarget(rows + events[..0], events[0])
    ensures RecordAll(rows, events, hash).Ok?
            <==> && RecordNormalized(rows, events[0], hash).1.Ok?
                 && RecordAll(RecordNormalized(rows, events[0], hash).0, events[1..], hash).Ok?
  {
    hide Fingerprint, HasTarget, Forest;
    TargetHolds(rows, events[0]);
    assert rows + events[..0] == rows;
  }
}
