/**
  Building events and versions from their dictionaries, field by field and by name; dictionaries give back what made
  them.
 */
module DictionaryReading {
  import opened Prelude
  import opened Orders
  import opened Canonical
  import opened Decimals
  import opened Texts
  import opened Recovery
  import opened Events
  import opened EventRecords
  import opened Aggregation
  import opened Revisions
  import opened AggregateRecords
  import StoredRecords

  // ---- Fields by name ----

  predicate Has(fields: seq<Entry>, key: string) {
    exists i :: 0 <= i < |fields| && fields[i].key == key
  }

  function TextField(fields: seq<Entry>, key: string): Result<string> {
    match Lookup(fields, key)
    case Str(s) => Ok(s)
    case _ => Err(InvalidUsage)
  }

  function OptionalField(fields: seq<Entry>, key: string): Result<Option<string>> {
    match Lookup(fields, key)
    case Null => Ok(None)
    case Str(s) => Ok(Some(s))
    case _ => Err(InvalidUsage)
  }

  function IntField(fields: seq<Entry>, key: string): Result<int> {
    match Lookup(fields, key)
    case Int(n) => Ok(n)
    case _ => Err(InvalidUsage)
  }

  function LabelOf(e: Entry): Result<Label> {
    match e.value
    case Str(s) => Ok(Label(e.key, s))
    case _ => Err(InvalidUsage)
  }

  function LabelsOf(entries: seq<Entry>): Result<Labels> {
    if entries == [] then Ok([])
    else
      var first :- LabelOf(entries[0]);
      var rest :- LabelsOf(entries[1..]);
      Ok([first] + rest)
  }

  function LabelsField(fields: seq<Entry>, key: string): Result<Labels> {
    match Lookup(fields, key)
    case Obj(entries) => LabelsOf(entries)
    case _ => Err(InvalidUsage)
  }

  function NumberField(fields: seq<Entry>, key: string): Result<Option<Decimal>> {
    var stored :- FieldNumber(fields, key);
    StoredRecords.OptionalValue(stored)
  }

  /** A number is read exactly from null or from the text of one in the input domain; all else is invalid usage. */
  lemma NumbersReadExactly(fields: seq<Entry>, key: string)
    ensures var v := Lookup(fields, key);
            && (NumberField(fields, key).Ok?
                <==> v.Null? || (v.Str? && ParseDecimal(v.s).Some? && InDomain(ParseDecimal(v.s).value)))
            && (NumberField(fields, key).Err? ==> NumberField(fields, key).error == InvalidUsage)
  {
    hide ParseDecimal, Lookup, InDomain;
  }

  // ---- Events ----

  const REQUIRED := [
    "eventId", "scope", "subjectId", "meterId", "meterVersion", "windowStart", "windowEnd", "value", "unit"
  ]

  /** `UsageEventV1.from_mapping` before any stored fingerprint is compared. */
  function ReadEvent(fields: seq<Entry>): Result<Event> {
    if exists i :: 0 <= i < |REQUIRED| && !Has(fields, REQUIRED[i]) then Err(InvalidUsage)
    else
      var eventId :- TextField(fields, "eventId");
      var scope :- LabelsField(fields, "scope");
      var subjectId :- TextField(fields, "subjectId");
      var meterId :- TextField(fields, "meterId");
      var meterVersion :- IntField(fields, "meterVersion");
      var start :- IntField(fields, "windowStart");
      var end :- IntField(fields, "windowEnd");
      var value :- NumberField(fields, "value");
      if value.None? then Err(InvalidUsage)
      else
        var unit :- TextField(fields, "unit");
        var dimensions :- if Has(fields, "dimensions") then LabelsField(fields, "dimensions") else Ok([]);
        var source :- if Has(fields, "source") then TextField(fields, "source") else Ok("application");
        var recordedAt :- if Has(fields, "recordedAt") then IntField(fields, "recordedAt") else Ok(end);
        var correctionOf :- OptionalField(fields, "correctionOf");
        var correctionReason :- OptionalField(fields, "correctionReason");
        var correlation :- if Has(fields, "correlation") then LabelsField(fields, "correlation") else Ok([]);
        var provenance :- if Has(fields, "provenance") then LabelsField(fields, "provenance") else Ok([]);
        var originalValue :- NumberField(fields, "originalValue");
        var originalUnit :- OptionalField(fields, "originalUnit");
        Construct(Event(eventId, scope, subjectId, meterId, meterVersion, start, end, value.value, unit, dimensions,
                        source, recordedAt, correctionOf, correctionReason, correlation, provenance, originalValue,
                        originalUnit))
  }

  lemma {:induction false} LookupAt(fields: seq<Entry>, i: nat)
    requires Unique(Keys(fields)) && i < |fields|
    ensures Lookup(fields, fields[i].key) == fields[i].value
  {
    if i > 0 {
      assert Keys(fields)[0] != Keys(fields)[i];
      forall p, q | 0 <= p < q < |fields| - 1 ensures Keys(fields[1..])[p] != Keys(fields[1..])[q] {
        assert Keys(fields)[p + 1] != Keys(fields)[q + 1];
      }
      LookupAt(fields[1..], i - 1);
    }
  }

  lemma {:induction false} LabelsAreRead(labels: Labels)
    ensures LabelsOf(LabelEntries(labels)) == Ok(labels)
  {
    if labels != [] {
      LabelsAreRead(labels[1..]);
      assert LabelEntries(labels)[1..] == LabelEntries(labels[1..]);
      assert [labels[0]] + labels[1..] == labels;
    }
  }

  /** What the text of a number denotes: the number itself unless its exponent is positive. */
  lemma NumberIsRead(d: Decimal)
    requires Accepted(d) && d.exp <= 0
    ensures ParseDecimal(DecimalText(d)) == Some(d) && DecimalValue(d) == Ok(d)
  {
    hide ParseDecimal, DecimalText;
    StoredRecords.ParsePrinted(d);
    ShownAsItIs(d);
  }

  lemma ShownAsItIs(d: Decimal)
    requires Accepted(d) && d.exp <= 0
    ensures StoredRecords.Shown(d) == d && DecimalValue(d) == Ok(d)
  {
  }

  lemma EventField(e: Event, hash: Hash, i: nat)
    requires i < 22
    ensures |ToDict(e, hash).entries| == 22 && |EVENT_KEYS| == 22
    ensures Lookup(ToDict(e, hash).entries, EVENT_KEYS[i]) == ToDict(e, hash).entries[i].value
    ensures Has(ToDict(e, hash).entries, EVENT_KEYS[i])
  {
    hide ToDict, EVENT_KEYS;
    DictionaryIsObject(e, hash);
    KeysOfEvent(e, hash);
    EventKeysDistinct();
    LookupAt(ToDict(e, hash).entries, i);
    assert Keys(ToDict(e, hash).entries)[i] == ToDict(e, hash).entries[i].key;
  }

  lemma LabelFieldsStand(e: Event, hash: Hash)
    ensures ToDict(e, hash).Obj?
    ensures var fields := ToDict(e, hash).entries;
            && Lookup(fields, "correlation") == LabelsJson(e.correlation)
            && Lookup(fields, "dimensions") == LabelsJson(e.dimensions)
            && Lookup(fields, "provenance") == LabelsJson(e.provenance)
            && Lookup(fields, "scope") == LabelsJson(e.scope)
  {
    hide Lookup, DimensionDigest, ScopeDigest, IdempotencyKey, DecimalText, AsJson, LabelsJson, Has;
    EventField(e, hash, 2);
    EventField(e, hash, 4);
    EventField(e, hash, 11);
    EventField(e, hash, 14);
  }

  lemma LabelFieldsAreRead(e: Event, hash: Hash)
    ensures var fields := ToDict(e, hash).entries;
            && LabelsField(fields, "correlation") == Ok(e.correlation)
            && LabelsField(fields, "dimensions") == Ok(e.dimensions)
            && LabelsField(fields, "provenance") == Ok(e.provenance)
            && LabelsField(fields, "scope") == Ok(e.scope)
  {
    hide Lookup, ToDict, LabelsOf, LabelEntries;
    LabelFieldsStand(e, hash);
    LabelsAreRead(e.correlation);
    LabelsAreRead(e.dimensions);
    LabelsAreRead(e.provenance);
    LabelsAreRead(e.scope);
  }

  lemma TextFieldsAreRead(e: Event, hash: Hash)
    ensures var fields := ToDict(e, hash).entries;
            && TextField(fields, "eventId") == Ok(e.eventId) && TextField(fields, "subjectId") == Ok(e.subjectId)
            && TextField(fields, "meterId") == Ok(e.meterId) && TextField(fields, "unit") == Ok(e.unit)
            && TextField(fields, "source") == Ok(e.source)
  {
    hide Lookup, DimensionDigest, ScopeDigest, IdempotencyKey, DecimalText, AsJson, LabelsJson;
    EventField(e, hash, 5);
    EventField(e, hash, 17);
    EventField(e, hash, 7);
    EventField(e, hash, 18);
    EventField(e, hash, 16);
  }

  lemma IntFieldsAreRead(e: Event, hash: Hash)
    ensures var fields := ToDict(e, hash).entries;
            && IntField(fields, "meterVersion") == Ok(e.meterVersion)
            && IntField(fields, "recordedAt") == Ok(e.recordedAt)
            && IntField(fields, "windowStart") == Ok(e.start) && IntField(fields, "windowEnd") == Ok(e.end)
  {
    hide Lookup, DimensionDigest, ScopeDigest, IdempotencyKey, DecimalText, LabelsJson, AsJson, Has;
    EventField(e, hash, 8);
    EventField(e, hash, 12);
    EventField(e, hash, 21);
    EventField(e, hash, 20);
  }

  lemma OptionalFieldsAreRead(e: Event, hash: Hash)
    ensures var fields := ToDict(e, hash).entries;
            && OptionalField(fields, "correctionOf") == Ok(e.correctionOf)
            && OptionalField(fields, "correctionReason") == Ok(e.correctionReason)
            && OptionalField(fields, "originalUnit") == Ok(e.originalUnit)
  {
    hide Lookup, DimensionDigest, ScopeDigest, IdempotencyKey, DecimalText, LabelsJson, Has;
    EventField(e, hash, 0);
    EventField(e, hash, 1);
    EventField(e, hash, 9);
  }

  /** The redundant fields, under their names. */
  lemma DerivedFieldsAreNamed(e: Event, hash: Hash)
    ensures var fields := ToDict(e, hash).entries;
            && TextField(fields, "schemaVersion") == Ok("1.0.0")
            && TextField(fields, "idempotencyKey") == Ok(IdempotencyKey(e, hash))
            && TextField(fields, "scopeFingerprint") == Ok(Digest(LabelsJson(e.scope), hash))
            && TextField(fields, "dimensionFingerprint") == Ok(Digest(LabelsJson(e.dimensions), hash))
  {
    hide Lookup, IdempotencyKey, DecimalText, LabelsJson, AsJson, Digest, Has;
    EventField(e, hash, 13);
    EventField(e, hash, 6);
    EventField(e, hash, 15);
    EventField(e, hash, 3);
  }

  lemma NumberFieldsAreRead(e: Event, hash: Hash)
    requires Accepted(e.value) && e.value.exp <= 0
    requires e.originalValue.Some? ==> Accepted(e.originalValue.value) && e.originalValue.value.exp <= 0
    ensures var fields := ToDict(e, hash).entries;
            && NumberField(fields, "value") == Ok(Some(e.value))
            && NumberField(fields, "originalValue") == Ok(e.originalValue)
  {
    hide Lookup, DimensionDigest, ScopeDigest, IdempotencyKey, DecimalText, LabelsJson, ParseDecimal, DecimalValue,
        Accepted;
    EventField(e, hash, 19);
    EventField(e, hash, 10);
    NumberIsRead(e.value);
    if e.originalValue.Some? {
      NumberIsRead(e.originalValue.value);
    }
  }

  lemma RequiredArePresent(e: Event, hash: Hash)
    ensures forall i :: 0 <= i < |REQUIRED| ==> Has(ToDict(e, hash).entries, REQUIRED[i])
  {
    hide Has, ToDict;
    EventField(e, hash, 5);
    EventField(e, hash, 14);
    EventField(e, hash, 17);
    EventField(e, hash, 7);
    EventField(e, hash, 8);
    EventField(e, hash, 21);
    EventField(e, hash, 20);
    EventField(e, hash, 19);
    EventField(e, hash, 18);
  }

  /** The dictionary of an event is read as that event, every field under its own name. */
  lemma EventRoundTrip(e: Event, hash: Hash)
    requires Constructed(e) && Accepted(e.value) && e.value.exp <= 0
    requires e.originalValue.Some? ==> Accepted(e.originalValue.value) && e.originalValue.value.exp <= 0
    ensures ReadEvent(ToDict(e, hash).entries) == Ok(e)
  {
    hide ToDict, Has, TextField, OptionalField, IntField, LabelsField, NumberField, Construct, Accepted, REQUIRED;
    RequiredArePresent(e, hash);
    LabelFieldsAreRead(e, hash);
    TextFieldsAreRead(e, hash);
    IntFieldsAreRead(e, hash);
    OptionalFieldsAreRead(e, hash);
    NumberFieldsAreRead(e, hash);
    DefaultsAreUnused(e, hash);
  }

  lemma DefaultsAreUnused(e: Event, hash: Hash)
    ensures var fields := ToDict(e, hash).entries;
            && Has(fields, "dimensions") && Has(fields, "source") && Has(fields, "recordedAt")
            && Has(fields, "correlation") && Has(fields, "provenance")
  {
    hide Has, ToDict, Lookup;
    EventField(e, hash, 4);
    EventField(e, hash, 16);
    EventField(e, hash, 12);
    EventField(e, hash, 2);
    EventField(e, hash, 11);
  }

  // ---- Versions ----

  const VERSION_REQUIRED := [
    "aggregateId", "aggregateRevision", "scope", "meterId", "meterVersion", "windowStart", "windowEnd", "dimensions",
    "total", "eventCount", "watermark", "sourceFingerprint", "createdAt"
  ]

  /** The constructor: positive revision and meter version, a window, a count, and a total that can be stored. */
  function ConstructVersion(revision: int, eventCount: int, a: Aggregate): Result<Aggregate> {
    if revision < 1 || a.meterVersion < 1 || eventCount < 0 || a.start >= a.end then Err(InvalidUsage)
    else
      var total :- StorageResult(a.total);
      Ok(a.(revision := revision, eventCount := eventCount, total := total))
  }

  /** `UsageAggregateV1.from_mapping` before any stored fingerprint is compared. */
  function ReadVersion(fields: seq<Entry>): Result<Aggregate> {
    if exists i :: 0 <= i < |VERSION_REQUIRED| && !Has(fields, VERSION_REQUIRED[i]) then Err(InvalidUsage)
    else
      var aggregateId :- TextField(fields, "aggregateId");
      var revision :- IntField(fields, "aggregateRevision");
      var scope :- LabelsField(fields, "scope");
      var meterId :- TextField(fields, "meterId");
      var meterVersion :- IntField(fields, "meterVersion");
      var start :- IntField(fields, "windowStart");
      var end :- IntField(fields, "windowEnd");
      var dimensions :- LabelsField(fields, "dimensions");
      var total :- NumberField(fields, "total");
      if total.None? then Err(InvalidUsage)
      else
        var eventCount :- IntField(fields, "eventCount");
        var watermark :- IntField(fields, "watermark");
        var source :- TextField(fields, "sourceFingerprint");
        var createdAt :- IntField(fields, "createdAt");
        var supersedes :- OptionalField(fields, "supersedes");
        var algorithm :- if Has(fields, "algorithm") then TextField(fields, "algorithm") else Ok("sum.v1");
        var correlation :- if Has(fields, "correlation") then LabelsField(fields, "correlation") else Ok([]);
        ConstructVersion(revision, eventCount,
                         Aggregate(aggregateId, 1, scope, meterId, meterVersion, start, end, dimensions, total.value, 0,
                                   watermark, source, createdAt, supersedes, algorithm, correlation))
  }

  lemma VersionField(a: Aggregate, hash: Hash, i: nat)
    requires i < 20
    ensures |AggregateJson(a, hash).entries| == 20 && |AGGREGATE_KEYS| == 20
    ensures Lookup(AggregateJson(a, hash).entries, AGGREGATE_KEYS[i]) == AggregateJson(a, hash).entries[i].value
    ensures Has(AggregateJson(a, hash).entries, AGGREGATE_KEYS[i])
  {
    hide AggregateJson, AGGREGATE_KEYS;
    TotalAt(a, hash);
    KeysOfAggregate(a, hash);
    AggregateKeysDistinct();
    LookupAt(AggregateJson(a, hash).entries, i);
    assert Keys(AggregateJson(a, hash).entries)[i] == AggregateJson(a, hash).entries[i].key;
  }

  lemma VersionLabelsAreRead(a: Aggregate, hash: Hash)
    ensures var fields := AggregateJson(a, hash).entries;
            && Has(fields, "correlation") && LabelsField(fields, "correlation") == Ok(a.correlation)
            && LabelsField(fields, "dimensions") == Ok(a.dimensions)
            && LabelsField(fields, "scope") == Ok(a.scope)
  {
    hide Lookup, Digest, VersionId, DecimalText, AsJson, LabelsOf, LabelEntries, Has;
    VersionField(a, hash, 4);
    VersionField(a, hash, 7);
    VersionField(a, hash, 12);
    LabelsAreRead(a.correlation);
    LabelsAreRead(a.dimensions);
    LabelsAreRead(a.scope);
  }

  lemma VersionTextsAreRead(a: Aggregate, hash: Hash)
    ensures var fields := AggregateJson(a, hash).entries;
            && TextField(fields, "aggregateId") == Ok(a.aggregateId) && TextField(fields, "meterId") == Ok(a.meterId)
            && TextField(fields, "sourceFingerprint") == Ok(a.sourceFingerprint)
            && Has(fields, "algorithm") && TextField(fields, "algorithm") == Ok(a.algorithm)
            && OptionalField(fields, "supersedes") == Ok(a.supersedes)
  {
    hide Lookup, Digest, VersionId, DecimalText, LabelsJson, Has;
    VersionField(a, hash, 0);
    VersionField(a, hash, 9);
    VersionField(a, hash, 14);
    VersionField(a, hash, 3);
    VersionField(a, hash, 15);
  }

  lemma VersionIntsAreRead(a: Aggregate, hash: Hash)
    ensures var fields := AggregateJson(a, hash).entries;
            && IntField(fields, "aggregateRevision") == Ok(a.revision)
            && IntField(fields, "createdAt") == Ok(a.createdAt)
            && IntField(fields, "eventCount") == Ok(a.eventCount)
            && IntField(fields, "meterVersion") == Ok(a.meterVersion)
  {
    hide Lookup, Digest, VersionId, DecimalText, LabelsJson, AsJson, Has;
    VersionField(a, hash, 1);
    VersionField(a, hash, 5);
    VersionField(a, hash, 8);
    VersionField(a, hash, 10);
  }

  lemma VersionTimesAreRead(a: Aggregate, hash: Hash)
    ensures var fields := AggregateJson(a, hash).entries;
            && IntField(fields, "watermark") == Ok(a.watermark) && IntField(fields, "windowStart") == Ok(a.start)
            && IntField(fields, "windowEnd") == Ok(a.end)
  {
    hide Lookup, Digest, VersionId, DecimalText, LabelsJson, AsJson, Has;
    VersionField(a, hash, 17);
    VersionField(a, hash, 19);
    VersionField(a, hash, 18);
  }

  lemma VersionTotalIsRead(a: Aggregate, hash: Hash)
    requires Accepted(a.total) && a.total.exp <= 0
    ensures NumberField(AggregateJson(a, hash).entries, "total") == Ok(Some(a.total))
  {
    hide Lookup, Digest, VersionId, DecimalText, LabelsJson, AsJson, Has, ParseDecimal, DecimalValue, Accepted;
    VersionField(a, hash, 16);
    NumberIsRead(a.total);
  }

  lemma VersionRequiredArePresent(a: Aggregate, hash: Hash)
    ensures AggregateJson(a, hash).Obj?
    ensures forall i :: 0 <= i < |VERSION_REQUIRED| ==> Has(AggregateJson(a, hash).entries, VERSION_REQUIRED[i])
  {
    hide Has, AggregateJson, Lookup;
    TotalAt(a, hash);
    VersionField(a, hash, 0);
    VersionField(a, hash, 1);
    VersionField(a, hash, 12);
    VersionField(a, hash, 9);
    VersionField(a, hash, 10);
    VersionField(a, hash, 19);
    VersionField(a, hash, 18);
    VersionField(a, hash, 7);
    VersionField(a, hash, 16);
    VersionField(a, hash, 8);
    VersionField(a, hash, 17);
    VersionField(a, hash, 14);
    VersionField(a, hash, 5);
  }

  lemma ConstructsVersion(a: Aggregate)
    requires a.revision >= 1 && a.meterVersion >= 1 && a.start < a.end && Accepted(a.total) && Storable(a.total)
    ensures ConstructVersion(a.revision, a.eventCount, a.(revision := 1, eventCount := 0)) == Ok(a)
  {
    hide Storable;
  }

  /** The dictionary of a version is read as that version, every field under its own name. */
  lemma VersionRoundTrip(a: Aggregate, hash: Hash)
    requires a.revision >= 1 && a.meterVersion >= 1 && a.start < a.end
    requires Accepted(a.total) && Storable(a.total) && a.total.exp <= 0
    ensures ReadVersion(AggregateJson(a, hash).entries) == Ok(a)
  {
    hide AggregateJson, Has, TextField, OptionalField, IntField, LabelsField, NumberField, VERSION_REQUIRED,
        ConstructVersion, Accepted, Storable;
    ConstructsVersion(a);
    VersionRequiredArePresent(a, hash);
    VersionLabelsAreRead(a, hash);
    VersionTextsAreRead(a, hash);
    VersionIntsAreRead(a, hash);
    VersionTimesAreRead(a, hash);
    VersionTotalIsRead(a, hash);
  }

  /** The redundant fields of a version, under their names. */
  lemma DerivedVersionFieldsAreNamed(a: Aggregate, hash: Hash)
    ensures var fields := AggregateJson(a, hash).entries;
            && TextField(fields, "schemaVersion") == Ok("1.0.0")
            && TextField(fields, "aggregateVersionId") == Ok(VersionId(a.aggregateId, a.revision))
            && TextField(fields, "scopeFingerprint") == Ok(Digest(LabelsJson(a.scope), hash))
            && TextField(fields, "dimensionFingerprint") == Ok(Digest(LabelsJson(a.dimensions), hash))
  {
    hide Lookup, Digest, VersionId, DecimalText, LabelsJson, AsJson, Has;
    VersionField(a, hash, 11);
    VersionField(a, hash, 2);
    VersionField(a, hash, 13);
    VersionField(a, hash, 6);
  }
}
