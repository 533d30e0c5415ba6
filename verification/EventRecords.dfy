/** The dictionary of an event as a stored record: both views of it have one fingerprint, and it survives storage. */
module EventRecords {
  import opened Prelude
  import opened Orders
  import opened Canonical
  import opened SortedObjects
  import opened Decimals
  import opened Texts
  import opened Recovery
  import opened Meters
  import opened Events
  import StoredRecords

  // ---- Keys in order ----

  const EVENT_KEYS := [
    "correctionOf", "correctionReason", "correlation", "dimensionFingerprint", "dimensions", "eventId",
    "idempotencyKey", "meterId", "meterVersion", "originalUnit", "originalValue", "provenance", "recordedAt",
    "schemaVersion", "scope", "scopeFingerprint", "source", "subjectId", "unit", "value", "windowEnd", "windowStart"
  ]

  /** How many characters each key shares with the next. */
  const SHARED: seq<nat> := [10, 5, 0, 9, 0, 0, 0, 5, 0, 8, 0, 0, 0, 2, 5, 1, 1, 0, 0, 0, 6]

  lemma KeyStep(k: nat)
    requires 0 < k < |EVENT_KEYS|
    ensures TextLess(EVENT_KEYS[k - 1], EVENT_KEYS[k])
  {
    FirstDifference(EVENT_KEYS[k - 1], EVENT_KEYS[k], SHARED[k - 1]);
  }

  lemma EventKeysIncrease()
    ensures Increasing(EVENT_KEYS)
  {
    hide TextLess, EVENT_KEYS;
    forall k | 0 < k < |EVENT_KEYS| ensures TextLess(EVENT_KEYS[k - 1], EVENT_KEYS[k]) {
      KeyStep(k);
    }
    forall i, j | 0 <= i < j < |EVENT_KEYS| ensures TextLess(EVENT_KEYS[i], EVENT_KEYS[j]) {
      IncreasingByStep(EVENT_KEYS, i, j);
    }
  }

  // ---- Fields ----

  /** A mapping as the constructors leave it: key order, distinct keys, bounded texts. */
  ghost predicate LabelsFit(labels: Labels) {
    && |labels| <= 64
    && (forall i :: 0 <= i < |labels| ==> BoundedText(labels[i].name, 128) && BoundedText(labels[i].text, 4096))
    && forall i, j :: 0 <= i < j < |labels| ==> TextLess(labels[i].name, labels[j].name)
  }

  ghost predicate TextFits(text: Option<string>) {
    text.Some? ==> BoundedText(text.value, 4096)
  }

  predicate IntFits(n: int) {
    -0x8000_0000_0000_0000 <= n < 0x8000_0000_0000_0000
  }

  /** What the constructors check of an event's texts, mappings and integers, and of the digests in its dictionary. */
  ghost predicate FieldsFit(e: Event, hash: Hash) {
    && LabelsFit(e.correlation) && LabelsFit(e.dimensions) && LabelsFit(e.provenance) && LabelsFit(e.scope)
    && BoundedText(e.eventId, 4096) && BoundedText(e.meterId, 4096) && BoundedText(e.source, 4096)
    && BoundedText(e.subjectId, 4096) && BoundedText(e.unit, 4096)
    && TextFits(e.correctionOf) && TextFits(e.correctionReason) && TextFits(e.originalUnit)
    && IntFits(e.meterVersion) && IntFits(e.recordedAt) && IntFits(e.start) && IntFits(e.end)
    && BoundedText(DimensionDigest(e, hash), 4096) && BoundedText(ScopeDigest(e, hash), 4096)
    && BoundedText(IdempotencyKey(e, hash), 4096)
  }

  lemma LabelsAreNormal(labels: Labels)
    requires LabelsFit(labels)
    ensures NormalForm(LabelsJson(labels), 1) == Ok(LabelsJson(labels))
  {
    hide BoundedText, TextLess;
    var entries := LabelEntries(labels);
    NormalInAnyOrder(entries, entries, 1);
  }

  lemma TextIsNormal(text: Option<string>)
    requires TextFits(text)
    ensures NormalForm(AsJson(text), 1) == Ok(AsJson(text))
  {
    hide BoundedText;
  }

  lemma IntIsNormal(n: int)
    requires IntFits(n)
    ensures NormalForm(Int(n), 1) == Ok(Int(n))
  {
  }

  ghost predicate ValueFits(v: Json) {
    NormalForm(v, 1) == Ok(v)
  }

  lemma MappingsFit(e: Event, hash: Hash)
    requires FieldsFit(e, hash)
    ensures ValueFits(LabelsJson(e.correlation)) && ValueFits(LabelsJson(e.dimensions))
    ensures ValueFits(LabelsJson(e.provenance)) && ValueFits(LabelsJson(e.scope))
  {
    hide BoundedText, LabelsFit, NormalForm, LabelsJson;
    LabelsAreNormal(e.correlation);
    LabelsAreNormal(e.dimensions);
    LabelsAreNormal(e.provenance);
    LabelsAreNormal(e.scope);
  }

  lemma TextsFit(e: Event, hash: Hash)
    requires FieldsFit(e, hash)
    ensures ValueFits(Str(e.eventId)) && ValueFits(Str(e.meterId)) && ValueFits(Str(e.source))
    ensures ValueFits(Str(e.subjectId)) && ValueFits(Str(e.unit))
    ensures ValueFits(Str(DimensionDigest(e, hash))) && ValueFits(Str(ScopeDigest(e, hash)))
    ensures ValueFits(Str(IdempotencyKey(e, hash)))
  {
    hide BoundedText, LabelsFit, DimensionDigest, ScopeDigest, IdempotencyKey;
  }

  lemma OptionsFit(e: Event, hash: Hash)
    requires FieldsFit(e, hash)
    ensures ValueFits(AsJson(e.correctionOf)) && ValueFits(AsJson(e.correctionReason))
    ensures ValueFits(AsJson(e.originalUnit))
    ensures ValueFits(Int(e.meterVersion)) && ValueFits(Int(e.recordedAt))
    ensures ValueFits(Int(e.start)) && ValueFits(Int(e.end))
  {
    hide BoundedText, LabelsFit, NormalForm, AsJson;
    TextIsNormal(e.correctionOf);
    TextIsNormal(e.correctionReason);
    TextIsNormal(e.originalUnit);
    IntIsNormal(e.meterVersion);
    IntIsNormal(e.recordedAt);
    IntIsNormal(e.start);
    IntIsNormal(e.end);
  }

  lemma NumbersFit(e: Event)
    requires Accepted(e.value) && (e.originalValue.Some? ==> Accepted(e.originalValue.value))
    ensures ValueFits(Str(DecimalText(e.value))) && ValueFits(AsJson(StoredRecords.TextOf(e.originalValue)))
  {
    hide BoundedText, DecimalText;
    StoredRecords.PrintedIsBounded(e.value);
    if e.originalValue.Some? {
      StoredRecords.PrintedIsBounded(e.originalValue.value);
    }
  }

  lemma SchemaFits()
    ensures ValueFits(Str("1.0.0"))
  {
    StoredRecords.AsciiLength("1.0.0");
  }

  lemma EventValuesFit(e: Event, hash: Hash)
    requires FieldsFit(e, hash)
    requires Accepted(e.value) && (e.originalValue.Some? ==> Accepted(e.originalValue.value))
    ensures var entries := ToDict(e, hash).entries;
            forall i :: 0 <= i < |entries| ==> ValueFits(entries[i].value)
  {
    hide ValueFits, FieldsFit, LabelsJson, AsJson, DimensionDigest, ScopeDigest, IdempotencyKey, DecimalText, Accepted;
    MappingsFit(e, hash);
    TextsFit(e, hash);
    OptionsFit(e, hash);
    NumbersFit(e);
    SchemaFits();
  }

  lemma KeyFits(k: nat)
    requires k < |EVENT_KEYS|
    ensures BoundedText(EVENT_KEYS[k], 128)
  {
    hide BoundedText;
    StoredRecords.PlainText(EVENT_KEYS[k], 128);
  }

  lemma KeysOfEvent(e: Event, hash: Hash)
    ensures Keys(ToDict(e, hash).entries) == EVENT_KEYS
  {
    hide LabelsJson, AsJson, DimensionDigest, ScopeDigest, IdempotencyKey, DecimalText;
  }

  /** The dictionary of an event, its entries in any order, is encoded as the dictionary in key order. */
  lemma EventIsNormal(e: Event, content: seq<Entry>, hash: Hash)
    requires FieldsFit(e, hash)
    requires Accepted(e.value) && (e.originalValue.Some? ==> Accepted(e.originalValue.value))
    requires multiset(content) == multiset(ToDict(e, hash).entries)
    ensures NormalForm(Obj(content), 0) == Ok(ToDict(e, hash))
  {
    hide ToDict, FieldsFit, NormalForm, Increasing, EVENT_KEYS, Accepted, BoundedText;
    DictionaryIsObject(e, hash);
    var entries := ToDict(e, hash).entries;
    EventValuesFit(e, hash);
    KeysOfEvent(e, hash);
    EventKeysIncrease();
    EventKeyCount();
    forall i | 0 <= i < |entries| ensures BoundedText(entries[i].key, 128) {
      KeyFits(i);
      assert Keys(entries)[i] == entries[i].key;
    }
    assert ToDict(e, hash) == Obj(entries);
    NormalInAnyOrder(content, entries, 0);
  }

  lemma EventKeyCount()
    ensures |EVENT_KEYS| == 22
  {
  }

  lemma DictionaryIsObject(e: Event, hash: Hash)
    ensures ToDict(e, hash).Obj? && |ToDict(e, hash).entries| == 22
  {
    hide LabelsJson, AsJson, DimensionDigest, ScopeDigest, IdempotencyKey, DecimalText;
  }

  // ---- The event as a record ----

  /** The content fields of an event other than its two numbers. */
  function FactsOf(e: Event, hash: Hash): seq<Entry> {
    var entries := ToDict(e, hash).entries;
    entries[..10] + entries[11..19] + entries[20..]
  }

  function RecordOf(e: Event, hash: Hash): StoredRecords.EventRecord {
    StoredRecords.EventRecord(FactsOf(e, hash), e.value, e.originalValue)
  }

  lemma NumbersAt(e: Event, hash: Hash)
    ensures ToDict(e, hash).Obj? && |ToDict(e, hash).entries| == 22
    ensures ToDict(e, hash).entries[10] == Entry(ORIGINAL, AsJson(StoredRecords.TextOf(e.originalValue)))
    ensures ToDict(e, hash).entries[19] == Entry(VALUE, Str(DecimalText(e.value)))
  {
    hide LabelsJson, DimensionDigest, ScopeDigest, IdempotencyKey, DecimalText;
  }

  lemma WithoutTwo(entries: seq<Entry>)
    requires |entries| == 22
    ensures multiset(entries[..10] + entries[11..19] + entries[20..] + [entries[19], entries[10]]) == multiset(entries)
  {
    assert entries == entries[..10] + [entries[10]] + entries[11..19] + [entries[19]] + entries[20..];
    assert [entries[19], entries[10]] == [entries[19]] + [entries[10]];
  }

  lemma ContentOfRecord(e: Event, hash: Hash)
    ensures multiset(StoredRecords.Content(RecordOf(e, hash))) == multiset(ToDict(e, hash).entries)
  {
    hide ToDict, DecimalText;
    NumbersAt(e, hash);
    WithoutTwo(ToDict(e, hash).entries);
  }

  /** An event has one fingerprint, whether taken of the event or of its stored record. */
  lemma FingerprintsAgree(e: Event, hash: Hash)
    requires FieldsFit(e, hash)
    requires Accepted(e.value) && (e.originalValue.Some? ==> Accepted(e.originalValue.value))
    ensures StoredRecords.Fingerprint(RecordOf(e, hash), hash) == Ok(Fingerprint(e, hash))
  {
    hide ToDict, FieldsFit, NormalForm, Accepted, RecordOf, StoredRecords.Content, Print;
    ContentOfRecord(e, hash);
    EventIsNormal(e, StoredRecords.Content(RecordOf(e, hash)), hash);
  }

  lemma FactsOfEvent(e: Event, hash: Hash)
    ensures StoredRecords.Facts(FactsOf(e, hash), {VALUE, ORIGINAL})
  {
    hide ToDict, EVENT_KEYS, TextLess, Increasing, DecimalText;
    NumbersAt(e, hash);
    KeysOfEvent(e, hash);
    EventKeysDistinct();
    var entries, facts := ToDict(e, hash).entries, FactsOf(e, hash);
    forall i | 0 <= i < |facts|
      ensures facts[i] == entries[Place(i)] && Keys(facts)[i] == EVENT_KEYS[Place(i)]
    {
      assert Keys(entries)[Place(i)] == entries[Place(i)].key;
    }
    assert Keys(entries)[10] == ORIGINAL && Keys(entries)[19] == VALUE;
  }

  /** Where the field at `i` of the facts stands in the dictionary. */
  function Place(i: nat): nat {
    if i < 10 then i else if i < 18 then i + 1 else i + 2
  }

  lemma EventKeysDistinct()
    ensures Unique(EVENT_KEYS) && |EVENT_KEYS| == 22
  {
    hide TextLess, EVENT_KEYS;
    EventKeysIncrease();
    EventKeyCount();
    TextOrder();
  }

  /**
    A normalized event survives storage that re-pads its numbers: reading the padded row gives back its own
    dictionary, digit for digit, under its own fingerprint.
   */
  lemma EventSurvivesStorage(e: Event, m: Meter, row: StoredRecords.StoredEvent, hash: Hash)
    requires Injective(hash) && m.Valid() && Constructed(e) && Events.Normalized(e, m).Ok?
    requires FieldsFit(Events.Normalized(e, m).value, hash)
    requires PaddedRow(row, Events.Normalized(e, m).value, hash)
    ensures var n := Events.Normalized(e, m).value;
            && StoredRecords.FromMapping(row, hash).Ok?
            && multiset(StoredRecords.Content(StoredRecords.FromMapping(row, hash).value))
                == multiset(ToDict(n, hash).entries)
            && StoredRecords.Fingerprint(StoredRecords.FromMapping(row, hash).value, hash) == Ok(Fingerprint(n, hash))
  {
    hide *;
    var n := Events.Normalized(e, m).value;
    NormalizedIsRecordable(e, m);
    NumbersAccepted(n);
    FactsOfEvent(n, hash);
    FingerprintsAgree(n, hash);
    RowIsRepadded(row, n, hash);
    NormalizedSurvivesStorage(e, m, FactsOf(n, hash), row, hash);
    ContentOfRecord(n, hash);
    SameContentSameFingerprint(StoredRecords.FromMapping(row, hash).value, RecordOf(n, hash), hash);
  }

  /**
    A row of the event's fields under its own fingerprint, its two numbers re-padded in any way that keeps them equal.
   */
  ghost predicate PaddedRow(row: StoredRecords.StoredEvent, n: Event, hash: Hash) {
    && row.facts == FactsOf(n, hash)
    && (forall i :: 0 <= i < |row.derived| ==> row.derived[i] in row.facts)
    && InDomain(row.value) && SameNumber(n.value, row.value)
    && StoredRecords.SameOptional(n.originalValue, row.original)
    && (row.original.Some? ==> InDomain(row.original.value))
    && row.fingerprint == Some(Fingerprint(n, hash))
  }

  lemma NumbersAccepted(n: Event)
    requires Recordable(n)
    ensures Accepted(n.value) && (n.originalValue.Some? ==> Accepted(n.originalValue.value))
  {
    hide Accepted, Storable;
  }

  lemma RowIsRepadded(row: StoredRecords.StoredEvent, n: Event, hash: Hash)
    requires PaddedRow(row, n, hash)
    requires StoredRecords.Fingerprint(RecordOf(n, hash), hash) == Ok(Fingerprint(n, hash))
    ensures RecordOf(n, hash) == StoredRecords.EventRecord(FactsOf(n, hash), n.value, n.originalValue)
    ensures StoredRecords.Repadded(row, RecordOf(n, hash), hash)
  {
    hide FactsOf, InDomain, SameNumber, StoredRecords.SameOptional, Fingerprint, StoredRecords.Fingerprint;
  }

  lemma SameContentSameFingerprint(d: StoredRecords.EventRecord, e: StoredRecords.EventRecord, hash: Hash)
    requires StoredRecords.Content(d) == StoredRecords.Content(e)
    ensures StoredRecords.Fingerprint(d, hash) == StoredRecords.Fingerprint(e, hash)
  {
    hide StoredRecords.Content, CanonicalText;
  }
}
