/** The dictionary of an aggregate version as a stored record, as for events. */
module AggregateRecords {
  import opened Prelude
  import opened Orders
  import opened Canonical
  import opened SortedObjects
  import opened Decimals
  import opened Texts
  import opened Recovery
  import opened Events
  import opened EventRecords
  import opened Totals
  import opened Aggregation
  import opened AggregationLaws
  import opened Revisions
  import StoredRecords
  import StoredTotals

  // ---- Keys in order ----

  const AGGREGATE_KEYS := [
    "aggregateId", "aggregateRevision", "aggregateVersionId", "algorithm", "correlation", "createdAt",
    "dimensionFingerprint", "dimensions", "eventCount", "meterId", "meterVersion", "schemaVersion", "scope",
    "scopeFingerprint", "sourceFingerprint", "supersedes", "total", "watermark", "windowEnd", "windowStart"
  ]

  /** How many characters each key shares with the next. */
  const SHARED_BY_NEXT: seq<nat> := [9, 9, 1, 0, 1, 0, 9, 0, 0, 5, 0, 2, 5, 1, 1, 0, 0, 1, 6]

  lemma AggregateKeyStep(k: nat)
    requires 0 < k < |AGGREGATE_KEYS|
    ensures TextLess(AGGREGATE_KEYS[k - 1], AGGREGATE_KEYS[k])
  {
    FirstDifference(AGGREGATE_KEYS[k - 1], AGGREGATE_KEYS[k], SHARED_BY_NEXT[k - 1]);
  }

  lemma AggregateKeysIncrease()
    ensures Increasing(AGGREGATE_KEYS)
  {
    hide TextLess, AGGREGATE_KEYS;
    forall k | 0 < k < |AGGREGATE_KEYS| ensures TextLess(AGGREGATE_KEYS[k - 1], AGGREGATE_KEYS[k]) {
      AggregateKeyStep(k);
    }
    forall i, j | 0 <= i < j < |AGGREGATE_KEYS| ensures TextLess(AGGREGATE_KEYS[i], AGGREGATE_KEYS[j]) {
      IncreasingByStep(AGGREGATE_KEYS, i, j);
    }
  }

  lemma AggregateKeyCount()
    ensures |AGGREGATE_KEYS| == 20
  {
  }

  lemma AggregateKeysDistinct()
    ensures Unique(AGGREGATE_KEYS)
  {
    hide TextLess, AGGREGATE_KEYS;
    AggregateKeysIncrease();
    TextOrder();
  }

  lemma AggregateKeyFits(k: nat)
    requires k < |AGGREGATE_KEYS|
    ensures BoundedText(AGGREGATE_KEYS[k], 128)
  {
    hide BoundedText;
    StoredRecords.PlainText(AGGREGATE_KEYS[k], 128);
  }

  lemma KeysOfAggregate(a: Aggregate, hash: Hash)
    ensures Keys(AggregateJson(a, hash).entries) == AGGREGATE_KEYS
  {
    hide LabelsJson, AsJson, Digest, DecimalText, VersionId;
  }

  // ---- Fields ----

  /** What the constructors check of an aggregate's texts, mappings and integers, and of its dictionary's digests. */
  ghost predicate AggregateFits(a: Aggregate, hash: Hash) {
    && LabelsFit(a.correlation) && LabelsFit(a.dimensions) && LabelsFit(a.scope)
    && BoundedText(a.aggregateId, 4096) && BoundedText(VersionId(a.aggregateId, a.revision), 4096)
    && BoundedText(a.algorithm, 4096) && BoundedText(a.meterId, 4096) && BoundedText(a.sourceFingerprint, 4096)
    && TextFits(a.supersedes)
    && IntFits(a.revision) && IntFits(a.createdAt) && IntFits(a.eventCount) && IntFits(a.meterVersion)
    && IntFits(a.watermark) && IntFits(a.start) && IntFits(a.end)
    && BoundedText(Digest(LabelsJson(a.dimensions), hash), 4096)
    && BoundedText(Digest(LabelsJson(a.scope), hash), 4096)
  }

  lemma AggregateMappingsFit(a: Aggregate, hash: Hash)
    requires AggregateFits(a, hash)
    ensures ValueFits(LabelsJson(a.correlation)) && ValueFits(LabelsJson(a.dimensions))
    ensures ValueFits(LabelsJson(a.scope))
  {
    hide BoundedText, LabelsFit, NormalForm, LabelsJson;
    LabelsAreNormal(a.correlation);
    LabelsAreNormal(a.dimensions);
    LabelsAreNormal(a.scope);
  }

  lemma AggregateTextsFit(a: Aggregate, hash: Hash)
    requires AggregateFits(a, hash)
    ensures ValueFits(Str(a.aggregateId)) && ValueFits(Str(VersionId(a.aggregateId, a.revision)))
    ensures ValueFits(Str(a.algorithm)) && ValueFits(Str(a.meterId)) && ValueFits(Str(a.sourceFingerprint))
    ensures ValueFits(Str(Digest(LabelsJson(a.dimensions), hash))) && ValueFits(Str(Digest(LabelsJson(a.scope), hash)))
  {
    hide BoundedText, LabelsFit, Digest, VersionId;
  }

  lemma AggregateOthersFit(a: Aggregate, hash: Hash)
    requires AggregateFits(a, hash)
    ensures ValueFits(AsJson(a.supersedes)) && ValueFits(Int(a.revision)) && ValueFits(Int(a.createdAt))
    ensures ValueFits(Int(a.eventCount)) && ValueFits(Int(a.meterVersion)) && ValueFits(Int(a.watermark))
    ensures ValueFits(Int(a.start)) && ValueFits(Int(a.end))
  {
    hide BoundedText, LabelsFit, NormalForm, AsJson;
    TextIsNormal(a.supersedes);
    IntIsNormal(a.revision);
    IntIsNormal(a.createdAt);
    IntIsNormal(a.eventCount);
    IntIsNormal(a.meterVersion);
    IntIsNormal(a.watermark);
    IntIsNormal(a.start);
    IntIsNormal(a.end);
  }

  lemma TotalFits(total: Decimal)
    requires Accepted(total)
    ensures ValueFits(Str(DecimalText(total)))
  {
    hide BoundedText, DecimalText;
    StoredRecords.PrintedIsBounded(total);
  }

  lemma AggregateValuesFit(a: Aggregate, hash: Hash)
    requires AggregateFits(a, hash) && Accepted(a.total)
    ensures var entries := AggregateJson(a, hash).entries;
            forall i :: 0 <= i < |entries| ==> ValueFits(entries[i].value)
  {
    hide ValueFits, AggregateFits, LabelsJson, AsJson, Digest, VersionId, DecimalText, Accepted;
    AggregateMappingsFit(a, hash);
    AggregateTextsFit(a, hash);
    AggregateOthersFit(a, hash);
    TotalFits(a.total);
    SchemaFits();
  }

  /** The dictionary of an aggregate, its entries in any order, is encoded as the dictionary in key order. */
  lemma AggregateIsNormal(a: Aggregate, content: seq<Entry>, hash: Hash)
    requires AggregateFits(a, hash) && Accepted(a.total)
    requires multiset(content) == multiset(AggregateJson(a, hash).entries)
    ensures NormalForm(Obj(content), 0) == Ok(AggregateJson(a, hash))
  {
    hide AggregateJson, AggregateFits, NormalForm, Increasing, AGGREGATE_KEYS, Accepted, BoundedText;
    TotalAt(a, hash);
    var entries := AggregateJson(a, hash).entries;
    AggregateValuesFit(a, hash);
    KeysOfAggregate(a, hash);
    AggregateKeysIncrease();
    AggregateKeyCount();
    forall i | 0 <= i < |entries| ensures BoundedText(entries[i].key, 128) {
      AggregateKeyFits(i);
      assert Keys(entries)[i] == entries[i].key;
    }
    assert AggregateJson(a, hash) == Obj(entries);
    NormalInAnyOrder(content, entries, 0);
  }

  // ---- The aggregate as a record ----

  /** The content fields of an aggregate other than its total. */
  function AggregateFacts(a: Aggregate, hash: Hash): seq<Entry> {
    var entries := AggregateJson(a, hash).entries;
    entries[..16] + entries[17..]
  }

  function AggregateRecord(a: Aggregate, hash: Hash): StoredTotals.TotalRecord {
    StoredTotals.TotalRecord(AggregateFacts(a, hash), a.total)
  }

  lemma TotalAt(a: Aggregate, hash: Hash)
    ensures AggregateJson(a, hash).Obj? && |AggregateJson(a, hash).entries| == 20
    ensures AggregateJson(a, hash).entries[16] == Entry(TOTAL, Str(DecimalText(a.total)))
  {
    hide LabelsJson, Digest, VersionId, DecimalText;
  }

  lemma WithoutTotal(entries: seq<Entry>)
    requires |entries| == 20
    ensures multiset(entries[..16] + entries[17..] + [entries[16]]) == multiset(entries)
  {
    assert entries == entries[..16] + [entries[16]] + entries[17..];
  }

  lemma ContentOfAggregate(a: Aggregate, hash: Hash)
    ensures multiset(StoredTotals.TotalContent(AggregateRecord(a, hash))) == multiset(AggregateJson(a, hash).entries)
  {
    hide AggregateJson, DecimalText;
    TotalAt(a, hash);
    WithoutTotal(AggregateJson(a, hash).entries);
  }

  /** An aggregate has one fingerprint, whether taken of the aggregate or of its stored record. */
  lemma AggregateFingerprintsAgree(a: Aggregate, hash: Hash)
    requires AggregateFits(a, hash) && Accepted(a.total)
    ensures StoredTotals.TotalFingerprint(AggregateRecord(a, hash), hash) == Ok(AggregateFingerprint(a, hash))
  {
    hide AggregateJson, AggregateFits, NormalForm, Accepted, AggregateRecord, StoredTotals.TotalContent, Print;
    ContentOfAggregate(a, hash);
    AggregateIsNormal(a, StoredTotals.TotalContent(AggregateRecord(a, hash)), hash);
  }

  lemma FactsOfAggregate(a: Aggregate, hash: Hash)
    ensures StoredRecords.Facts(AggregateFacts(a, hash), {TOTAL})
  {
    hide AggregateJson, AGGREGATE_KEYS, DecimalText;
    TotalAt(a, hash);
    KeysOfAggregate(a, hash);
    AggregateKeysDistinct();
    AggregateKeyCount();
    var entries, facts := AggregateJson(a, hash).entries, AggregateFacts(a, hash);
    forall i | 0 <= i < |facts|
      ensures var j := if i < 16 then i else i + 1; facts[i] == entries[j] && Keys(facts)[i] == AGGREGATE_KEYS[j]
    {
      var j := if i < 16 then i else i + 1;
      assert Keys(entries)[j] == entries[j].key;
    }
    assert Keys(entries)[16] == TOTAL;
  }

  /** A row of the aggregate's fields under its own fingerprint, its total re-padded in any way that keeps it equal. */
  ghost predicate PaddedAggregate(row: StoredTotals.StoredAggregate, a: Aggregate, hash: Hash) {
    && row.facts == AggregateFacts(a, hash)
    && (forall i :: 0 <= i < |row.derived| ==> row.derived[i] in row.facts)
    && InDomain(row.total) && SameNumber(a.total, row.total)
    && row.fingerprint == Some(AggregateFingerprint(a, hash))
  }

  lemma AggregateIsRepadded(row: StoredTotals.StoredAggregate, a: Aggregate, hash: Hash)
    requires PaddedAggregate(row, a, hash)
    requires StoredTotals.TotalFingerprint(AggregateRecord(a, hash), hash) == Ok(AggregateFingerprint(a, hash))
    ensures AggregateRecord(a, hash) == StoredTotals.TotalRecord(AggregateFacts(a, hash), a.total)
    ensures StoredTotals.RepaddedTotal(row, AggregateRecord(a, hash), hash)
  {
    hide AggregateFacts, InDomain, SameNumber, AggregateFingerprint, StoredTotals.TotalFingerprint;
  }

  lemma SameContentSameTotalFingerprint(a: StoredTotals.TotalRecord, b: StoredTotals.TotalRecord, hash: Hash)
    requires StoredTotals.TotalContent(a) == StoredTotals.TotalContent(b)
    ensures StoredTotals.TotalFingerprint(a, hash) == StoredTotals.TotalFingerprint(b, hash)
  {
    hide StoredTotals.TotalContent, CanonicalText;
  }

  lemma NewTotalAccepted(key: GroupKey, members: seq<Event>, source: string, current: Option<Aggregate>, job: Job)
    requires NewVersion(key, members, source, current, job).Ok?
    ensures Accepted(NewVersion(key, members, source, current, job).value.total)
  {
    hide RunningSum, Storable, InDomain, AggregateId;
    StorageKeeps(RunningSum(Values(members)));
  }

  /**
    A new version survives storage that re-pads its total: reading the padded row gives back its own dictionary, digit
    for digit, under its own fingerprint.
   */
  lemma AggregateSurvivesStorage(key: GroupKey, members: seq<Event>, source: string, current: Option<Aggregate>,
      job: Job, row: StoredTotals.StoredAggregate)
    requires Injective(job.hash) && NewVersion(key, members, source, current, job).Ok?
    requires AggregateFits(NewVersion(key, members, source, current, job).value, job.hash)
    requires PaddedAggregate(row, NewVersion(key, members, source, current, job).value, job.hash)
    ensures var a := NewVersion(key, members, source, current, job).value;
            && StoredTotals.AggregateFromMapping(row, job.hash).Ok?
            && var read := StoredTotals.AggregateFromMapping(row, job.hash).value;
            && multiset(StoredTotals.TotalContent(read)) == multiset(AggregateJson(a, job.hash).entries)
            && StoredTotals.TotalFingerprint(read, job.hash) == Ok(AggregateFingerprint(a, job.hash))
  {
    hide *;
    var a, hash := NewVersion(key, members, source, current, job).value, job.hash;
    NewTotalAccepted(key, members, source, current, job);
    FactsOfAggregate(a, hash);
    AggregateFingerprintsAgree(a, hash);
    AggregateIsRepadded(row, a, hash);
    TotalSurvivesStorage(key, members, source, current, job, AggregateFacts(a, hash), row);
    ContentOfAggregate(a, hash);
    SameContentSameTotalFingerprint(StoredTotals.AggregateFromMapping(row, hash).value, AggregateRecord(a, hash), hash);
  }
}
