/** The two queries an aggregation run makes, and the stored records they select. */
module RunQueries {
  import opened Prelude
  import opened Canonical
  import opened Recovery
  import opened Events
  import opened Aggregation
  import opened Revisions
  import opened Planning
  import opened Queries

  /** A stored dictionary as the executor sees it; a key occurs once. */
  function AsRecord(entries: seq<Entry>): Record {
    if entries == [] then map[]
    else
      var last := entries[|entries| - 1];
      AsRecord(entries[..|entries| - 1])[last.key := last.value]
  }

  lemma {:induction false} FieldAt(entries: seq<Entry>, i: nat)
    requires i < |entries| && forall j :: i < j < |entries| ==> entries[j].key != entries[i].key
    ensures Actual(AsRecord(entries), entries[i].key) == entries[i].value
    decreases |entries|
  {
    if i < |entries| - 1 {
      FieldAt(entries[..|entries| - 1], i);
    }
  }

  function EventRecord(e: Event, hash: Hash): Record {
    AsRecord(ToDict(e, hash).entries)
  }

  /** The event query of a run. */
  function EventQuery(spec: Spec, from: int, to: int, hash: Hash): Query {
    Query(Digest(LabelsJson(spec.scope), hash), from, to,
          [Clause("meterId", Equals(Str(spec.meterId))), Clause("meterVersion", Equals(Int(spec.meterVersion)))],
          spec.pageSize, None)
  }

  lemma EventFields(e: Event, hash: Hash)
    ensures var r := EventRecord(e, hash);
            && Actual(r, "meterId") == Str(e.meterId) && Actual(r, "meterVersion") == Int(e.meterVersion)
            && Actual(r, SCOPE_FIELD) == Str(Digest(LabelsJson(e.scope), hash))
            && Actual(r, WINDOW_FIELD) == Int(e.start)
  {
    hide AsRecord, Actual, Digest, LabelsJson, AsJson;
    var entries := ToDict(e, hash).entries;
    assert entries[7].key == "meterId" && entries[8].key == "meterVersion" && entries[15].key == SCOPE_FIELD
        && entries[21].key == WINDOW_FIELD;
    FieldAt(entries, 7);
    FieldAt(entries, 8);
    FieldAt(entries, 15);
    FieldAt(entries, 21);
  }

  lemma TwoEqualities(a: Clause, b: Clause, record: Record)
    requires a.condition.Equals? && b.condition.Equals?
    ensures Executes(Lowered([a, b]), record)
            <==> Actual(record, a.field) == a.condition.value && Actual(record, b.field) == b.condition.value
  {
    hide Executes, Actual;
    ExecutesAll([a, b], record);
    assert a in [a, b] && b in [a, b];
    assert ClauseMatches(a, record) <==> Actual(record, a.field) == a.condition.value;
    assert ClauseMatches(b, record) <==> Actual(record, b.field) == b.condition.value;
  }

  lemma OneEquality(a: Clause, record: Record)
    requires a.condition.Equals?
    ensures Executes(Lowered([a]), record) <==> Actual(record, a.field) == a.condition.value
  {
    hide Executes, Actual;
    ExecutesAll([a], record);
    assert a in [a];
    assert ClauseMatches(a, record) <==> Actual(record, a.field) == a.condition.value;
  }

  lemma SameScope(a: Labels, b: Labels, hash: Hash)
    requires Injective(hash)
    ensures Digest(LabelsJson(a), hash) == Digest(LabelsJson(b), hash) <==> a == b
  {
    hide Injective, Digest, LabelsJson;
    if Digest(LabelsJson(a), hash) == Digest(LabelsJson(b), hash) {
      DigestInjective(LabelsJson(a), LabelsJson(b), hash);
      LabelsJsonInjective(a, b);
    }
  }

  /** A run's event query executes to exactly the events of the spec that start in [from, to). */
  lemma EventQuerySelectsVisible(e: Event, spec: Spec, from: int, to: int, hash: Hash)
    requires Injective(hash)
    ensures Executes(Lowered(Predicates(EventQuery(spec, from, to, hash))), EventRecord(e, hash))
            <==> Visible(e, spec, from, to)
  {
    hide Injective, Executes, Lowered, Predicates, EventRecord, Actual, Digest, LabelsJson;
    var q := EventQuery(spec, from, to, hash);
    QuerySelects(q, EventRecord(e, hash));
    TwoEqualities(q.where[0], q.where[1], EventRecord(e, hash));
    EventFields(e, hash);
    SameScope(e.scope, spec.scope, hash);
  }

  function AggregateRecord(a: Aggregate, hash: Hash): Record {
    AsRecord(AggregateJson(a, hash).entries)
  }

  /** The latest-version query, before ordering and limit. */
  function AggregateQuery(scope: Labels, id: string, start: int, end: int, hash: Hash): Query {
    Query(Digest(LabelsJson(scope), hash), start, end, [Clause("aggregateId", Equals(Str(id)))], 1, None)
  }

  lemma AggregateFields(a: Aggregate, hash: Hash)
    ensures var r := AggregateRecord(a, hash);
            && Actual(r, "aggregateId") == Str(a.aggregateId)
            && Actual(r, SCOPE_FIELD) == Str(Digest(LabelsJson(a.scope), hash))
            && Actual(r, WINDOW_FIELD) == Int(a.start)
  {
    hide AsRecord, Actual, Digest, LabelsJson, AsJson, VersionId;
    var entries := AggregateJson(a, hash).entries;
    assert entries[0].key == "aggregateId" && entries[13].key == SCOPE_FIELD && entries[19].key == WINDOW_FIELD;
    FieldAt(entries, 0);
    FieldAt(entries, 13);
    FieldAt(entries, 19);
  }

  /** The latest-version query executes to exactly the versions listed under the id in the window. */
  lemma AggregateQuerySelectsListed(a: Aggregate, scope: Labels, id: string, start: int, end: int, hash: Hash)
    requires Injective(hash)
    ensures Executes(Lowered(Predicates(AggregateQuery(scope, id, start, end, hash))), AggregateRecord(a, hash))
            <==> Listed(a, scope, id, start, end)
  {
    hide Injective, Executes, Lowered, Predicates, AggregateRecord, Actual, Digest, LabelsJson;
    var q := AggregateQuery(scope, id, start, end, hash);
    QuerySelects(q, AggregateRecord(a, hash));
    OneEquality(q.where[0], AggregateRecord(a, hash));
    AggregateFields(a, hash);
    SameScope(a.scope, scope, hash);
  }
}
