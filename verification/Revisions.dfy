/**
  Aggregate versions. The aggregate resource is the sequence of its rows in the order they were stored;
  a row is keyed by scope and version id, and never changes.
 */
module Revisions {
  import opened Prelude
  import opened Orders
  import opened Digits
  import opened Canonical
  import opened Decimals
  import opened Texts
  import opened Recovery
  import opened Events
  import opened Totals
  import opened Aggregation

  /** `to_dict` without the fingerprint, in key order. */
  function AggregateJson(a: Aggregate, hash: Hash): Json {
    Obj([
      Entry("aggregateId", Str(a.aggregateId)),
      Entry("aggregateRevision", Int(a.revision)),
      Entry("aggregateVersionId", Str(VersionId(a.aggregateId, a.revision))),
      Entry("algorithm", Str(a.algorithm)),
      Entry("correlation", LabelsJson(a.correlation)),
      Entry("createdAt", Int(a.createdAt)),
      Entry("dimensionFingerprint", Str(Digest(LabelsJson(a.dimensions), hash))),
      Entry("dimensions", LabelsJson(a.dimensions)),
      Entry("eventCount", Int(a.eventCount)),
      Entry("meterId", Str(a.meterId)),
      Entry("meterVersion", Int(a.meterVersion)),
      Entry("schemaVersion", Str("1.0.0")),
      Entry("scope", LabelsJson(a.scope)),
      Entry("scopeFingerprint", Str(Digest(LabelsJson(a.scope), hash))),
      Entry("sourceFingerprint", Str(a.sourceFingerprint)),
      Entry("supersedes", AsJson(a.supersedes)),
      Entry("total", Str(DecimalText(a.total))),
      Entry("watermark", Int(a.watermark)),
      Entry("windowEnd", Int(a.end)),
      Entry("windowStart", Int(a.start))
    ])
  }

  function AggregateFingerprint(a: Aggregate, hash: Hash): string {
    Digest(AggregateJson(a, hash), hash)
  }

  predicate SameVersion(a: Aggregate, b: Aggregate) {
    a.scope == b.scope && VersionId(a.aggregateId, a.revision) == VersionId(b.aggregateId, b.revision)
  }

  function FindVersion(rows: seq<Aggregate>, a: Aggregate): (r: Option<Aggregate>)
    ensures r.Some? ==> r.value in rows && SameVersion(r.value, a)
    ensures r.None? ==> forall i :: 0 <= i < |rows| ==> !SameVersion(rows[i], a)
  {
    if rows == [] then None
    else if SameVersion(rows[0], a) then Some(rows[0])
    else FindVersion(rows[1..], a)
  }

  /** `put_aggregate`: the stored version and whether it was there already. */
  function PutAggregate(rows: seq<Aggregate>, a: Aggregate, hash: Hash): (seq<Aggregate>, Result<(Aggregate, bool)>) {
    match FindVersion(rows, a)
    case Some(existing) =>
      (rows, if AggregateFingerprint(existing, hash) != AggregateFingerprint(a, hash) then Err(UsageConflict)
             else Ok((existing, true)))
    case None => (rows + [a], Ok((a, false)))
  }

  /** A stored row is this version, content and all. */
  ghost predicate StoredAs(rows: seq<Aggregate>, a: Aggregate, hash: Hash) {
    exists b :: b in rows && SameVersion(b, a) && AggregateFingerprint(b, hash) == AggregateFingerprint(a, hash)
  }

  /**
    What a put answers: it fails, changing nothing, exactly if the version id is taken by other content; it replays what
    is stored with the same content; and otherwise it appends.
   */
  lemma PutAnswersExactly(rows: seq<Aggregate>, a: Aggregate, hash: Hash)
    requires UniqueVersions(rows)
    ensures var (after, r) := PutAggregate(rows, a, hash);
            && (r.Ok? <==> forall b :: b in rows && SameVersion(b, a) ==>
                             AggregateFingerprint(b, hash) == AggregateFingerprint(a, hash))
            && (r.Err? ==> r.error == UsageConflict && after == rows)
            && (r.Ok? && r.value.1 <==> StoredAs(rows, a, hash))
            && (r.Ok? && r.value.1 ==> after == rows && r.value.0 in rows)
            && (r.Ok? && !r.value.1 ==> after == rows + [a] && r.value.0 == a)
            && (r.Ok? ==> && SameVersion(r.value.0, a)
                          && AggregateFingerprint(r.value.0, hash) == AggregateFingerprint(a, hash))
  {
    hide AggregateFingerprint;
    if FindVersion(rows, a).Some? {
      var x := FindVersion(rows, a).value;
      forall b | b in rows && SameVersion(b, a) ensures b == x {
        OneVersion(rows, a, b, x);
      }
    }
  }

  lemma OneVersion(rows: seq<Aggregate>, a: Aggregate, b: Aggregate, c: Aggregate)
    requires UniqueVersions(rows) && b in rows && c in rows && SameVersion(b, a) && SameVersion(c, a)
    ensures b == c
  {
    hide VersionId;
    var i :| 0 <= i < |rows| && rows[i] == b;
    var j :| 0 <= j < |rows| && rows[j] == c;
    assert SameVersion(rows[i], rows[j]) && SameVersion(rows[j], rows[i]);
  }

  /** Whatever the rows, a put that succeeds leaves the version stored. */
  lemma PutIsStored(rows: seq<Aggregate>, a: Aggregate, hash: Hash)
    ensures rows <= PutAggregate(rows, a, hash).0
    ensures PutAggregate(rows, a, hash).1.Ok? ==> StoredAs(PutAggregate(rows, a, hash).0, a, hash)
    ensures PutAggregate(rows, a, hash).1.Err? ==> PutAggregate(rows, a, hash).0 == rows
    ensures forall b :: b in PutAggregate(rows, a, hash).0 ==> b in rows || b == a
  {
    hide AggregateFingerprint, VersionId;
    if FindVersion(rows, a).None? {
      assert a in rows + [a];
    }
  }

  predicate Listed(a: Aggregate, scope: Labels, id: string, start: int, end: int) {
    a.scope == scope && a.aggregateId == id && start <= a.start < end
  }

  /** `latest_aggregate`: the highest revision listed under the id in the window. */
  function Latest(rows: seq<Aggregate>, scope: Labels, id: string, start: int, end: int): Option<Aggregate> {
    if rows == [] then None
    else
      var n := |rows| - 1;
      var before := Latest(rows[..n], scope, id, start, end);
      if Listed(rows[n], scope, id, start, end)
          && (before.None? || before.value.revision <= rows[n].revision) then Some(rows[n])
      else before
  }

  lemma {:induction false} LatestIsHighest(rows: seq<Aggregate>, scope: Labels, id: string, start: int, end: int)
    ensures var r := Latest(rows, scope, id, start, end);
            && (r.Some? ==> r.value in rows && Listed(r.value, scope, id, start, end))
            && forall a :: a in rows && Listed(a, scope, id, start, end) ==> r.Some? && a.revision <= r.value.revision
  {
    if rows != [] {
      var n := |rows| - 1;
      LatestIsHighest(rows[..n], scope, id, start, end);
      assert rows == rows[..n] + [rows[n]];
    }
  }

  lemma LastAtSign(a: string, x: string, b: string, y: string)
    requires AllDigits(x) && a + "@" + x == b + "@" + y
    ensures |b| <= |a|
  {
    var s := a + "@" + x;
    assert forall i :: |a| < i < |s| ==> s[i] == x[i - |a| - 1];
    assert s[|b|] == (b + "@" + y)[|b|] == '@';
    assert forall i :: |a| < i < |s| ==> IsDigit(s[i]);
  }

  /** A version id splits in one way into its aggregate id and its revision. */
  lemma VersionIdInjective(a: string, m: nat, b: string, n: nat)
    requires VersionId(a, m) == VersionId(b, n)
    ensures a == b && m == n
  {
    var x, y := Numeral(m), Numeral(n);
    LastAtSign(a, x, b, y);
    LastAtSign(b, y, a, x);
    var s := VersionId(a, m);
    assert a == s[..|a|] && b == s[..|b|];
    assert x == s[|a| + 1..] && y == s[|b| + 1..];
    NumeralInjective(m, n);
  }

  // ---- What the stored versions keep ----

  ghost predicate Precedes(a: Aggregate, b: Aggregate) {
    && a.scope == b.scope && a.aggregateId == b.aggregateId
    && b.revision == a.revision + 1
    && b.supersedes == Some(VersionId(a.aggregateId, a.revision))
  }

  /** First of its chain, or the direct successor of a stored version. */
  ghost predicate Follows(rows: seq<Aggregate>, a: Aggregate) {
    || (a.revision == 1 && a.supersedes.None?)
    || (exists j :: 0 <= j < |rows| && Precedes(rows[j], a))
  }

  ghost predicate UniqueVersions(rows: seq<Aggregate>) {
    forall i, j :: 0 <= i < j < |rows| ==> !SameVersion(rows[i], rows[j])
  }

  /** The numbers of a version are those of some set of normalized events that has its source fingerprint. */
  ghost predicate Computed(a: Aggregate, members: seq<Event>, hash: Hash) {
    && AllMetered(members)
    && SetFingerprint(members, hash) == Ok(a.sourceFingerprint)
    && a.eventCount == |members|
    && StorageResult(RunningSum(Values(members))) == Ok(a.total)
  }

  ghost predicate Honest(a: Aggregate, hash: Hash) {
    exists members :: Computed(a, members, hash)
  }

  /** The version's identity belongs to its group. */
  ghost predicate IssuedFor(a: Aggregate, spec: Spec, key: GroupKey, hash: Hash) {
    && spec.Valid()
    && a.scope == spec.scope && a.aggregateId == AggregateId(spec, key, hash)
    && a.start == key.start && a.end == key.start + spec.windowSize && a.dimensions == key.dimensions
    && a.meterId == spec.meterId && a.meterVersion == spec.meterVersion && a.algorithm == spec.algorithm
  }

  ghost predicate Issued(a: Aggregate, hash: Hash) {
    exists spec, key :: IssuedFor(a, spec, key, hash)
  }

  ghost predicate Chained(rows: seq<Aggregate>, hash: Hash) {
    && UniqueVersions(rows)
    && (forall i :: 0 <= i < |rows| ==> rows[i].revision >= 1 && Follows(rows[..i], rows[i]))
    && (forall i :: 0 <= i < |rows| ==> Honest(rows[i], hash) && Issued(rows[i], hash))
  }

  lemma FollowsGrows(rows: seq<Aggregate>, more: seq<Aggregate>, a: Aggregate)
    requires Follows(rows, a) && rows <= more
    ensures Follows(more, a)
  {
    if j :| 0 <= j < |rows| && Precedes(rows[j], a) {
      assert more[j] == rows[j];
    }
  }

  lemma AppendKeepsChained(rows: seq<Aggregate>, a: Aggregate, hash: Hash)
    requires Chained(rows, hash) && Follows(rows, a) && a.revision >= 1 && Honest(a, hash) && Issued(a, hash)
    requires FindVersion(rows, a).None?
    ensures Chained(rows + [a], hash)
  {
    hide Issued, Follows, Honest, FindVersion;
    var more := rows + [a];
    forall i | 0 <= i < |more| ensures more[i].revision >= 1 && Follows(more[..i], more[i]) {
      assert more[..i] == rows[..i];
      assert rows[..|rows|] == rows;
    }
    forall i, j | 0 <= i < j < |more| ensures !SameVersion(more[i], more[j]) {
    }
  }

  /** Below every stored revision all revisions from 1 on are stored too, each superseding its predecessor. */
  lemma {:induction false} NoGaps(rows: seq<Aggregate>, i: nat, revision: nat, hash: Hash) returns (j: nat)
    requires Chained(rows, hash) && i < |rows| && 1 <= revision <= rows[i].revision
    ensures j <= i && rows[j].scope == rows[i].scope && rows[j].aggregateId == rows[i].aggregateId
            && rows[j].revision == revision
    ensures rows[j].supersedes == if revision == 1 then None else Some(VersionId(rows[i].aggregateId, revision - 1))
    decreases i
  {
    hide Issued, Honest;
    assert Follows(rows[..i], rows[i]);
    if rows[i].revision == revision {
      j := i;
      if k :| 0 <= k < i && Precedes(rows[..i][k], rows[i]) {
        assert rows[k].revision >= 1;
      }
    } else {
      var k :| 0 <= k < i && Precedes(rows[..i][k], rows[i]);
      j := NoGaps(rows, k, revision, hash);
    }
  }

  // ---- Interleaved runners ----

  /** A runner's dealing with one group: it read the latest version, then planned what to put. */
  datatype Deal = Reading(current: Option<Aggregate>, scope: Labels, id: string) | Putting(next: Aggregate)

  datatype Table = Table(rows: seq<Aggregate>, deals: map<nat, Deal>)

  ghost predicate ReadStep(s: Table, t: Table, c: nat, scope: Labels, id: string, start: int, end: int) {
    t == s.(deals := s.deals[c := Reading(Latest(s.rows, scope, id, start, end), scope, id)])
  }

  /** Any runner of any spec, on any scan of normalized events, however old. */
  ghost predicate PlanStep(s: Table, t: Table, c: nat, key: GroupKey, members: seq<Event>, job: Job) {
    && c in s.deals && s.deals[c].Reading?
    && AllMetered(members) && job.spec.Valid()
    && AggregateId(job.spec, key, job.hash) == s.deals[c].id && job.spec.scope == s.deals[c].scope
    && Planned(key, members, s.deals[c].current, job).Ok?
    && t == s.(deals := s.deals[c := Putting(Planned(key, members, s.deals[c].current, job).value)])
  }

  ghost predicate PutStep(s: Table, t: Table, c: nat, hash: Hash) {
    && c in s.deals && s.deals[c].Putting?
    && t == Table(PutAggregate(s.rows, s.deals[c].next, hash).0, s.deals - {c})
  }

  ghost predicate StopStep(s: Table, t: Table, c: nat) {
    t == s.(deals := s.deals - {c})
  }

  ghost predicate Next(s: Table, t: Table, hash: Hash) {
    || (exists c: nat, scope, id, start, end :: ReadStep(s, t, c, scope, id, start, end))
    || (exists c: nat, key, members, job: Job :: job.hash == hash && PlanStep(s, t, c, key, members, job))
    || (exists c: nat :: PutStep(s, t, c, hash))
    || (exists c: nat :: StopStep(s, t, c))
  }

  ghost predicate Run(run: seq<Table>, hash: Hash) {
    && run != [] && run[0] == Table([], map[])
    && forall i :: 0 <= i < |run| - 1 ==> Next(run[i], run[i + 1], hash)
  }

  ghost predicate DealHolds(rows: seq<Aggregate>, d: Deal, hash: Hash) {
    match d
    case Reading(current, scope, id) =>
      current.Some? ==> current.value in rows && current.value.scope == scope && current.value.aggregateId == id
    case Putting(next) =>
      || next in rows
      || (Follows(rows, next) && next.revision >= 1 && Honest(next, hash) && Issued(next, hash))
  }

  ghost predicate Invariant(s: Table, hash: Hash) {
    Chained(s.rows, hash) && forall c :: c in s.deals ==> DealHolds(s.rows, s.deals[c], hash)
  }

  lemma DealHoldsGrows(rows: seq<Aggregate>, more: seq<Aggregate>, d: Deal, hash: Hash)
    requires DealHolds(rows, d, hash) && rows <= more
    ensures DealHolds(more, d, hash)
  {
    hide Issued, Follows, Honest;
    if d.Putting? && d.next !in rows {
      FollowsGrows(rows, more, d.next);
    }
  }

  lemma NewVersionIsComputed(key: GroupKey, members: seq<Event>, source: string, current: Option<Aggregate>, job: Job)
    requires AllMetered(members) && SetFingerprint(members, job.hash) == Ok(source)
    requires job.spec.Valid() && NewVersion(key, members, source, current, job).Ok?
    ensures Computed(NewVersion(key, members, source, current, job).value, members, job.hash)
    ensures IssuedFor(NewVersion(key, members, source, current, job).value, job.spec, key, job.hash)
  {
    hide AllMetered, StorageResult, RunningSum, SetFingerprint, AggregateId, Unique;
  }

  /** What a runner plans over a stored current version is stored already or extends its chain. */
  lemma PlannedHolds(rows: seq<Aggregate>, key: GroupKey, members: seq<Event>, current: Option<Aggregate>, job: Job)
    requires AllMetered(members) && job.spec.Valid() && Planned(key, members, current, job).Ok?
    requires current.Some? ==>
               && current.value in rows && current.value.scope == job.spec.scope
               && current.value.aggregateId == AggregateId(job.spec, key, job.hash)
    ensures DealHolds(rows, Putting(Planned(key, members, current, job).value), job.hash)
  {
    hide AllMetered, StorageResult, RunningSum, SetFingerprint, AggregateId, VersionId, Computed, IssuedFor, Unique;
    var source := SetFingerprint(members, job.hash).value;
    var next := Planned(key, members, current, job).value;
    if !(current.Some? && current.value.sourceFingerprint == source) {
      NewVersionIsComputed(key, members, source, current, job);
      if current.Some? {
        var j :| 0 <= j < |rows| && rows[j] == current.value;
        assert Precedes(rows[j], next);
      }
    }
  }

  lemma NotFoundIsAbsent(rows: seq<Aggregate>, a: Aggregate)
    requires FindVersion(rows, a).None?
    ensures a !in rows
  {
    assert SameVersion(a, a);
  }

  lemma PutKeeps(rows: seq<Aggregate>, next: Aggregate, hash: Hash)
    requires Chained(rows, hash) && DealHolds(rows, Putting(next), hash)
    ensures Chained(PutAggregate(rows, next, hash).0, hash) && rows <= PutAggregate(rows, next, hash).0
  {
    hide Issued, Follows, Honest, Chained, AggregateFingerprint;
    if FindVersion(rows, next).None? {
      NotFoundIsAbsent(rows, next);
      AppendKeepsChained(rows, next, hash);
    }
  }

  lemma NextKeepsInvariant(s: Table, t: Table, hash: Hash)
    requires Invariant(s, hash) && Next(s, t, hash)
    ensures Invariant(t, hash) && s.rows <= t.rows
  {
    hide Issued, Follows, Honest, Chained, PutAggregate, Planned, AllMetered, AggregateId, Latest;
    if c: nat, scope, id, start, end :| ReadStep(s, t, c, scope, id, start, end) {
      LatestIsHighest(s.rows, scope, id, start, end);
    } else if c: nat, key, members, job: Job :| job.hash == hash && PlanStep(s, t, c, key, members, job) {
      assert DealHolds(s.rows, s.deals[c], hash);
      PlannedHolds(s.rows, key, members, s.deals[c].current, job);
    } else if c: nat :| PutStep(s, t, c, hash) {
      PutKeeps(s.rows, s.deals[c].next, hash);
      forall d | d in t.deals ensures DealHolds(t.rows, t.deals[d], hash) {
        DealHoldsGrows(s.rows, t.rows, s.deals[d], hash);
      }
    } else {
      assert exists c: nat :: StopStep(s, t, c);
    }
  }

  /**
    Under every interleaving of any number of runners, live, stale or crashed: stored versions never change,
    and each aggregate's versions form one gapless chain of honest revisions.
   */
  lemma {:induction false} VersionsFormChains(run: seq<Table>, hash: Hash, i: nat)
    requires Run(run, hash) && i < |run|
    ensures Invariant(run[i], hash)
    ensures forall j :: 0 <= j <= i ==> run[j].rows <= run[i].rows
  {
    hide Invariant, Next;
    if i > 0 {
      VersionsFormChains(run, hash, i - 1);
      NextKeepsInvariant(run[i - 1], run[i], hash);
    } else {
      EmptyTable(hash);
    }
  }

  lemma EmptyTable(hash: Hash)
    ensures Invariant(Table([], map[]), hash)
  {
  }

  /** The id of the version before a revision. */
  function Before(aggregateId: string, revision: nat): Option<string> {
    if revision <= 1 then None else Some(VersionId(aggregateId, revision - 1))
  }

  /**
    In every reachable table the revisions of an aggregate are exactly 1 to n, where n is the latest one's, each once.
   */
  lemma RevisionsAreOneToN(run: seq<Table>, hash: Hash, s: nat, i: nat, revision: nat)
    requires Run(run, hash) && s < |run| && i < |run[s].rows|
    ensures var rows := run[s].rows;
            && (1 <= revision <= rows[i].revision ==>
                  exists j ::
                    && 0 <= j < |rows| && rows[j].scope == rows[i].scope
                    && rows[j].aggregateId == rows[i].aggregateId && rows[j].revision == revision
                    && rows[j].supersedes == Before(rows[i].aggregateId, revision))
            && forall j ::
                 0 <= j < |rows| && rows[j].scope == rows[i].scope && rows[j].aggregateId == rows[i].aggregateId
                 && rows[j].revision == rows[i].revision ==>
                   j == i
  {
    hide Next, Follows, Honest;
    VersionsFormChains(run, hash, s);
    var rows := run[s].rows;
    if 1 <= revision <= rows[i].revision {
      var j := NoGaps(rows, i, revision, hash);
    }
    forall j | 0 <= j < |rows| && rows[j].scope == rows[i].scope && rows[j].aggregateId == rows[i].aggregateId
               && rows[j].revision == rows[i].revision
      ensures j == i
    {
      assert SameVersion(rows[i], rows[j]) && SameVersion(rows[j], rows[i]);
    }
  }

  // ---- Small tables ----

  lemma LatestOf(a: Aggregate, scope: Labels, id: string, start: int, end: int)
    ensures Latest([], scope, id, start, end) == None
    ensures Latest([a], scope, id, start, end) == if Listed(a, scope, id, start, end) then Some(a) else None
  {
    assert [a][..0] == [];
  }

  lemma LatestOfTwo(a: Aggregate, b: Aggregate, scope: Labels, id: string, start: int, end: int)
    requires Listed(a, scope, id, start, end) && Listed(b, scope, id, start, end) && a.revision <= b.revision
    ensures Latest([a, b], scope, id, start, end) == Some(b)
  {
    assert [a, b][..1] == [a];
    LatestOf(a, scope, id, start, end);
  }

  lemma SecondIsAbsent(first: Aggregate, second: Aggregate)
    requires first.revision != second.revision
    ensures FindVersion([first], second).None?
  {
    hide VersionId;
    if SameVersion(first, second) {
      VersionIdInjective(first.aggregateId, first.revision, second.aggregateId, second.revision);
    }
    assert [first][1..] == [];
  }
}
