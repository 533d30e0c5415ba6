/** The body of an aggregation run: scan, plan over the latest versions, put the plan. */
module Planning {
  import opened Prelude
  import opened Orders
  import opened Decimals
  import opened Recovery
  import opened Events
  import opened Totals
  import opened Aggregation
  import opened AggregationLaws
  import opened Revisions

  // ---- The scan ----

  /** The conjuncts of the event query of a run. */
  predicate Visible(e: Event, spec: Spec, from: int, to: int) {
    Matches(e, spec) && from <= e.start < to
  }

  function VisibleRows(rows: seq<Event>, spec: Spec, from: int, to: int): seq<Event> {
    if rows == [] then []
    else
      var n := |rows| - 1;
      VisibleRows(rows[..n], spec, from, to) + if Visible(rows[n], spec, from, to) then [rows[n]] else []
  }

  predicate ScanLess(a: Event, b: Event) {
    a.start < b.start || (a.start == b.start && TextLess(a.eventId, b.eventId))
  }

  /** The visible rows by window start and event id. */
  function Scan(rows: seq<Event>, spec: Spec, from: int, to: int): seq<Event> {
    Sort(ScanLess, VisibleRows(rows, spec, from, to))
  }

  lemma {:induction false} VisibleMeaning(rows: seq<Event>, spec: Spec, from: int, to: int, e: Event)
    ensures multiset(VisibleRows(rows, spec, from, to))[e] == if Visible(e, spec, from, to) then multiset(rows)[e]
                                                              else 0
  {
    hide Visible, ScanLess;
    if rows != [] {
      var n := |rows| - 1;
      VisibleMeaning(rows[..n], spec, from, to, e);
      assert rows == rows[..n] + [rows[n]];
    }
  }

  lemma ScanMeaning(rows: seq<Event>, spec: Spec, from: int, to: int, e: Event)
    ensures multiset(Scan(rows, spec, from, to))[e] == if Visible(e, spec, from, to) then multiset(rows)[e] else 0
  {
    hide Visible, VisibleRows, ScanLess;
    VisibleMeaning(rows, spec, from, to, e);
  }

  /** A scan is ordered by window start, then event id. */
  lemma ScanIsOrdered(rows: seq<Event>, spec: Spec, from: int, to: int, i: nat, j: nat)
    requires i < j < |Scan(rows, spec, from, to)|
    ensures var a, b := Scan(rows, spec, from, to)[i], Scan(rows, spec, from, to)[j];
            a.start < b.start || (a.start == b.start && (a.eventId == b.eventId || TextLess(a.eventId, b.eventId)))
  {
    hide TextLess, VisibleRows;
    TextOrder();
    SortSorted(ScanLess, VisibleRows(rows, spec, from, to));
  }

  lemma ScanHolds(rows: seq<Event>, spec: Spec, from: int, to: int)
    requires AllMetered(rows)
    ensures AllMetered(Scan(rows, spec, from, to))
    ensures forall i :: 0 <= i < |Scan(rows, spec, from, to)| ==> Matches(Scan(rows, spec, from, to)[i], spec)
  {
    hide Metered, Scan, Matches;
    var scan := Scan(rows, spec, from, to);
    forall i | 0 <= i < |scan| ensures Metered(scan[i].value) && Matches(scan[i], spec) {
      ScanMeaning(rows, spec, from, to, scan[i]);
      assert scan[i] in multiset(scan);
      assert scan[i] in multiset(rows);
    }
  }

  /** A group of a scan is made of the rows of that group that the scan covers. */
  lemma ScannedMembers(rows: seq<Event>, spec: Spec, from: int, to: int, key: GroupKey, e: Event)
    requires spec.windowSize > 0
    ensures multiset(Members(Scan(rows, spec, from, to), key, spec, to))[e]
            == if Visible(e, spec, from, to) && KeyOf(e, spec) == key then multiset(rows)[e] else 0
  {
    hide Scan, Members, KeyOf;
    ScanMeaning(rows, spec, from, to, e);
    MembersMeaning(Scan(rows, spec, from, to), key, spec, to, e);
  }

  // ---- The plan ----

  /** The latest stored version of a group. */
  function Current(rows: seq<Aggregate>, key: GroupKey, spec: Spec, hash: Hash): Option<Aggregate> {
    Latest(rows, spec.scope, AggregateId(spec, key, hash), key.start, key.start + spec.windowSize)
  }

  /** One query per provisional aggregate. */
  function PreviousOf(rows: seq<Aggregate>, provisional: seq<Aggregate>, scope: Labels): map<string, Aggregate> {
    if provisional == [] then map[]
    else
      var n := |provisional| - 1;
      var a := provisional[n];
      var before := PreviousOf(rows, provisional[..n], scope);
      match Latest(rows, scope, a.aggregateId, a.start, a.end)
      case None => before
      case Some(current) => before[a.aggregateId := current]
  }

  /** Aggregate once to learn the groups, read their latest versions, aggregate again over them. */
  function Plan(rows: seq<Aggregate>, scan: seq<Event>, job: Job): Result<seq<Aggregate>>
    requires job.spec.windowSize > 0
  {
    var provisional :- AggregateAll(scan, map[], job);
    AggregateAll(scan, PreviousOf(rows, provisional, job.spec.scope), job)
  }

  function ScannedGroups(scan: seq<Event>, job: Job): seq<GroupKey>
    requires job.spec.windowSize > 0
  {
    SortedGroups(scan, job.spec, job.watermark)
  }

  /** Put a plan's versions one after the other; stop at the first failure. Counts the replayed ones. */
  function PutAll(rows: seq<Aggregate>, plan: seq<Aggregate>, hash: Hash): (seq<Aggregate>, Result<nat>) {
    if plan == [] then (rows, Ok(0))
    else
      var n := |plan| - 1;
      var (before, r) := PutAll(rows, plan[..n], hash);
      match r
      case Err(error) => (before, Err(error))
      case Ok(replayed) =>
        var (after, put) := PutAggregate(before, plan[n], hash);
        (after, match put case Err(error) => Err(error) case Ok((_, again)) => Ok(replayed + if again then 1 else 0))
  }

  /** Every version of a plan that went through was either replayed or appended, and each is stored afterwards. */
  lemma {:induction false} PutAllCounts(rows: seq<Aggregate>, plan: seq<Aggregate>, hash: Hash)
    ensures var (after, r) := PutAll(rows, plan, hash);
            && rows <= after
            && (r.Ok? ==> r.value + (|after| - |rows|) == |plan|)
            && (r.Ok? ==> forall a :: a in plan ==> StoredAs(after, a, hash))
            && (forall b :: b in after ==> b in rows || b in plan)
  {
    hide PutAggregate, StoredAs;
    if plan != [] {
      var n := |plan| - 1;
      PutAllCounts(rows, plan[..n], hash);
      var before := PutAll(rows, plan[..n], hash).0;
      PutIsStored(before, plan[n], hash);
      PutGrows(before, plan[n], hash);
      assert plan == plan[..n] + [plan[n]];
      forall a | a in plan[..n] && StoredAs(before, a, hash)
        ensures StoredAs(PutAggregate(before, plan[n], hash).0, a, hash)
      {
        StaysStored(before, PutAggregate(before, plan[n], hash).0, a, hash);
      }
    }
  }

  lemma PutGrows(rows: seq<Aggregate>, a: Aggregate, hash: Hash)
    ensures var (after, r) := PutAggregate(rows, a, hash);
            r.Ok? ==> |after| == |rows| + (if r.value.1 then 0 else 1)
  {
    hide AggregateFingerprint;
  }

  lemma StaysStored(rows: seq<Aggregate>, more: seq<Aggregate>, a: Aggregate, hash: Hash)
    requires StoredAs(rows, a, hash) && rows <= more
    ensures StoredAs(more, a, hash)
  {
    hide AggregateFingerprint, SameVersion;
    var b :| b in rows && SameVersion(b, a) && AggregateFingerprint(b, hash) == AggregateFingerprint(a, hash);
    assert b in more;
  }

  /** What failed early in a plan failed for the whole plan. */
  lemma {:induction false} StoppedPuts(rows: seq<Aggregate>, plan: seq<Aggregate>, i: nat, hash: Hash)
    requires i <= |plan| && PutAll(rows, plan[..i], hash).1.Err?
    ensures PutAll(rows, plan, hash) == PutAll(rows, plan[..i], hash)
    decreases |plan|
  {
    hide PutAggregate;
    if i == |plan| {
      assert plan[..i] == plan;
    } else {
      var shorter := plan[..|plan| - 1];
      assert shorter[..i] == plan[..i];
      StoppedPuts(rows, shorter, i, hash);
    }
  }

  /** Whether a group can be aggregated does not depend on the versions it is aggregated over. */
  lemma {:induction false} GroupsSucceed(keys: seq<GroupKey>, events: seq<Event>, job: Job, previous: map<string,
      Aggregate>, other: Job)
    requires job.spec.windowSize > 0 && AggregateGroups(keys, events, map[], job).Ok?
    requires other == job.(createdAt := other.createdAt, ambient := other.ambient)
    ensures AggregateGroups(keys, events, previous, other).Ok?
    ensures |AggregateGroups(keys, events, previous, other).value| == |keys|
  {
    hide AggregateId, SetFingerprint, RunningSum, StorageResult, Members;
    if keys != [] {
      GroupsSucceed(keys[1..], events, job, previous, other);
    }
  }

  /** What a new version takes from its group when nothing is there yet. */
  lemma ProvisionalAt(keys: seq<GroupKey>, events: seq<Event>, job: Job, i: nat)
    requires job.spec.windowSize > 0 && AggregateGroups(keys, events, map[], job).Ok? && i < |keys|
    ensures |AggregateGroups(keys, events, map[], job).value| == |keys|
    ensures var a := AggregateGroups(keys, events, map[], job).value[i];
            && a.aggregateId == AggregateId(job.spec, keys[i], job.hash)
            && a.start == keys[i].start && a.end == keys[i].start + job.spec.windowSize
  {
    hide AggregateId, SetFingerprint, RunningSum, StorageResult, Members, AggregateGroups;
    GroupAt(keys, events, map[], job, i);
  }

  ghost predicate ProvisionalFor(provisional: seq<Aggregate>, keys: seq<GroupKey>, spec: Spec, hash: Hash) {
    && |provisional| == |keys|
    && forall i :: 0 <= i < |keys| ==>
         && provisional[i].aggregateId == AggregateId(spec, keys[i], hash)
         && provisional[i].start == keys[i].start && provisional[i].end == keys[i].start + spec.windowSize
  }

  lemma {:induction false} PreviousMeaning(rows: seq<Aggregate>, provisional: seq<Aggregate>, keys: seq<GroupKey>,
      spec: Spec, hash: Hash, key: GroupKey)
    requires Injective(hash) && spec.Valid() && ProvisionalFor(provisional, keys, spec, hash)
    ensures Prior(PreviousOf(rows, provisional, spec.scope), AggregateId(spec, key, hash))
            == if key in keys then Current(rows, key, spec, hash) else None
    decreases |keys|
  {
    hide AggregateId, Latest, Injective, Spec.Valid;
    if keys != [] {
      var n := |keys| - 1;
      PreviousMeaning(rows, provisional[..n], keys[..n], spec, hash, key);
      assert keys == keys[..n] + [keys[n]];
      if AggregateId(spec, key, hash) == AggregateId(spec, keys[n], hash) {
        AggregateIdFixesGroup(spec, key, spec, keys[n], hash);
      }
    }
  }

  /** The plan, group by group: what each group's latest version asks for. */
  ghost predicate PlanFor(plan: seq<Aggregate>, keys: seq<GroupKey>, rows: seq<Aggregate>, scan: seq<Event>, job: Job)
    requires job.spec.windowSize > 0
  {
    && |plan| == |keys|
    && forall i :: 0 <= i < |keys| ==>
         Planned(keys[i], Members(scan, keys[i], job.spec, job.watermark), Current(rows, keys[i], job.spec, job.hash),
             job) == Ok(plan[i])
  }

  lemma AllProvisional(scan: seq<Event>, keys: seq<GroupKey>, job: Job)
    requires job.spec.windowSize > 0 && AggregateGroups(keys, scan, map[], job).Ok?
    ensures ProvisionalFor(AggregateGroups(keys, scan, map[], job).value, keys, job.spec, job.hash)
  {
    hide AggregateId, AggregateGroups;
    GroupsSucceed(keys, scan, job, map[], job);
    forall i | 0 <= i < |keys|
      ensures var a := AggregateGroups(keys, scan, map[], job).value[i];
              && a.aggregateId == AggregateId(job.spec, keys[i], job.hash)
              && a.start == keys[i].start && a.end == keys[i].start + job.spec.windowSize
    {
      ProvisionalAt(keys, scan, job, i);
    }
  }

  lemma PlanMeaning(rows: seq<Aggregate>, scan: seq<Event>, job: Job)
    requires Injective(job.hash) && job.spec.Valid() && Plan(rows, scan, job).Ok?
    ensures PlanFor(Plan(rows, scan, job).value, ScannedGroups(scan, job), rows, scan, job)
  {
    hide AggregateId, Latest, Injective, AggregateGroups, SortedGroups, Members, SetFingerprint, NewVersion,
        PreviousOf, Unique;
    var keys := ScannedGroups(scan, job);
    var provisional := AggregateAll(scan, map[], job).value;
    AllProvisional(scan, keys, job);
    var previous := PreviousOf(rows, provisional, job.spec.scope);
    GroupsSucceed(keys, scan, job, previous, job);
    forall i | 0 <= i < |keys|
      ensures Planned(keys[i], Members(scan, keys[i], job.spec, job.watermark),
              Current(rows, keys[i], job.spec, job.hash), job)
              == Ok(Plan(rows, scan, job).value[i])
    {
      GroupAt(keys, scan, previous, job, i);
      PreviousMeaning(rows, provisional, keys, job.spec, job.hash, keys[i]);
    }
  }

  /** Planning over other rows, at another time, succeeds just as well. */
  lemma PlanSucceeds(rows: seq<Aggregate>, scan: seq<Event>, job: Job, others: seq<Aggregate>, other: Job)
    requires job.spec.windowSize > 0 && Plan(rows, scan, job).Ok?
    requires other == job.(createdAt := other.createdAt, ambient := other.ambient)
    ensures Plan(others, scan, other).Ok?
  {
    hide AggregateGroups, SortedGroups, PreviousOf;
    var keys := ScannedGroups(scan, job);
    GroupsSucceed(keys, scan, job, map[], other);
    var provisional := AggregateAll(scan, map[], other).value;
    GroupsSucceed(keys, scan, job, PreviousOf(others, provisional, job.spec.scope), other);
  }

  // ---- Putting a plan ----

  /** The planned versions that are not stored yet. */
  function Fresh(rows: seq<Aggregate>, plan: seq<Aggregate>): seq<Aggregate> {
    if plan == [] then []
    else
      var n := |plan| - 1;
      Fresh(rows, plan[..n]) + if plan[n] in rows then [] else [plan[n]]
  }

  /** A version of the group. */
  predicate VersionOf(a: Aggregate, spec: Spec, key: GroupKey, hash: Hash) {
    a.scope == spec.scope && a.aggregateId == AggregateId(spec, key, hash)
  }

  /** Stored versions of a group are listed in its window. */
  lemma VersionsAreListed(rows: seq<Aggregate>, a: Aggregate, spec: Spec, key: GroupKey, hash: Hash)
    requires Injective(hash) && spec.Valid() && Chained(rows, hash) && a in rows
    ensures VersionOf(a, spec, key, hash)
            <==> Listed(a, spec.scope, AggregateId(spec, key, hash), key.start, key.start + spec.windowSize)
  {
    hide AggregateId, Follows, Honest, UniqueVersions, Injective;
    if VersionOf(a, spec, key, hash) {
      assert Issued(a, hash);
      var s, k :| IssuedFor(a, s, k, hash);
      AggregateIdFixesGroup(spec, key, s, k, hash);
    }
  }

  /** The current version is the highest stored version of its group. */
  lemma CurrentIsHighest(rows: seq<Aggregate>, spec: Spec, key: GroupKey, hash: Hash)
    requires Injective(hash) && spec.Valid() && Chained(rows, hash)
    ensures var c := Current(rows, key, spec, hash);
            && (c.Some? ==> c.value in rows && VersionOf(c.value, spec, key, hash))
            && forall a :: a in rows && VersionOf(a, spec, key, hash) ==> c.Some? && a.revision <= c.value.revision
  {
    hide AggregateId, Chained, Injective, Latest, Spec.Valid;
    LatestIsHighest(rows, spec.scope, AggregateId(spec, key, hash), key.start, key.start + spec.windowSize);
    forall a | a in rows && VersionOf(a, spec, key, hash)
      ensures Listed(a, spec.scope, AggregateId(spec, key, hash), key.start, key.start + spec.windowSize)
    {
      VersionsAreListed(rows, a, spec, key, hash);
    }
  }

  /** Whatever is the highest stored version of a group is its current one. */
  lemma HighestIsCurrent(rows: seq<Aggregate>, a: Aggregate, spec: Spec, key: GroupKey, hash: Hash)
    requires Injective(hash) && spec.Valid() && Chained(rows, hash)
    requires a in rows && VersionOf(a, spec, key, hash)
    requires forall b :: b in rows && VersionOf(b, spec, key, hash) ==> b.revision <= a.revision
    ensures Current(rows, key, spec, hash) == Some(a)
  {
    hide AggregateId, Follows, Honest, Issued, Injective, Current, Spec.Valid;
    CurrentIsHighest(rows, spec, key, hash);
    OneVersion(rows, a, Current(rows, key, spec, hash).value);
  }

  lemma OneVersion(rows: seq<Aggregate>, a: Aggregate, b: Aggregate)
    requires UniqueVersions(rows) && a in rows && b in rows && SameVersion(a, b)
    ensures a == b
  {
    var i :| 0 <= i < |rows| && rows[i] == a;
    var j :| 0 <= j < |rows| && rows[j] == b;
    assert SameVersion(b, a);
  }

  /** A planned version is either the current one, already stored, or one that no stored row can collide with. */
  lemma PlannedIsCurrentOrNew(rows: seq<Aggregate>, key: GroupKey, members: seq<Event>, job: Job)
    requires Injective(job.hash) && job.spec.Valid() && Chained(rows, job.hash) && AllMetered(members)
    requires Planned(key, members, Current(rows, key, job.spec, job.hash), job).Ok?
    ensures var current := Current(rows, key, job.spec, job.hash);
            var a := Planned(key, members, current, job).value;
            && VersionOf(a, job.spec, key, job.hash)
            && SetFingerprint(members, job.hash) == Ok(a.sourceFingerprint)
            && DealHolds(rows, Putting(a), job.hash)
            && (a in rows ==> current == Some(a))
            && (a !in rows ==> FindVersion(rows, a).None? && (current.None? || current.value.revision < a.revision))
  {
    hide AggregateId, Follows, Honest, Issued, Injective, Current, AllMetered, SetFingerprint, RunningSum,
        StorageResult, UniqueVersions, FindVersion, Spec.Valid;
    var current := Current(rows, key, job.spec, job.hash);
    CurrentIsHighest(rows, job.spec, key, job.hash);
    PlannedHolds(rows, key, members, current, job);
    var a := Planned(key, members, current, job).value;
    if FindVersion(rows, a).Some? {
      var b := FindVersion(rows, a).value;
      VersionIdInjective(a.aggregateId, a.revision, b.aggregateId, b.revision);
      assert VersionOf(b, job.spec, key, job.hash);
    } else {
      NotFoundIsAbsent(rows, a);
    }
  }

  lemma {:induction false} FreshComesFromPlan(rows: seq<Aggregate>, plan: seq<Aggregate>, a: Aggregate) returns (m: nat)
    requires a in Fresh(rows, plan)
    ensures m < |plan| && plan[m] == a && a !in rows
  {
    var n := |plan| - 1;
    if a in Fresh(rows, plan[..n]) {
      m := FreshComesFromPlan(rows, plan[..n], a);
    } else {
      m := n;
    }
  }

  lemma PlanForPrefix(plan: seq<Aggregate>, keys: seq<GroupKey>, rows: seq<Aggregate>, scan: seq<Event>, job: Job,
      n: nat)
    requires job.spec.windowSize > 0 && PlanFor(plan, keys, rows, scan, job) && n <= |keys|
    ensures PlanFor(plan[..n], keys[..n], rows, scan, job)
  {
    hide Planned, Members, Current;
  }

  /** What a run may rely on when it puts its plan: sound rows, a plan made over them, one group once. */
  ghost predicate Ready(rows: seq<Aggregate>, plan: seq<Aggregate>, keys: seq<GroupKey>, scan: seq<Event>, job: Job) {
    && Injective(job.hash) && job.spec.Valid()
    && Chained(rows, job.hash) && AllMetered(scan)
    && Unique(keys) && |plan| == |keys| && PlanFor(plan, keys, rows, scan, job)
  }

  lemma PlannedAt(rows: seq<Aggregate>, plan: seq<Aggregate>, keys: seq<GroupKey>, scan: seq<Event>, job: Job, i: nat)
    requires Ready(rows, plan, keys, scan, job) && i < |plan|
    ensures var current := Current(rows, keys[i], job.spec, job.hash);
            && VersionOf(plan[i], job.spec, keys[i], job.hash)
            && SetFingerprint(Members(scan, keys[i], job.spec, job.watermark), job.hash)
                == Ok(plan[i].sourceFingerprint)
            && DealHolds(rows, Putting(plan[i]), job.hash)
            && (plan[i] in rows ==> current == Some(plan[i]))
            && (plan[i] !in rows ==>
                  && FindVersion(rows, plan[i]).None?
                  && (current.None? || current.value.revision < plan[i].revision))
  {
    hide AggregateId, Chained, Injective, Current, AllMetered, SetFingerprint, Planned, Members, FindVersion,
        Spec.Valid, DealHolds, VersionOf;
    WindowIsPositive(job.spec);
    var members := Members(scan, keys[i], job.spec, job.watermark);
    MembersMetered(scan, keys[i], job.spec, job.watermark);
    PlannedIsCurrentOrNew(rows, keys[i], members, job);
  }

  lemma WindowIsPositive(spec: Spec)
    requires spec.Valid()
    ensures spec.windowSize > 0 && spec.pageSize > 0
  {
  }

  lemma ReadyPrefix(rows: seq<Aggregate>, plan: seq<Aggregate>, keys: seq<GroupKey>, scan: seq<Event>, job: Job, n: nat)
    requires Ready(rows, plan, keys, scan, job) && n <= |plan|
    ensures Ready(rows, plan[..n], keys[..n], scan, job)
  {
    hide Injective, Chained, AllMetered, PlanFor, Spec.Valid;
    WindowIsPositive(job.spec);
    PlanForPrefix(plan, keys, rows, scan, job, n);
  }

  /** A new version collides neither with a stored row nor with the versions put before it in the same run. */
  lemma NewCollidesWithNothing(rows: seq<Aggregate>, plan: seq<Aggregate>, keys: seq<GroupKey>, scan: seq<Event>,
      job: Job)
    requires Ready(rows, plan, keys, scan, job) && plan != [] && plan[|plan| - 1] !in rows
    ensures FindVersion(rows + Fresh(rows, plan[..|plan| - 1]), plan[|plan| - 1]).None?
  {
    hide AggregateId, Chained, Injective, Current, AllMetered, SetFingerprint, PlanFor, Members, Fresh, Spec.Valid,
        DealHolds;
    var n := |plan| - 1;
    var a, more := plan[n], rows + Fresh(rows, plan[..n]);
    PlannedAt(rows, plan, keys, scan, job, n);
    NoneStored(rows, a);
    var b := FindVersion(more, a);
    if b.Some? {
      VersionIdInjective(a.aggregateId, a.revision, b.value.aggregateId, b.value.revision);
      var m := FreshComesFromPlan(rows, plan[..n], b.value);
      PlannedAt(rows, plan, keys, scan, job, m);
      DistinctGroups(keys, m, n, job);
    }
  }

  lemma NoneStored(rows: seq<Aggregate>, a: Aggregate)
    requires FindVersion(rows, a).None?
    ensures forall b :: b in rows ==> !SameVersion(b, a)
  {
  }

  lemma DistinctGroups(keys: seq<GroupKey>, i: nat, j: nat, job: Job)
    requires Injective(job.hash) && job.spec.Valid() && Unique(keys) && i < |keys| && j < |keys| && i != j
    ensures AggregateId(job.spec, keys[i], job.hash) != AggregateId(job.spec, keys[j], job.hash)
  {
    hide AggregateId, Injective, Spec.Valid;
    if AggregateId(job.spec, keys[i], job.hash) == AggregateId(job.spec, keys[j], job.hash) {
      AggregateIdFixesGroup(job.spec, keys[i], job.spec, keys[j], job.hash);
    }
  }

  lemma StoredReplays(rows: seq<Aggregate>, a: Aggregate, hash: Hash)
    requires UniqueVersions(rows) && a in rows
    ensures PutAggregate(rows, a, hash) == (rows, Ok((a, true)))
  {
    hide AggregateFingerprint, UniqueVersions, FindVersion;
    if FindVersion(rows, a).None? {
      NotFoundIsAbsent(rows, a);
    } else {
      OneVersion(rows, FindVersion(rows, a).value, a);
    }
  }

  /** Putting a plan succeeds: it appends exactly the versions that were not stored, and replays the others. */
  lemma {:induction false} PutAllAppendsFresh(rows: seq<Aggregate>, plan: seq<Aggregate>, keys: seq<GroupKey>,
      scan: seq<Event>, job: Job)
    requires Ready(rows, plan, keys, scan, job)
    ensures |Fresh(rows, plan)| <= |plan|
    ensures PutAll(rows, plan, job.hash) == (rows + Fresh(rows, plan), Ok(|plan| - |Fresh(rows, plan)|))
    ensures Chained(rows + Fresh(rows, plan), job.hash)
    decreases |plan|
  {
    hide Injective, Chained, AllMetered, PlanFor, Spec.Valid, PutAggregate, DealHolds, FindVersion, Current, Members,
        Unique, VersionOf, SetFingerprint;
    if plan == [] {
      assert rows + [] == rows;
    } else {
      var n := |plan| - 1;
      ReadyPrefix(rows, plan, keys, scan, job, n);
      PutAllAppendsFresh(rows, plan[..n], keys[..n], scan, job);
      PutLast(rows, plan, keys, scan, job);
    }
  }

  lemma PutLast(rows: seq<Aggregate>, plan: seq<Aggregate>, keys: seq<GroupKey>, scan: seq<Event>, job: Job)
    requires Ready(rows, plan, keys, scan, job) && plan != []
    requires Chained(rows + Fresh(rows, plan[..|plan| - 1]), job.hash)
    ensures var before, a := rows + Fresh(rows, plan[..|plan| - 1]), plan[|plan| - 1];
            && rows + Fresh(rows, plan) == (if a in rows then before else before + [a])
            && PutAggregate(before, a, job.hash) == (rows + Fresh(rows, plan), Ok((a, a in rows)))
            && Chained(rows + Fresh(rows, plan), job.hash)
  {
    hide Injective, AllMetered, PlanFor, Spec.Valid, Current, Members, Unique, VersionOf, SetFingerprint, Ready,
        Chained, DealHolds, FindVersion;
    var n := |plan| - 1;
    var before, a := rows + Fresh(rows, plan[..n]), plan[n];
    PlannedAt(rows, plan, keys, scan, job, n);
    if a in rows {
      assert rows + Fresh(rows, plan) == before;
      ChainedIsUnique(before, job.hash);
      StoredReplays(before, a, job.hash);
    } else {
      assert rows + Fresh(rows, plan) == before + [a];
      NewCollidesWithNothing(rows, plan, keys, scan, job);
      NewExtendsChain(rows, before, a, job.hash);
    }
  }

  lemma ChainedIsUnique(rows: seq<Aggregate>, hash: Hash)
    requires Chained(rows, hash)
    ensures UniqueVersions(rows)
  {
  }

  lemma NewExtendsChain(rows: seq<Aggregate>, more: seq<Aggregate>, a: Aggregate, hash: Hash)
    requires DealHolds(rows, Putting(a), hash) && a !in rows && rows <= more
    requires Chained(more, hash) && FindVersion(more, a).None?
    ensures Chained(more + [a], hash)
  {
    hide Chained, Honest, Issued, Follows, FindVersion;
    FollowsGrows(rows, more, a);
    AppendKeepsChained(more, a, hash);
  }

  lemma {:induction false} PlanIsStored(rows: seq<Aggregate>, plan: seq<Aggregate>, i: nat)
    requires i < |plan|
    ensures plan[i] in rows + Fresh(rows, plan)
  {
    var n := |plan| - 1;
    if i < n {
      PlanIsStored(rows, plan[..n], i);
    }
  }

  /** After the puts each planned version is its group's current one. */
  lemma PlannedBecomesCurrent(rows: seq<Aggregate>, plan: seq<Aggregate>, keys: seq<GroupKey>, scan: seq<Event>,
      job: Job, i: nat)
    requires Ready(rows, plan, keys, scan, job) && i < |plan|
    ensures Current(rows + Fresh(rows, plan), keys[i], job.spec, job.hash) == Some(plan[i])
  {
    hide Injective, Chained, AllMetered, PlanFor, Spec.Valid, Members, SetFingerprint, Fresh, DealHolds, FindVersion,
        AggregateId, Current;
    var more := rows + Fresh(rows, plan);
    PutAllAppendsFresh(rows, plan, keys, scan, job);
    PlanIsStored(rows, plan, i);
    PlannedAt(rows, plan, keys, scan, job, i);
    CurrentIsHighest(rows, job.spec, keys[i], job.hash);
    forall b | b in more && VersionOf(b, job.spec, keys[i], job.hash) ensures b.revision <= plan[i].revision {
      if b !in rows {
        var m := FreshComesFromPlan(rows, plan, b);
        PlannedAt(rows, plan, keys, scan, job, m);
        if m != i {
          DistinctGroups(keys, m, i, job);
        }
      }
    }
    HighestIsCurrent(more, plan[i], job.spec, keys[i], job.hash);
  }

  lemma FreshIsOfItsGroup(rows: seq<Aggregate>, plan: seq<Aggregate>, keys: seq<GroupKey>, scan: seq<Event>,
      job: Job, key: GroupKey, b: Aggregate)
    requires Ready(rows, plan, keys, scan, job) && b in Fresh(rows, plan) && VersionOf(b, job.spec, key, job.hash)
    ensures key in keys
  {
    hide Injective, Chained, AllMetered, PlanFor, Spec.Valid, Members, SetFingerprint, Fresh, DealHolds, FindVersion,
        AggregateId, Current;
    var m := FreshComesFromPlan(rows, plan, b);
    PlannedAt(rows, plan, keys, scan, job, m);
    AggregateIdFixesGroup(job.spec, key, job.spec, keys[m], job.hash);
  }

  /** Groups outside the plan keep their current version. */
  lemma OthersKeepCurrent(rows: seq<Aggregate>, plan: seq<Aggregate>, keys: seq<GroupKey>, scan: seq<Event>,
      job: Job, key: GroupKey)
    requires Ready(rows, plan, keys, scan, job) && key !in keys
    ensures Current(rows + Fresh(rows, plan), key, job.spec, job.hash) == Current(rows, key, job.spec, job.hash)
  {
    hide Injective, Chained, AllMetered, PlanFor, Spec.Valid, Members, Fresh, Current, VersionOf, PutAll, Unique;
    var more := rows + Fresh(rows, plan);
    PutAllAppendsFresh(rows, plan, keys, scan, job);
    forall b | b in more && VersionOf(b, job.spec, key, job.hash) ensures b in rows {
      if b in Fresh(rows, plan) {
        FreshIsOfItsGroup(rows, plan, keys, scan, job, key, b);
      }
    }
    SameVersionsSameCurrent(rows, more, key, job.spec, job.hash);
  }

  lemma SameVersionsSameCurrent(rows: seq<Aggregate>, more: seq<Aggregate>, key: GroupKey, spec: Spec, hash: Hash)
    requires Injective(hash) && spec.Valid() && Chained(rows, hash) && Chained(more, hash) && rows <= more
    requires forall b :: b in more && VersionOf(b, spec, key, hash) ==> b in rows
    ensures Current(more, key, spec, hash) == Current(rows, key, spec, hash)
  {
    hide Injective, Chained, Spec.Valid, VersionOf, Current;
    CurrentIsHighest(rows, spec, key, hash);
    CurrentIsHighest(more, spec, key, hash);
    var c := Current(rows, key, spec, hash);
    if c.Some? {
      var i :| 0 <= i < |rows| && rows[i] == c.value;
      assert more[i] == c.value;
      HighestIsCurrent(more, c.value, spec, key, hash);
    }
  }
}
