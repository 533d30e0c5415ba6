/** What aggregation promises: a conserving partition, independent of input order, with unambiguous identities. */
module AggregationLaws {
  import opened Prelude
  import opened Digits
  import opened Orders
  import opened Canonical
  import opened Decimals
  import opened Recovery
  import opened Events
  import opened Totals
  import opened TotalTexts
  import opened Aggregation
  import StoredRecords
  import StoredTotals

  // ---- What makes a group ----

  lemma {:induction false} SelectedText(labels: Labels, names: seq<string>, name: string)
    ensures Text(Select(labels, names), name) == if name in names then Text(labels, name) else None
  {
    if names != [] {
      SelectedText(labels, names[1..], name);
    }
  }

  lemma {:induction false} SelectAlike(a: Labels, b: Labels, names: seq<string>)
    requires forall name :: name in names ==> Text(a, name) == Text(b, name)
    ensures Select(a, names) == Select(b, names)
  {
    hide Text;
    if names != [] {
      assert names[0] in names;
      SelectAlike(a, b, names[1..]);
    }
  }

  /** Two events share a group exactly when they start in one bucket and agree on every dimension of the spec. */
  lemma SameGroupExactly(a: Event, b: Event, spec: Spec)
    requires spec.windowSize > 0
    ensures KeyOf(a, spec) == KeyOf(b, spec)
            <==> && Bucket(a.start, spec.windowSize) == Bucket(b.start, spec.windowSize)
                 && forall name :: name in spec.dimensions ==> Text(a.dimensions, name) == Text(b.dimensions, name)
  {
    hide Bucket, Text, Select;
    if KeyOf(a, spec) == KeyOf(b, spec) {
      forall name | name in spec.dimensions ensures Text(a.dimensions, name) == Text(b.dimensions, name) {
        SelectedText(a.dimensions, spec.dimensions, name);
        SelectedText(b.dimensions, spec.dimensions, name);
      }
    } else if forall name :: name in spec.dimensions ==> Text(a.dimensions, name) == Text(b.dimensions, name) {
      SelectAlike(a.dimensions, b.dimensions, spec.dimensions);
    }
  }

  // ---- Groups partition the eligible events ----

  lemma {:induction false} MembersMeaning(events: seq<Event>, key: GroupKey, spec: Spec, watermark: int, e: Event)
    requires spec.windowSize > 0
    ensures multiset(Members(events, key, spec, watermark))[e]
            == if Grouped(e, key, spec, watermark) then multiset(events)[e] else 0
  {
    hide Grouped;
    if events != [] {
      var n := |events| - 1;
      MembersMeaning(events[..n], key, spec, watermark, e);
      assert events == events[..n] + [events[n]];
    }
  }

  lemma {:induction false} GroupsMeaning(events: seq<Event>, spec: Spec, watermark: int, key: GroupKey)
    requires spec.windowSize > 0
    ensures key in Groups(events, spec, watermark)
            <==> exists i :: 0 <= i < |events| && Grouped(events[i], key, spec, watermark)
    ensures multiset(Groups(events, spec, watermark))[key] <= 1
  {
    hide KeyOf;
    if events != [] {
      var n := |events| - 1;
      GroupsMeaning(events[..n], spec, watermark, key);
      assert forall i :: 0 <= i < n ==> events[..n][i] == events[i];
      if exists i :: 0 <= i < |events| && Grouped(events[i], key, spec, watermark) {
        var i :| 0 <= i < |events| && Grouped(events[i], key, spec, watermark);
        if i < n {
          assert Grouped(events[..n][i], key, spec, watermark);
        }
      }
    }
  }

  lemma UniqueByCount<T>(s: seq<T>)
    requires forall x :: multiset(s)[x] <= 1
    ensures Unique(s)
  {
    forall i, j | 0 <= i < j < |s| ensures s[i] != s[j] {
      assert s == s[..i] + [s[i]] + s[i + 1..j] + [s[j]] + s[j + 1..];
      assert multiset(s)[s[i]] <= 1;
    }
  }

  lemma SortedGroupsMeaning(events: seq<Event>, spec: Spec, watermark: int)
    requires spec.windowSize > 0
    ensures Unique(SortedGroups(events, spec, watermark)) && Sorted(KeyLess, SortedGroups(events, spec, watermark))
    ensures forall k :: k in SortedGroups(events, spec, watermark)
                        <==> exists i :: 0 <= i < |events| && Grouped(events[i], k, spec, watermark)
  {
    hide KeyLess, Grouped, Groups;
    var groups := Groups(events, spec, watermark);
    var sorted := SortedGroups(events, spec, watermark);
    forall k
      ensures multiset(sorted)[k] <= 1
      ensures k in sorted <==> exists i :: 0 <= i < |events| && Grouped(events[i], k, spec, watermark)
    {
      GroupsMeaning(events, spec, watermark, k);
      SameElements(sorted, groups, k);
    }
    UniqueByCount(sorted);
    KeyOrder();
    SortSorted(KeyLess, groups);
  }

  lemma MembersAreGrouped(events: seq<Event>, key: GroupKey, spec: Spec, watermark: int, e: Event)
    requires spec.windowSize > 0
    ensures e in Members(events, key, spec, watermark) <==> e in events && Grouped(e, key, spec, watermark)
  {
    hide Grouped, Members;
    MembersMeaning(events, key, spec, watermark, e);
    assert e in multiset(events) <==> e in events;
    assert e in multiset(Members(events, key, spec, watermark)) <==> e in Members(events, key, spec, watermark);
  }

  /** Every event before the watermark is in exactly one group, and no other event is in any. */
  lemma GroupsPartition(events: seq<Event>, spec: Spec, watermark: int, e: Event)
    requires spec.windowSize > 0
    ensures var keys := SortedGroups(events, spec, watermark);
            && (e in events && e.start < watermark
                <==> exists i :: 0 <= i < |keys| && e in Members(events, keys[i], spec, watermark))
            && forall i, j ::
                 0 <= i < |keys| && 0 <= j < |keys|
                 && e in Members(events, keys[i], spec, watermark) && e in Members(events, keys[j], spec, watermark) ==>
                   i == j
  {
    hide Members, KeyOf, SortedGroups, Sorted;
    SortedGroupsMeaning(events, spec, watermark);
    var keys := SortedGroups(events, spec, watermark);
    forall i | 0 <= i < |keys|
      ensures e in Members(events, keys[i], spec, watermark) <==> e in events && Grouped(e, keys[i], spec, watermark)
    {
      MembersAreGrouped(events, keys[i], spec, watermark, e);
    }
    if e in events && e.start < watermark {
      var j :| 0 <= j < |events| && events[j] == e;
      assert Grouped(events[j], KeyOf(e, spec), spec, watermark);
      assert KeyOf(e, spec) in keys;
      var i :| 0 <= i < |keys| && keys[i] == KeyOf(e, spec);
      assert e in Members(events, keys[i], spec, watermark);
    }
  }

  // ---- Counts and totals are conserved ----

  function Eligible(events: seq<Event>, watermark: int): seq<Event> {
    if events == [] then []
    else
      var n := |events| - 1;
      Eligible(events[..n], watermark) + if events[n].start < watermark then [events[n]] else []
  }

  function GroupedCount(keys: seq<GroupKey>, events: seq<Event>, spec: Spec, watermark: int): nat
    requires spec.windowSize > 0
  {
    if keys == [] then 0
    else |Members(events, keys[0], spec, watermark)| + GroupedCount(keys[1..], events, spec, watermark)
  }

  function GroupedUnits(keys: seq<GroupKey>, events: seq<Event>, spec: Spec, watermark: int): int
    requires spec.windowSize > 0
  {
    if keys == [] then 0
    else SumUnits(Values(Members(events, keys[0], spec, watermark))) + GroupedUnits(keys[1..], events, spec, watermark)
  }

  lemma ValuesConcat(xs: seq<Event>, e: Event)
    ensures SumUnits(Values(xs + [e])) == SumUnits(Values(xs)) + Units(e.value)
  {
    hide SumUnits, Units;
    assert Values(xs + [e]) == Values(xs) + [e.value];
    SumUnitsConcat(Values(xs), [e.value]);
    SumUnitsOne(e.value);
  }

  /** One more event adds itself to its own group and to no other. */
  lemma {:induction false} OneMoreEvent(keys: seq<GroupKey>, events: seq<Event>, e: Event, spec: Spec, watermark: int)
    requires spec.windowSize > 0 && Unique(keys)
    ensures var more := events + [e];
            var counted := e.start < watermark && KeyOf(e, spec) in keys;
            && GroupedCount(keys, more, spec, watermark)
                == GroupedCount(keys, events, spec, watermark) + (if counted then 1 else 0)
            && GroupedUnits(keys, more, spec, watermark)
                == GroupedUnits(keys, events, spec, watermark) + (if counted then Units(e.value) else 0)
  {
    hide Units, SumUnits, KeyOf;
    if keys != [] {
      var more := events + [e];
      assert more[..|events|] == events;
      OneMoreEvent(keys[1..], events, e, spec, watermark);
      ValuesConcat(Members(events, keys[0], spec, watermark), e);
      assert KeyOf(e, spec) in keys <==> KeyOf(e, spec) == keys[0] || KeyOf(e, spec) in keys[1..];
    }
  }

  lemma {:induction false} NoEvents(keys: seq<GroupKey>, spec: Spec, watermark: int)
    requires spec.windowSize > 0
    ensures GroupedCount(keys, [], spec, watermark) == 0 && GroupedUnits(keys, [], spec, watermark) == 0
  {
    if keys != [] {
      NoEvents(keys[1..], spec, watermark);
    }
  }

  lemma {:induction false} GroupedIsAll(keys: seq<GroupKey>, events: seq<Event>, spec: Spec, watermark: int)
    requires spec.windowSize > 0 && Unique(keys)
    requires forall i :: 0 <= i < |events| && events[i].start < watermark ==> KeyOf(events[i], spec) in keys
    ensures GroupedCount(keys, events, spec, watermark) == |Eligible(events, watermark)|
    ensures GroupedUnits(keys, events, spec, watermark) == SumUnits(Values(Eligible(events, watermark)))
  {
    hide Units, SumUnits, KeyOf, GroupedCount, GroupedUnits;
    if events == [] {
      NoEvents(keys, spec, watermark);
      assert Values([]) == [];
      NoMembersNoUnits();
    } else {
      var n := |events| - 1;
      GroupedIsAll(keys, events[..n], spec, watermark);
      OneMoreEvent(keys, events[..n], events[n], spec, watermark);
      assert events[..n] + [events[n]] == events;
      ValuesConcat(Eligible(events[..n], watermark), events[n]);
      assert Eligible(events[..n], watermark) + [] == Eligible(events[..n], watermark);
    }
  }

  function CountOf(aggregates: seq<Aggregate>): nat {
    if aggregates == [] then 0 else aggregates[0].eventCount + CountOf(aggregates[1..])
  }

  function UnitsOf(aggregates: seq<Aggregate>): int {
    if aggregates == [] then 0 else Units(aggregates[0].total) + UnitsOf(aggregates[1..])
  }

  lemma StorageKeepsUnits(d: Decimal)
    requires StorageResult(d).Ok?
    ensures Units(StorageResult(d).value) == Units(d)
  {
    hide Storable;
    if d.coef == 0 {
      assert Signed(d) == 0;
      if d.exp < -STORED_SCALE {
        assert 0 / Pow10(-STORED_SCALE - d.exp) == 0;
      }
    }
  }

  /** A fresh version counts its members and stores their exact sum. */
  lemma FreshVersion(key: GroupKey, members: seq<Event>, previous: map<string, Aggregate>, job: Job)
    requires forall i :: 0 <= i < |members| ==> Fits(members[i].value)
    requires AggregateGroup(key, members, previous, job).Ok?
    requires Prior(previous, AggregateId(job.spec, key, job.hash)).None?
    ensures var a := AggregateGroup(key, members, previous, job).value;
            && a.eventCount == |members| <= MAX_ARRAY
            && Units(a.total) == SumUnits(Values(members))
            && SetFingerprint(members, job.hash) == Ok(a.sourceFingerprint)
  {
    hide Fits, Units, SumUnits, StorageResult, RunningSum, AggregateId, Pow10, Divides;
    RunningSumIsExactFor(members);
    StorageKeepsUnits(RunningSum(Values(members)));
  }

  lemma RunningSumIsExactFor(members: seq<Event>)
    requires |members| <= MAX_ARRAY && forall i :: 0 <= i < |members| ==> Fits(members[i].value)
    ensures Units(RunningSum(Values(members))) == SumUnits(Values(members))
  {
    hide Fits, Units, SumUnits, RunningSum, Pow10;
    EnoughMembers();
    RunningSumIsExact(Values(members));
  }

  lemma EnoughMembers()
    ensures MAX_ARRAY <= Pow10(MEMBERS_DIGITS)
  {
    assert Pow10(3) == 1000;
    Pow10Monotone(3, MEMBERS_DIGITS);
  }

  lemma MembersFit(events: seq<Event>, key: GroupKey, spec: Spec, watermark: int, members: seq<Event>)
    requires spec.windowSize > 0 && forall i :: 0 <= i < |events| ==> Fits(events[i].value)
    requires members == Members(events, key, spec, watermark)
    ensures forall i :: 0 <= i < |members| ==> Fits(members[i].value)
  {
    hide Fits, Members;
    forall i | 0 <= i < |members| ensures Fits(members[i].value) {
      MembersAreGrouped(events, key, spec, watermark, members[i]);
    }
  }

  lemma {:induction false} FreshVersions(keys: seq<GroupKey>, events: seq<Event>, job: Job)
    requires job.spec.windowSize > 0 && forall i :: 0 <= i < |events| ==> Fits(events[i].value)
    requires AggregateGroups(keys, events, map[], job).Ok?
    ensures var r := AggregateGroups(keys, events, map[], job).value;
            && |r| == |keys|
            && CountOf(r) == GroupedCount(keys, events, job.spec, job.watermark)
            && UnitsOf(r) == GroupedUnits(keys, events, job.spec, job.watermark)
  {
    hide Fits, Units, SumUnits, AggregateGroup, Members, AggregateId;
    if keys != [] {
      FreshVersions(keys[1..], events, job);
      var members := Members(events, keys[0], job.spec, job.watermark);
      MembersFit(events, keys[0], job.spec, job.watermark, members);
      FreshVersion(keys[0], members, map[], job);
      FirstAndRest(keys, events, map[], job);
    }
  }

  lemma FirstAndRest(keys: seq<GroupKey>, events: seq<Event>, previous: map<string, Aggregate>, job: Job)
    requires job.spec.windowSize > 0 && keys != [] && AggregateGroups(keys, events, previous, job).Ok?
    ensures AggregateGroup(keys[0], Members(events, keys[0], job.spec, job.watermark), previous, job).Ok?
    ensures AggregateGroups(keys[1..], events, previous, job).Ok?
    ensures var r := AggregateGroups(keys, events, previous, job).value;
            && r != []
            && r[0] == AggregateGroup(keys[0], Members(events, keys[0], job.spec, job.watermark), previous, job).value
            && r[1..] == AggregateGroups(keys[1..], events, previous, job).value
  {
    hide AggregateGroup, Members;
  }

  /** Fresh aggregates count every eligible event once and add up, exactly, to the eligible input. */
  lemma AggregationConserves(events: seq<Event>, job: Job)
    requires job.spec.windowSize > 0 && forall i :: 0 <= i < |events| ==> Fits(events[i].value)
    requires AggregateAll(events, map[], job).Ok?
    ensures var r := AggregateAll(events, map[], job).value;
            && CountOf(r) == |Eligible(events, job.watermark)|
            && UnitsOf(r) == SumUnits(Values(Eligible(events, job.watermark)))
  {
    hide Fits, Units, SumUnits, AggregateGroups, SortedGroups, KeyOf, Sorted;
    var keys := SortedGroups(events, job.spec, job.watermark);
    SortedGroupsMeaning(events, job.spec, job.watermark);
    forall i | 0 <= i < |events| && events[i].start < job.watermark ensures KeyOf(events[i], job.spec) in keys {
      assert Grouped(events[i], KeyOf(events[i], job.spec), job.spec, job.watermark);
    }
    GroupedIsAll(keys, events, job.spec, job.watermark);
    FreshVersions(keys, events, job);
  }

  // ---- Input order is immaterial ----

  lemma GroupsPermuted(xs: seq<Event>, ys: seq<Event>, spec: Spec, watermark: int)
    requires spec.windowSize > 0 && multiset(xs) == multiset(ys)
    ensures SortedGroups(xs, spec, watermark) == SortedGroups(ys, spec, watermark)
  {
    hide Grouped, Groups, KeyLess;
    var a, b := Groups(xs, spec, watermark), Groups(ys, spec, watermark);
    forall k ensures multiset(a)[k] == multiset(b)[k] {
      GroupsMeaning(xs, spec, watermark, k);
      GroupsMeaning(ys, spec, watermark, k);
      GroupedInBoth(xs, ys, k, spec, watermark);
      GroupedInBoth(ys, xs, k, spec, watermark);
      assert k in a <==> k in multiset(a);
      assert k in b <==> k in multiset(b);
    }
    assert multiset(a) == multiset(b);
    KeyOrder();
    SortCanonical(KeyLess, a, b);
  }

  lemma GroupedInBoth(xs: seq<Event>, ys: seq<Event>, key: GroupKey, spec: Spec, watermark: int)
    requires spec.windowSize > 0 && multiset(xs) == multiset(ys)
    ensures (exists i :: 0 <= i < |xs| && Grouped(xs[i], key, spec, watermark)) ==>
              exists i :: 0 <= i < |ys| && Grouped(ys[i], key, spec, watermark)
  {
    hide Grouped;
    if i :| 0 <= i < |xs| && Grouped(xs[i], key, spec, watermark) {
      SameElements(xs, ys, xs[i]);
      var j :| 0 <= j < |ys| && ys[j] == xs[i];
    }
  }

  lemma MembersPermuted(xs: seq<Event>, ys: seq<Event>, key: GroupKey, spec: Spec, watermark: int)
    requires spec.windowSize > 0 && multiset(xs) == multiset(ys)
    ensures multiset(Members(xs, key, spec, watermark)) == multiset(Members(ys, key, spec, watermark))
  {
    hide Grouped, Members;
    forall e ensures multiset(Members(xs, key, spec, watermark))[e] == multiset(Members(ys, key, spec, watermark))[e] {
      MembersMeaning(xs, key, spec, watermark, e);
      MembersMeaning(ys, key, spec, watermark, e);
    }
  }

  function Image<T, U>(f: T -> U, s: seq<T>): (r: seq<U>)
    ensures |r| == |s| && forall i :: 0 <= i < |r| ==> r[i] == f(s[i])
  {
    seq(|s|, i requires 0 <= i < |s| => f(s[i]))
  }

  lemma ImageConcat<T, U>(f: T -> U, xs: seq<T>, ys: seq<T>)
    ensures Image(f, xs + ys) == Image(f, xs) + Image(f, ys)
  {
    forall i | 0 <= i < |xs + ys| ensures Image(f, xs + ys)[i] == (Image(f, xs) + Image(f, ys))[i] {
      assert (xs + ys)[i] == if i < |xs| then xs[i] else ys[i - |xs|];
    }
  }

  lemma ImageWithout<T, U>(f: T -> U, xs: seq<T>, j: nat)
    requires j < |xs|
    ensures multiset(Image(f, xs)) == multiset{f(xs[j])} + multiset(Image(f, xs[..j] + xs[j + 1..]))
  {
    hide Image;
    assert xs == xs[..j] + ([xs[j]] + xs[j + 1..]);
    ImageConcat(f, xs[..j], [xs[j]] + xs[j + 1..]);
    ImageConcat(f, [xs[j]], xs[j + 1..]);
    ImageConcat(f, xs[..j], xs[j + 1..]);
    assert Image(f, [xs[j]]) == [f(xs[j])];
  }

  lemma {:induction false} ImagePermuted<T, U>(f: T -> U, xs: seq<T>, ys: seq<T>)
    requires multiset(xs) == multiset(ys)
    ensures multiset(Image(f, xs)) == multiset(Image(f, ys))
  {
    hide Image;
    assert |xs| == |multiset(xs)| == |multiset(ys)| == |ys|;
    if xs == [] {
      assert xs == ys;
    } else {
      assert xs[0] in multiset(ys);
      var j :| 0 <= j < |ys| && ys[j] == xs[0];
      RemovedAlike(xs, ys, j);
      ImagePermuted(f, xs[..0] + xs[1..], ys[..j] + ys[j + 1..]);
      ImageWithout(f, xs, 0);
      ImageWithout(f, ys, j);
    }
  }

  lemma RemovedAlike<T>(xs: seq<T>, ys: seq<T>, j: nat)
    requires multiset(xs) == multiset(ys) && xs != [] && j < |ys| && ys[j] == xs[0]
    ensures multiset(xs[..0] + xs[1..]) == multiset(ys[..j] + ys[j + 1..])
  {
    assert xs == [xs[0]] + (xs[..0] + xs[1..]);
    assert ys == ys[..j] + [xs[0]] + ys[j + 1..];
    assert multiset(xs[..0] + xs[1..]) == multiset(xs) - multiset{xs[0]};
    assert multiset(ys[..j] + ys[j + 1..]) == multiset(ys) - multiset{xs[0]};
  }

  lemma SetFingerprintPermuted(xs: seq<Event>, ys: seq<Event>, hash: Hash)
    requires multiset(xs) == multiset(ys)
    ensures SetFingerprint(xs, hash) == SetFingerprint(ys, hash)
  {
    hide Fingerprint, Digest, TextLess;
    assert |xs| == |multiset(xs)| == |multiset(ys)| == |ys|;
    FingerprintsPermuted(xs, ys, hash);
    TextOrder();
    SortCanonical(TextLess, Fingerprints(xs, hash), Fingerprints(ys, hash));
  }

  lemma FingerprintsPermuted(xs: seq<Event>, ys: seq<Event>, hash: Hash)
    requires multiset(xs) == multiset(ys)
    ensures multiset(Fingerprints(xs, hash)) == multiset(Fingerprints(ys, hash))
  {
    hide Fingerprint;
    var f := e => Fingerprint(e, hash);
    ImagePermuted(f, xs, ys);
    assert Fingerprints(xs, hash) == Image(f, xs);
    assert Fingerprints(ys, hash) == Image(f, ys);
  }

  lemma ValuesPermuted(xs: seq<Event>, ys: seq<Event>)
    requires multiset(xs) == multiset(ys)
    ensures multiset(Values(xs)) == multiset(Values(ys))
  {
    var f := (e: Event) => e.value;
    ImagePermuted(f, xs, ys);
    assert Values(xs) == Image(f, xs) && Values(ys) == Image(f, ys);
  }

  lemma MeteredFits(d: Decimal)
    requires Metered(d)
    ensures Fits(d) && d.exp >= -STORED_SCALE
  {
  }

  /** The order of a group's members changes nothing about its version: neither identity, nor total text. */
  lemma GroupPermuted(key: GroupKey, xs: seq<Event>, ys: seq<Event>, previous: map<string, Aggregate>, job: Job)
    requires multiset(xs) == multiset(ys)
    requires forall i :: 0 <= i < |xs| ==> Metered(xs[i].value)
    ensures AggregateGroup(key, xs, previous, job) == AggregateGroup(key, ys, previous, job)
  {
    hide Metered, AggregateId, SetFingerprint, RunningSum, StorageResult, Pow10, Fits;
    assert |xs| == |multiset(xs)| == |multiset(ys)| == |ys|;
    SetFingerprintPermuted(xs, ys, job.hash);
    if |xs| <= MAX_ARRAY {
      ValuesPermuted(xs, ys);
      EnoughMembers();
      forall i | 0 <= i < |xs|
        ensures Fits(Values(xs)[i]) && Values(xs)[i].exp >= -STORED_SCALE
      {
        MeteredFits(xs[i].value);
      }
      RunningSumPermuted(Values(xs), Values(ys));
    } else {
      TooManyMembers(xs, job.hash);
    }
  }

  lemma TooManyMembers(members: seq<Event>, hash: Hash)
    ensures SetFingerprint(members, hash).Err? <==> |members| > MAX_ARRAY
  {
  }

  lemma {:induction false} GroupsOfPermuted(keys: seq<GroupKey>, xs: seq<Event>, ys: seq<Event>,
      previous: map<string, Aggregate>, job: Job)
    requires job.spec.windowSize > 0 && multiset(xs) == multiset(ys)
    requires forall i :: 0 <= i < |xs| ==> Metered(xs[i].value)
    ensures AggregateGroups(keys, xs, previous, job) == AggregateGroups(keys, ys, previous, job)
  {
    hide Metered, AggregateGroup, Members;
    if keys != [] {
      MembersPermuted(xs, ys, keys[0], job.spec, job.watermark);
      var members := Members(xs, keys[0], job.spec, job.watermark);
      forall i | 0 <= i < |members| ensures Metered(members[i].value) {
        MembersAreGrouped(xs, keys[0], job.spec, job.watermark, members[i]);
      }
      GroupPermuted(keys[0], members, Members(ys, keys[0], job.spec, job.watermark), previous, job);
      GroupsOfPermuted(keys[1..], xs, ys, previous, job);
    }
  }

  /** Permuting a normalized event set changes nothing at all in the outcome, success or failure. */
  lemma AggregationIgnoresOrder(xs: seq<Event>, ys: seq<Event>, previous: map<string, Aggregate>, job: Job)
    requires job.spec.windowSize > 0 && multiset(xs) == multiset(ys)
    requires forall i :: 0 <= i < |xs| ==> Metered(xs[i].value)
    ensures AggregateAll(xs, previous, job) == AggregateAll(ys, previous, job)
  {
    hide Metered, AggregateGroups, SortedGroups, Matches;
    GroupsPermuted(xs, ys, job.spec, job.watermark);
    GroupsOfPermuted(SortedGroups(xs, job.spec, job.watermark), xs, ys, previous, job);
    MismatchInBoth(xs, ys, job.spec);
    MismatchInBoth(ys, xs, job.spec);
  }

  lemma MismatchInBoth(xs: seq<Event>, ys: seq<Event>, spec: Spec)
    requires multiset(xs) == multiset(ys)
    ensures (exists i :: 0 <= i < |xs| && !Matches(xs[i], spec)) ==> exists i :: 0 <= i < |ys| && !Matches(ys[i], spec)
  {
    hide Matches;
    if i :| 0 <= i < |xs| && !Matches(xs[i], spec) {
      SameElements(xs, ys, xs[i]);
      var j :| 0 <= j < |ys| && ys[j] == xs[i];
    }
  }

  lemma {:induction false} GroupAt(keys: seq<GroupKey>, events: seq<Event>, previous: map<string, Aggregate>,
      job: Job, i: nat)
    requires job.spec.windowSize > 0 && AggregateGroups(keys, events, previous, job).Ok? && i < |keys|
    ensures |AggregateGroups(keys, events, previous, job).value| == |keys|
    ensures AggregateGroup(keys[i], Members(events, keys[i], job.spec, job.watermark), previous, job)
            == Ok(AggregateGroups(keys, events, previous, job).value[i])
  {
    hide AggregateGroup, Members;
    FirstAndRest(keys, events, previous, job);
    if i > 0 {
      GroupAt(keys[1..], events, previous, job, i - 1);
    } else if |keys| > 1 {
      GroupAt(keys[1..], events, previous, job, 0);
    }
  }

  /** A version as a call makes it for a group over its previous one: every field. */
  ghost predicate MadeFor(a: Aggregate, key: GroupKey, members: seq<Event>, previous: Option<Aggregate>, job: Job) {
    && a.aggregateId == AggregateId(job.spec, key, job.hash)
    && a.start == key.start && a.end == key.start + job.spec.windowSize && a.dimensions == key.dimensions
    && OfCall(a, job)
    && a.eventCount == |members| && StorageResult(RunningSum(Values(members))) == Ok(a.total)
    && SetFingerprint(members, job.hash) == Ok(a.sourceFingerprint)
    && (previous.None? ==> a.revision == 1 && a.supersedes == None)
    && (previous.Some? ==>
          && a.revision == previous.value.revision + 1
          && a.supersedes == Some(VersionId(previous.value.aggregateId, previous.value.revision)))
  }

  /** What a version has from the spec and from the call. */
  predicate OfCall(a: Aggregate, job: Job) {
    && a.scope == job.spec.scope && a.meterId == job.spec.meterId && a.meterVersion == job.spec.meterVersion
    && a.algorithm == job.spec.algorithm
    && a.watermark == job.watermark && a.createdAt == job.createdAt && a.correlation == job.ambient
  }

  /**
    Every version that a call returns is either the previous one of its group, whose sources are the group's members,
    or made by this call: for its watermark, at its time, under its correlation, with the spec's meter and algorithm.
   */
  lemma ResultsExplained(events: seq<Event>, previous: map<string, Aggregate>, job: Job, i: nat)
    requires job.spec.windowSize > 0 && AggregateAll(events, previous, job).Ok?
    requires i < |AggregateAll(events, previous, job).value|
    ensures |SortedGroups(events, job.spec, job.watermark)| == |AggregateAll(events, previous, job).value|
    ensures var r, key := AggregateAll(events, previous, job).value[i],
            SortedGroups(events, job.spec, job.watermark)[i];
            var members := Members(events, key, job.spec, job.watermark);
            var prior := Prior(previous, AggregateId(job.spec, key, job.hash));
            || (prior == Some(r) && SetFingerprint(members, job.hash) == Ok(r.sourceFingerprint))
            || MadeFor(r, key, members, prior, job)
  {
    hide AggregateId, SetFingerprint, RunningSum, StorageResult, Members, AggregateGroups, SortedGroups, Matches;
    var keys := SortedGroups(events, job.spec, job.watermark);
    AsManyGroups(keys, events, previous, job);
    GroupAt(keys, events, previous, job, i);
  }

  lemma {:induction false} AsManyGroups(keys: seq<GroupKey>, events: seq<Event>, previous: map<string, Aggregate>,
      job: Job)
    requires job.spec.windowSize > 0 && AggregateGroups(keys, events, previous, job).Ok?
    ensures |AggregateGroups(keys, events, previous, job).value| == |keys|
  {
    hide AggregateGroup, Members;
    if keys != [] {
      FirstAndRest(keys, events, previous, job);
      AsManyGroups(keys[1..], events, previous, job);
    }
  }

  /** A group of more than 256 members makes the whole call fail, whatever the batch limits are elsewhere. */
  lemma {:induction false} CrowdedGroupFails(events: seq<Event>, previous: map<string, Aggregate>, job: Job,
      key: GroupKey)
    requires job.spec.windowSize > 0
    requires |Members(events, key, job.spec, job.watermark)| > MAX_ARRAY
    ensures AggregateAll(events, previous, job).Err?
  {
    hide SetFingerprint, Members, Sorted, Grouped;
    SortedGroupsMeaning(events, job.spec, job.watermark);
    var member := Members(events, key, job.spec, job.watermark)[0];
    MembersAreGrouped(events, key, job.spec, job.watermark, member);
    var i :| 0 <= i < |events| && events[i] == member;
    var keys := SortedGroups(events, job.spec, job.watermark);
    assert key in keys;
    CrowdedAmong(keys, events, previous, job, key);
  }

  lemma {:induction false} CrowdedAmong(keys: seq<GroupKey>, events: seq<Event>, previous: map<string, Aggregate>,
      job: Job, key: GroupKey)
    requires job.spec.windowSize > 0 && key in keys
    requires |Members(events, key, job.spec, job.watermark)| > MAX_ARRAY
    ensures AggregateGroups(keys, events, previous, job).Err?
  {
    hide SetFingerprint, Members, NewVersion;
    if keys[0] == key {
      TooManyMembers(Members(events, key, job.spec, job.watermark), job.hash);
    } else {
      CrowdedAmong(keys[1..], events, previous, job, key);
    }
  }

  // ---- When aggregation succeeds ----

  /** The group's previous version has exactly these sources. */
  predicate Reuses(key: GroupKey, members: seq<Event>, previous: map<string, Aggregate>, job: Job) {
    var prior := Prior(previous, AggregateId(job.spec, key, job.hash));
    prior.Some? && SetFingerprint(members, job.hash) == Ok(prior.value.sourceFingerprint)
  }

  predicate GroupPasses(key: GroupKey, members: seq<Event>, previous: map<string, Aggregate>, job: Job) {
    && |members| <= MAX_ARRAY
    && (Reuses(key, members, previous, job) || StorageResult(RunningSum(Values(members))).Ok?)
  }

  lemma GroupExactly(key: GroupKey, members: seq<Event>, previous: map<string, Aggregate>, job: Job)
    ensures AggregateGroup(key, members, previous, job).Ok? <==> GroupPasses(key, members, previous, job)
  {
    hide StorageResult, RunningSum, AggregateId;
    TooManyMembers(members, job.hash);
  }

  lemma FirstOrLater<T>(p: T -> bool, s: seq<T>)
    requires s != []
    ensures (forall x :: x in s ==> p(x)) <==> p(s[0]) && forall x :: x in s[1..] ==> p(x)
  {
    assert s[0] in s && forall x :: x in s ==> x == s[0] || x in s[1..];
  }

  lemma {:induction false} GroupsExactly(keys: seq<GroupKey>, events: seq<Event>, previous: map<string, Aggregate>,
      job: Job)
    requires job.spec.windowSize > 0
    ensures AggregateGroups(keys, events, previous, job).Ok?
            <==> forall k :: k in keys ==> GroupPasses(k, Members(events, k, job.spec, job.watermark), previous, job)
  {
    hide AggregateGroup, GroupPasses, Members;
    if keys != [] {
      GroupExactly(keys[0], Members(events, keys[0], job.spec, job.watermark), previous, job);
      GroupsExactly(keys[1..], events, previous, job);
      var passes := k => GroupPasses(k, Members(events, k, job.spec, job.watermark), previous, job);
      FirstOrLater(passes, keys);
    }
  }

  /**
    Aggregation succeeds exactly when every event matches the spec and each event before the watermark is in a
    group of at most 256 members that either repeats its previous version's sources or has a storable total.
   */
  lemma AggregatesExactly(events: seq<Event>, previous: map<string, Aggregate>, job: Job)
    requires job.spec.windowSize > 0
    ensures AggregateAll(events, previous, job).Ok?
            <==> && (forall i :: 0 <= i < |events| ==> Matches(events[i], job.spec))
                 && forall i :: 0 <= i < |events| && events[i].start < job.watermark ==>
                      var key := KeyOf(events[i], job.spec);
                      GroupPasses(key, Members(events, key, job.spec, job.watermark), previous, job)
  {
    hide GroupPasses, Members, AggregateGroups, SortedGroups, KeyOf, Matches, Sorted;
    var keys := SortedGroups(events, job.spec, job.watermark);
    GroupsExactly(keys, events, previous, job);
    SortedGroupsMeaning(events, job.spec, job.watermark);
    forall i | 0 <= i < |events| && events[i].start < job.watermark ensures KeyOf(events[i], job.spec) in keys {
      assert Grouped(events[i], KeyOf(events[i], job.spec), job.spec, job.watermark);
    }
  }

  /** The first group that fails in processing order names the error: too many members, or a total that is refused. */
  lemma {:induction false} GroupsStop(keys: seq<GroupKey>, events: seq<Event>, previous: map<string, Aggregate>,
      job: Job)
    returns (i: nat)
    requires job.spec.windowSize > 0 && AggregateGroups(keys, events, previous, job).Err?
    ensures i < |keys| && AggregateGroups(keys[..i], events, previous, job).Ok?
    ensures var members := Members(events, keys[i], job.spec, job.watermark);
            && !GroupPasses(keys[i], members, previous, job)
            && AggregateGroups(keys, events, previous, job).error
               == if |members| > MAX_ARRAY then InvalidUsage else StorageResult(RunningSum(Values(members))).error
  {
    hide AggregateGroup, Members, GroupPasses, StorageResult, RunningSum;
    var members := Members(events, keys[0], job.spec, job.watermark);
    GroupExactly(keys[0], members, previous, job);
    if AggregateGroup(keys[0], members, previous, job).Err? {
      i := 0;
      GroupFailsWith(keys[0], members, previous, job);
    } else {
      var k := GroupsStop(keys[1..], events, previous, job);
      i := k + 1;
      assert keys[..i][1..] == keys[1..][..k] && keys[..i][0] == keys[0];
    }
  }

  lemma GroupFailsWith(key: GroupKey, members: seq<Event>, previous: map<string, Aggregate>, job: Job)
    requires AggregateGroup(key, members, previous, job).Err?
    ensures AggregateGroup(key, members, previous, job).error
            == if |members| > MAX_ARRAY then InvalidUsage else StorageResult(RunningSum(Values(members))).error
  {
    hide StorageResult, RunningSum, AggregateId;
  }

  /** A foreign event fails the call before any group is looked at. */
  lemma MismatchFailsFirst(events: seq<Event>, previous: map<string, Aggregate>, job: Job)
    requires job.spec.windowSize > 0
    ensures if exists i :: 0 <= i < |events| && !Matches(events[i], job.spec)
            then AggregateAll(events, previous, job) == Err(InvalidUsage)
            else AggregateAll(events, previous, job)
                 == AggregateGroups(SortedGroups(events, job.spec, job.watermark), events, previous, job)
  {
    hide AggregateGroups, SortedGroups, Matches;
  }

  /** A total of normalized events is storable exactly below 10^58. */
  lemma NormalizedTotalStorable(members: seq<Event>)
    requires |members| <= MAX_ARRAY && AllMetered(members)
    ensures StorageResult(RunningSum(Values(members))).Ok? <==> Abs(SumUnits(Values(members))) < Pow10(76)
  {
    hide RunningSum, SumUnits, StorageResult, Pow10, Fits, Metered, Exponent;
    EnoughMembers();
    var values := Values(members);
    forall i | 0 <= i < |values|
      ensures Fits(values[i]) && values[i].exp >= -STORED_SCALE
    {
      MeteredFits(members[i].value);
    }
    TotalStorableExactly(values);
    ExponentAboveFinest(values);
    FinestExponentMeans(values);
  }

  /** For normalized events: at most 256 to a group, and fresh totals below 10^58 in magnitude. */
  lemma NormalizedAggregatesExactly(events: seq<Event>, previous: map<string, Aggregate>, job: Job)
    requires job.spec.windowSize > 0 && AllMetered(events)
    ensures AggregateAll(events, previous, job).Ok?
            <==> && (forall i :: 0 <= i < |events| ==> Matches(events[i], job.spec))
                 && forall i :: 0 <= i < |events| && events[i].start < job.watermark ==>
                      var key := KeyOf(events[i], job.spec);
                      var members := Members(events, key, job.spec, job.watermark);
                      && |members| <= MAX_ARRAY
                      && (Reuses(key, members, previous, job) || Abs(SumUnits(Values(members))) < Pow10(76))
  {
    hide Reuses, Members, AggregateAll, KeyOf, Matches, SumUnits, Pow10, RunningSum, StorageResult, Metered, Grouped;
    AggregatesExactly(events, previous, job);
    forall i | 0 <= i < |events| && events[i].start < job.watermark
      ensures var key := KeyOf(events[i], job.spec);
              var members := Members(events, key, job.spec, job.watermark);
              GroupPasses(key, members, previous, job)
              <==> && |members| <= MAX_ARRAY
                   && (Reuses(key, members, previous, job) || Abs(SumUnits(Values(members))) < Pow10(76))
    {
      var key := KeyOf(events[i], job.spec);
      var members := Members(events, key, job.spec, job.watermark);
      MembersMetered(events, key, job.spec, job.watermark);
      if |members| <= MAX_ARRAY {
        NormalizedTotalStorable(members);
      }
    }
  }

  lemma MembersMetered(events: seq<Event>, key: GroupKey, spec: Spec, watermark: int)
    requires spec.windowSize > 0 && AllMetered(events)
    ensures AllMetered(Members(events, key, spec, watermark))
  {
    hide Members, Metered;
    var members := Members(events, key, spec, watermark);
    forall i | 0 <= i < |members| ensures Metered(members[i].value) {
      MembersAreGrouped(events, key, spec, watermark, members[i]);
    }
  }

  // ---- Identities ----

  lemma TextItemsInjective(xs: seq<string>, ys: seq<string>)
    requires TextItems(xs) == TextItems(ys)
    ensures xs == ys
  {
    assert |xs| == |TextItems(xs)| == |TextItems(ys)| == |ys|;
    forall i | 0 <= i < |xs| ensures xs[i] == ys[i] {
      assert TextItems(xs)[i] == TextItems(ys)[i];
    }
  }

  /** Two specs with one fingerprint aggregate alike: they differ at most in page size and coordination ids. */
  lemma SpecFingerprintFixesSpec(s: Spec, t: Spec, hash: Hash)
    requires Injective(hash) && s.Valid() && t.Valid()
    requires SpecFingerprint(s, hash) == SpecFingerprint(t, hash)
    ensures s == t.(checkpointId := s.checkpointId, claimId := s.claimId, pageSize := s.pageSize)
  {
    hide TextItems, LabelsJson, Digest, Sorted, Unique, Injective;
    var a, b := SpecJson(s, hash), SpecJson(t, hash);
    DigestInjective(a, b, hash);
    assert a.entries[0].value == b.entries[0].value && a.entries[1].value == b.entries[1].value;
    assert a.entries[2].value == b.entries[2].value && a.entries[3].value == b.entries[3].value;
    assert a.entries[4].value == b.entries[4].value && a.entries[5].value == b.entries[5].value;
    assert a.entries[6].value == b.entries[6].value && a.entries[7].value == b.entries[7].value;
    TextItemsInjective(s.dimensions, t.dimensions);
    DigestInjective(LabelsJson(s.scope), LabelsJson(t.scope), hash);
    LabelsJsonInjective(s.scope, t.scope);
    WholeSeconds(s.windowSize, t.windowSize);
    WholeSeconds(s.allowedLateness, t.allowedLateness);
  }

  lemma WholeSeconds(a: int, b: int)
    requires a % SECOND == 0 && b % SECOND == 0 && a / SECOND == b / SECOND
    ensures a == b
  {
  }

  /** Unique (spec, window, dimensions) triples never share an aggregate id. */
  lemma AggregateIdFixesGroup(s: Spec, k: GroupKey, t: Spec, l: GroupKey, hash: Hash)
    requires Injective(hash) && s.Valid() && t.Valid()
    requires AggregateId(s, k, hash) == AggregateId(t, l, hash)
    ensures k == l
    ensures s == t.(checkpointId := s.checkpointId, claimId := s.claimId, pageSize := s.pageSize)
  {
    hide TextItems, LabelsJson, Digest, SpecFingerprint, Sorted, Unique, Injective;
    var a, b := GroupJson(s, k, hash), GroupJson(t, l, hash);
    WordUnambiguous("aggregate-", Digest(a, hash), Digest(b, hash));
    DigestInjective(a, b, hash);
    assert a.entries[0].value == b.entries[0].value && a.entries[1].value == b.entries[1].value;
    assert a.entries[2].value.entries[1].value == b.entries[2].value.entries[1].value;
    LabelsJsonInjective(k.dimensions, l.dimensions);
    SpecFingerprintFixesSpec(s, t, hash);
  }

  /** The members behind one source fingerprint: the same fingerprints, however often and in whatever order. */
  lemma SourceFixesFingerprints(xs: seq<Event>, ys: seq<Event>, hash: Hash)
    requires Injective(hash)
    requires SetFingerprint(xs, hash).Ok? && SetFingerprint(xs, hash) == SetFingerprint(ys, hash)
    ensures multiset(Fingerprints(xs, hash)) == multiset(Fingerprints(ys, hash))
  {
    hide TextItems, Fingerprint, Digest, TextLess, Injective;
    var a, b := Sort(TextLess, Fingerprints(xs, hash)), Sort(TextLess, Fingerprints(ys, hash));
    DigestInjective(Arr(TextItems(a)), Arr(TextItems(b)), hash);
    TextItemsInjective(a, b);
  }

  function Without<T>(s: seq<T>, j: nat): (r: seq<T>)
    requires j < |s|
    ensures |r| == |s| - 1
  {
    s[..j] + s[j + 1..]
  }

  lemma FingerprintsWithout(xs: seq<Event>, j: nat, hash: Hash)
    requires j < |xs|
    ensures multiset(Fingerprints(xs, hash))
            == multiset{Fingerprint(xs[j], hash)} + multiset(Fingerprints(Without(xs, j), hash))
  {
    hide Fingerprint;
    var f := e => Fingerprint(e, hash);
    ImageWithout(f, xs, j);
    assert Fingerprints(xs, hash) == Image(f, xs);
    assert Fingerprints(xs[..j] + xs[j + 1..], hash) == Image(f, xs[..j] + xs[j + 1..]);
  }

  lemma ValuesWithout(xs: seq<Event>, j: nat)
    requires j < |xs|
    ensures multiset(Values(xs)) == multiset{xs[j].value} + multiset(Values(Without(xs, j)))
  {
    var f := (e: Event) => e.value;
    ImageWithout(f, xs, j);
    assert Values(xs) == Image(f, xs);
    assert Values(xs[..j] + xs[j + 1..]) == Image(f, xs[..j] + xs[j + 1..]);
  }

  /** An event with the same fingerprint among the others. */
  lemma Twin(xs: seq<Event>, ys: seq<Event>, hash: Hash) returns (j: nat)
    requires xs != [] && multiset(Fingerprints(xs, hash)) == multiset(Fingerprints(ys, hash))
    ensures j < |ys| && Fingerprint(ys[j], hash) == Fingerprint(xs[0], hash)
  {
    hide Fingerprint;
    var a, b := Fingerprints(xs, hash), Fingerprints(ys, hash);
    assert a[0] in multiset(b);
    j :| 0 <= j < |b| && b[j] == a[0];
  }

  lemma NobodyLeft(ys: seq<Event>, hash: Hash)
    requires multiset(Fingerprints([], hash)) == multiset(Fingerprints(ys, hash))
    ensures ys == []
  {
    hide Fingerprint;
    assert |ys| == |multiset(Fingerprints(ys, hash))| == |multiset(Fingerprints([], hash))| == 0;
  }

  lemma MeteredWithout(xs: seq<Event>, j: nat)
    requires AllMetered(xs) && j < |xs|
    ensures Metered(xs[j].value) && AllMetered(Without(xs, j))
  {
    hide Metered;
  }

  /** Removing an event and its twin leaves the same fingerprints, and takes the same value away. */
  lemma RemoveTwins(xs: seq<Event>, ys: seq<Event>, j: nat, hash: Hash)
    requires Injective(hash) && AllMetered(xs) && AllMetered(ys)
    requires xs != [] && j < |ys| && Fingerprint(ys[j], hash) == Fingerprint(xs[0], hash)
    requires multiset(Fingerprints(xs, hash)) == multiset(Fingerprints(ys, hash))
    ensures multiset(Fingerprints(Without(xs, 0), hash)) == multiset(Fingerprints(Without(ys, j), hash))
    ensures multiset(Values(xs)) == multiset{xs[0].value} + multiset(Values(Without(xs, 0)))
    ensures multiset(Values(ys)) == multiset{xs[0].value} + multiset(Values(Without(ys, j)))
  {
    hide *;
    MeteredWithout(xs, 0);
    MeteredWithout(ys, j);
    FingerprintFixesEvent(xs[0], ys[j], hash);
    FingerprintsWithout(xs, 0, hash);
    FingerprintsWithout(ys, j, hash);
    ValuesWithout(xs, 0);
    ValuesWithout(ys, j);
    SameRest(multiset(Fingerprints(Without(xs, 0), hash)), multiset(Fingerprints(Without(ys, j), hash)),
        Fingerprint(xs[0], hash));
  }

  lemma {:induction false} FingerprintsFixValues(xs: seq<Event>, ys: seq<Event>, hash: Hash)
    requires Injective(hash) && AllMetered(xs) && AllMetered(ys)
    requires multiset(Fingerprints(xs, hash)) == multiset(Fingerprints(ys, hash))
    ensures |xs| == |ys| && multiset(Values(xs)) == multiset(Values(ys))
    decreases |xs|
  {
    hide Fingerprint, Injective, Fingerprints, Values, AllMetered, Without;
    if xs == [] {
      NobodyLeft(ys, hash);
    } else {
      var j := Twin(xs, ys, hash);
      RemoveTwins(xs, ys, j, hash);
      MeteredWithout(xs, 0);
      MeteredWithout(ys, j);
      FingerprintsFixValues(Without(xs, 0), Without(ys, j), hash);
    }
  }

  lemma SameRest<T>(a: multiset<T>, b: multiset<T>, x: T)
    requires multiset{x} + a == multiset{x} + b
    ensures a == b
  {
    assert a == (multiset{x} + a) - multiset{x};
    assert b == (multiset{x} + b) - multiset{x};
  }

  /** One source fingerprint, one count and one total: reusing a version never reuses a wrong number. */
  lemma SourceFixesNumbers(xs: seq<Event>, ys: seq<Event>, hash: Hash)
    requires Injective(hash) && AllMetered(xs) && AllMetered(ys)
    requires SetFingerprint(xs, hash).Ok? && SetFingerprint(xs, hash) == SetFingerprint(ys, hash)
    ensures |xs| == |ys| && RunningSum(Values(xs)) == RunningSum(Values(ys))
  {
    hide Metered, Injective, RunningSum, Fits, Pow10, Fingerprints, SetFingerprint;
    SourceFixesFingerprints(xs, ys, hash);
    FingerprintsFixValues(xs, ys, hash);
    TooManyMembers(xs, hash);
    EnoughMembers();
    forall i | 0 <= i < |xs|
      ensures Fits(Values(xs)[i]) && Values(xs)[i].exp >= -STORED_SCALE
    {
      MeteredFits(xs[i].value);
    }
    RunningSumPermuted(Values(xs), Values(ys));
  }

  /** A new version's total survives storage that re-pads it; `facts` are its other content fields. */
  lemma TotalSurvivesStorage(key: GroupKey, members: seq<Event>, source: string, current: Option<Aggregate>,
      job: Job, facts: seq<Entry>, row: StoredTotals.StoredAggregate)
    requires Injective(job.hash) && NewVersion(key, members, source, current, job).Ok?
    requires StoredRecords.Facts(facts, {TOTAL})
    requires StoredTotals.RepaddedTotal(row,
            StoredTotals.TotalRecord(facts, NewVersion(key, members, source, current, job).value.total), job.hash)
    ensures StoredTotals.AggregateFromMapping(row, job.hash).Ok?
    ensures StoredTotals.TotalContent(StoredTotals.AggregateFromMapping(row, job.hash).value)
            == StoredTotals.TotalContent(StoredTotals.TotalRecord(facts,
                NewVersion(key, members, source, current, job).value.total))
  {
    hide Injective, RunningSum, Storable, InDomain, AggregateId;
    StorageKeeps(RunningSum(Values(members)));
    StoredTotals.TotalRecoveryIsComplete(StoredTotals.TotalRecord(facts,
        NewVersion(key, members, source, current, job).value.total), row, job.hash);
  }
}
