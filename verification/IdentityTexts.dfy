/** The digests behind identities are those of the dictionaries the source writes, encoded canonically. */
module IdentityTexts {
  import opened Prelude
  import opened Orders
  import opened Canonical
  import opened SortedObjects
  import opened Recovery
  import opened Events
  import opened EventRecords
  import opened Aggregation
  import StoredRecords

  /** A dictionary in the order its entries were inserted, and the digest of its canonical text. */
  ghost predicate Fingerprinted(inserted: seq<Entry>, digest: string, hash: Hash) {
    CanonicalText(Obj(inserted)).Ok? && hash(CanonicalText(Obj(inserted)).value) == digest
  }

  /** What is printed is fingerprinted if it is the dictionary in key order and all of it is accepted. */
  lemma SortedIsFingerprinted(inserted: seq<Entry>, sorted: seq<Entry>, hash: Hash)
    requires multiset(inserted) == multiset(sorted) && Increasing(Keys(sorted))
    requires |sorted| <= 64 && EntriesFit(sorted, 1)
    ensures Fingerprinted(inserted, Digest(Obj(sorted), hash), hash)
  {
    hide EntriesFit, Increasing, NormalForm, Print;
    NormalInAnyOrder(inserted, sorted, 0);
  }

  lemma KeyIsText(key: string)
    requires 0 < |key| <= 128 && forall i :: 0 <= i < |key| ==> 'A' <= key[i] <= 'z'
    ensures BoundedText(key, 128)
  {
    hide BoundedText;
    StoredRecords.PlainText(key, 128);
  }

  // ---- Scopes and events ----

  /** A scope's fingerprint is that of the mapping itself. */
  lemma ScopeFingerprintIsCanonical(labels: Labels, hash: Hash)
    requires LabelsFit(labels)
    ensures Fingerprinted(LabelEntries(labels), Digest(LabelsJson(labels), hash), hash)
  {
    hide BoundedText, TextLess, Print;
    NormalInAnyOrder(LabelEntries(labels), LabelEntries(labels), 0);
  }

  lemma IdempotencyKeyIsCanonical(e: Event, hash: Hash)
    requires FieldsFit(e, hash)
    ensures Fingerprinted([Entry("scopeFingerprint", Str(ScopeDigest(e, hash))), Entry("eventId", Str(e.eventId))],
                          IdempotencyKey(e, hash), hash)
  {
    hide BoundedText, LabelsFit, DimensionDigest, ScopeDigest, NormalForm, TextLess, Fingerprinted;
    var x, y := Entry("eventId", Str(e.eventId)), Entry("scopeFingerprint", Str(ScopeDigest(e, hash)));
    TextsFit(e, hash);
    TwoFit(x, y);
    assert multiset([y, x]) == multiset([x, y]);
    SortedIsFingerprinted([y, x], [x, y], hash);
  }

  lemma TwoFit(x: Entry, y: Entry)
    requires x.key == "eventId" && y.key == "scopeFingerprint" && ValueFits(x.value) && ValueFits(y.value)
    ensures EntriesFit([x, y], 1) && Increasing(Keys([x, y]))
  {
    hide BoundedText, NormalForm;
    KeyIsText("eventId");
    KeyIsText("scopeFingerprint");
    FirstDifference("eventId", "scopeFingerprint", 0);
  }

  // ---- Specs and groups ----

  const SPEC_KEYS := [
    "algorithm", "allowedLatenessSeconds", "dimensions", "initialStart", "meterId", "meterVersion", "scopeFingerprint",
    "windowSeconds"
  ]

  const SPEC_SHARED: seq<nat> := [2, 0, 0, 0, 5, 0, 0]

  lemma SpecKeysIncrease()
    ensures |SPEC_KEYS| == 8 && Increasing(SPEC_KEYS)
    ensures forall k :: 0 <= k < 8 ==> BoundedText(SPEC_KEYS[k], 128)
  {
    hide BoundedText;
    forall k | 0 < k < |SPEC_KEYS| ensures TextLess(SPEC_KEYS[k - 1], SPEC_KEYS[k]) {
      FirstDifference(SPEC_KEYS[k - 1], SPEC_KEYS[k], SPEC_SHARED[k - 1]);
    }
    forall i, j | 0 <= i < j < |SPEC_KEYS| ensures TextLess(SPEC_KEYS[i], SPEC_KEYS[j]) {
      IncreasingByStep(SPEC_KEYS, i, j);
    }
    forall k | 0 <= k < |SPEC_KEYS| ensures BoundedText(SPEC_KEYS[k], 128) {
      KeyIsText(SPEC_KEYS[k]);
    }
  }

  /** What the spec's constructor checks of its texts and integers. */
  ghost predicate SpecFits(spec: Spec, hash: Hash) {
    && BoundedText(spec.algorithm, 4096) && BoundedText(spec.meterId, 4096)
    && |spec.dimensions| <= 256 && (forall i :: 0 <= i < |spec.dimensions| ==> BoundedText(spec.dimensions[i], 4096))
    && BoundedText(Digest(LabelsJson(spec.scope), hash), 4096)
    && IntFits(spec.meterVersion) && IntFits(spec.initialStart)
    && IntFits(spec.windowSize / SECOND) && IntFits(spec.allowedLateness / SECOND)
  }

  lemma SpecValuesFit(spec: Spec, hash: Hash)
    requires SpecFits(spec, hash)
    ensures var entries := SpecJson(spec, hash).entries;
            |entries| == 8 && forall i :: 0 <= i < 8 ==> ValueFits(entries[i].value)
  {
    hide BoundedText, Digest, LabelsJson;
    TextArrayExactly(spec.dimensions, 1);
  }

  /** The fields in the order in which the source writes them. */
  function SpecInserted(spec: Spec, hash: Hash): seq<Entry> {
    [
      Entry("scopeFingerprint", Str(Digest(LabelsJson(spec.scope), hash))),
      Entry("meterId", Str(spec.meterId)),
      Entry("meterVersion", Int(spec.meterVersion)),
      Entry("initialStart", Int(spec.initialStart)),
      Entry("windowSeconds", Int(spec.windowSize / 1_000_000)),
      Entry("dimensions", Arr(TextItems(spec.dimensions))),
      Entry("allowedLatenessSeconds", Int(spec.allowedLateness / 1_000_000)),
      Entry("algorithm", Str(spec.algorithm))
    ]
  }

  function Reordered(s: seq<Entry>): seq<Entry>
    requires |s| == 8
  {
    [s[6], s[4], s[5], s[3], s[7], s[2], s[1], s[0]]
  }

  lemma ReorderedKeeps(s: seq<Entry>)
    requires |s| == 8 && Unique(s)
    ensures multiset(Reordered(s)) == multiset(s)
  {
    var r := Reordered(s);
    hide Unique;
    Rearranged(r, s, [6, 4, 5, 3, 7, 2, 1, 0], [7, 6, 5, 3, 1, 2, 0, 4]);
  }

  /** One list is a rearrangement of another: `at` and `back` say where each element of either stands in the other. */
  lemma Rearranged<T>(a: seq<T>, b: seq<T>, at: seq<nat>, back: seq<nat>)
    requires |a| == |b| == |at| == |back| && Unique(b)
    requires forall i :: 0 <= i < |a| ==> at[i] < |b| && back[i] < |a|
    requires forall i :: 0 <= i < |a| ==> a[i] == b[at[i]] && b[i] == a[back[i]] && back[at[i]] == i
    ensures multiset(a) == multiset(b)
  {
    forall i, j | 0 <= i < j < |a| ensures a[i] != a[j] {
      assert at[i] != at[j];
      assert b[at[i]] != b[at[j]];
    }
    SameDistinct(a, b);
  }

  /** Lists without repetition that hold the same elements are permutations of each other. */
  lemma SameDistinct<T>(a: seq<T>, b: seq<T>)
    requires Unique(a) && Unique(b) && forall x :: x in a <==> x in b
    ensures multiset(a) == multiset(b)
  {
    forall x ensures multiset(a)[x] == multiset(b)[x] {
      AtMostOnce(a, x);
      AtMostOnce(b, x);
    }
  }

  lemma {:induction false} AtMostOnce<T>(s: seq<T>, x: T)
    requires Unique(s)
    ensures multiset(s)[x] == if x in s then 1 else 0
  {
    if s != [] {
      assert s == [s[0]] + s[1..];
      AtMostOnce(s[1..], x);
    }
  }

  lemma SpecIsReordered(spec: Spec, hash: Hash)
    ensures SpecJson(spec, hash).Obj? && |SpecJson(spec, hash).entries| == 8
    ensures SpecInserted(spec, hash) == Reordered(SpecJson(spec, hash).entries)
  {
    hide Digest, LabelsJson, TextItems;
  }

  /** A spec's fingerprint covers the source's dictionary: eight fields, durations in whole seconds. */
  lemma SpecFingerprintIsCanonical(spec: Spec, hash: Hash)
    requires SpecFits(spec, hash)
    ensures Fingerprinted(SpecInserted(spec, hash), SpecFingerprint(spec, hash), hash)
  {
    hide BoundedText, Digest, NormalForm, Fingerprinted, SPEC_KEYS, Increasing, SpecFits, SpecInserted, SpecJson,
        Reordered;
    SpecIsReordered(spec, hash);
    var s := SpecJson(spec, hash).entries;
    SpecValuesFit(spec, hash);
    SpecKeysIncrease();
    KeysOfSpec(spec, hash);
    DistinctKeys(s);
    ReorderedKeeps(s);
    forall i | 0 <= i < 8 ensures BoundedText(s[i].key, 128) {
      assert Keys(s)[i] == s[i].key;
    }
    SortedIsFingerprinted(SpecInserted(spec, hash), s, hash);
  }

  lemma DistinctKeys(s: seq<Entry>)
    requires Increasing(Keys(s))
    ensures Unique(s)
  {
    hide TextLess;
    TextOrder();
    forall i, j | 0 <= i < j < |s| ensures s[i] != s[j] {
      assert TextLess(Keys(s)[i], Keys(s)[j]);
    }
  }

  lemma KeysOfSpec(spec: Spec, hash: Hash)
    ensures Keys(SpecJson(spec, hash).entries) == SPEC_KEYS
  {
    hide Digest, LabelsJson, TextItems;
  }

  const GROUP_KEYS := ["dimensions", "spec", "window"]

  lemma GroupKeysIncrease(spec: Spec, key: GroupKey, hash: Hash)
    ensures Keys(GroupJson(spec, key, hash).entries) == GROUP_KEYS && Increasing(GROUP_KEYS)
    ensures forall k :: 0 <= k < |GROUP_KEYS| ==> BoundedText(GROUP_KEYS[k], 128)
  {
    hide BoundedText, LabelsJson, SpecFingerprint;
    forall k | 0 < k < |GROUP_KEYS| ensures TextLess(GROUP_KEYS[k - 1], GROUP_KEYS[k]) {
      FirstDifference(GROUP_KEYS[k - 1], GROUP_KEYS[k], 0);
    }
    forall i, j | 0 <= i < j < |GROUP_KEYS| ensures TextLess(GROUP_KEYS[i], GROUP_KEYS[j]) {
      IncreasingByStep(GROUP_KEYS, i, j);
    }
    forall k | 0 <= k < |GROUP_KEYS| ensures BoundedText(GROUP_KEYS[k], 128) {
      KeyIsText(GROUP_KEYS[k]);
    }
  }

  lemma WindowFits(start: int, end: int)
    requires IntFits(start) && IntFits(end)
    ensures ValueFits(Obj([Entry("end", Int(end)), Entry("start", Int(start))]))
  {
    hide BoundedText, TextLess;
    var w := [Entry("end", Int(end)), Entry("start", Int(start))];
    KeyIsText("end");
    KeyIsText("start");
    FirstDifference("end", "start", 0);
    NormalInAnyOrder(w, w, 1);
  }

  lemma GroupFits(spec: Spec, key: GroupKey, hash: Hash)
    requires LabelsFit(key.dimensions) && BoundedText(SpecFingerprint(spec, hash), 4096)
    requires IntFits(key.start) && IntFits(key.start + spec.windowSize)
    ensures EntriesFit(GroupJson(spec, key, hash).entries, 1)
  {
    hide BoundedText, LabelsFit, LabelsJson, NormalForm, TextLess, Increasing, SpecFingerprint, GROUP_KEYS;
    var g := GroupJson(spec, key, hash).entries;
    LabelsAreNormal(key.dimensions);
    TextIsNormal(Some(SpecFingerprint(spec, hash)));
    WindowFits(key.start, key.start + spec.windowSize);
    GroupKeysIncrease(spec, key, hash);
    forall i | 0 <= i < |g| ensures BoundedText(g[i].key, 128) {
      assert Keys(g)[i] == g[i].key;
    }
  }

  /** The fields in the order in which the source writes them. */
  function GroupInserted(spec: Spec, key: GroupKey, hash: Hash): seq<Entry> {
    [
      Entry("spec", Str(SpecFingerprint(spec, hash))),
      Entry("window", Obj([Entry("end", Int(key.start + spec.windowSize)), Entry("start", Int(key.start))])),
      Entry("dimensions", LabelsJson(key.dimensions))
    ]
  }

  lemma GroupIsReordered(spec: Spec, key: GroupKey, hash: Hash)
    ensures GroupJson(spec, key, hash).Obj? && |GroupJson(spec, key, hash).entries| == 3
    ensures multiset(GroupInserted(spec, key, hash)) == multiset(GroupJson(spec, key, hash).entries)
  {
    hide LabelsJson, SpecFingerprint;
    var g := GroupJson(spec, key, hash).entries;
    assert GroupInserted(spec, key, hash) == g[1..] + g[..1];
    FirstToLast(g);
  }

  lemma FirstToLast<T>(s: seq<T>)
    requires s != []
    ensures multiset(s[1..] + s[..1]) == multiset(s)
  {
    assert s == s[..1] + s[1..];
  }

  /** An aggregate id is built on the source's dictionary of spec, window and dimensions. */
  lemma AggregateIdIsCanonical(spec: Spec, key: GroupKey, hash: Hash)
    requires LabelsFit(key.dimensions) && BoundedText(SpecFingerprint(spec, hash), 4096)
    requires IntFits(key.start) && IntFits(key.start + spec.windowSize)
    ensures AggregateId(spec, key, hash) == "aggregate-" + Digest(GroupJson(spec, key, hash), hash)
    ensures Fingerprinted(GroupInserted(spec, key, hash), Digest(GroupJson(spec, key, hash), hash), hash)
  {
    hide BoundedText, LabelsFit, GroupJson, GroupInserted, Increasing, Fingerprinted, EntriesFit, Digest;
    GroupFits(spec, key, hash);
    GroupKeysIncrease(spec, key, hash);
    GroupIsReordered(spec, key, hash);
    SortedIsFingerprinted(GroupInserted(spec, key, hash), GroupJson(spec, key, hash).entries, hash);
  }
}
