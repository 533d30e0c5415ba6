/** Objects whose entries the encoder accepts as they stand, in whatever order they were inserted. */
module SortedObjects {
  import opened Prelude
  import opened Orders
  import opened Canonical

  // ---- Objects that are their own normal form ----

  ghost predicate Increasing(keys: seq<string>) {
    forall i, j :: 0 <= i < j < |keys| ==> TextLess(keys[i], keys[j])
  }

  /** Each entry is accepted as it stands. */
  ghost predicate EntriesFit(entries: seq<Entry>, depth: nat) {
    forall i :: 0 <= i < |entries| ==>
      BoundedText(entries[i].key, 128) && NormalForm(entries[i].value, depth) == Ok(entries[i].value)
  }

  lemma {:induction false} FittingEntries(owner: Json, entries: seq<Entry>, depth: nat)
    requires forall i :: 0 <= i < |entries| ==> entries[i] < owner
    requires EntriesFit(entries, depth)
    ensures NormalEntries(owner, entries, depth) == Ok(entries)
    decreases |entries|
  {
    hide BoundedText, NormalForm;
    if entries != [] {
      FittingEntries(owner, entries[1..], depth);
      assert Entry(entries[0].key, entries[0].value) == entries[0];
      assert [entries[0]] + entries[1..] == entries;
    }
  }

  lemma SortIs(content: seq<Entry>, entries: seq<Entry>)
    requires multiset(content) == multiset(entries) && Increasing(Keys(entries))
    ensures Sort(EntryLess, content) == entries
  {
    hide TextLess;
    TextOrder();
    var sorted := Sort(EntryLess, content);
    SortSorted(EntryLess, content);
    forall x, y | x in sorted && y in sorted ensures x == y || EntryLess(x, y) || EntryLess(y, x) {
      SameElements(sorted, entries, x);
      SameElements(sorted, entries, y);
      var i :| 0 <= i < |entries| && entries[i] == x;
      var j :| 0 <= j < |entries| && entries[j] == y;
      assert Keys(entries)[i] == x.key && Keys(entries)[j] == y.key;
    }
    forall i, j | 0 <= i < j < |entries| ensures !EntryLess(entries[j], entries[i]) {
      assert TextLess(Keys(entries)[i], Keys(entries)[j]);
    }
    SortedUnique(EntryLess, sorted, entries);
  }

  /** One object whose sorted entries are accepted as they stand. */
  lemma SortedIsNormal(content: seq<Entry>, entries: seq<Entry>, depth: nat)
    requires Sort(EntryLess, content) == entries && EntriesFit(entries, depth + 1)
    requires |content| <= 64 && depth < 8
    ensures NormalForm(Obj(content), depth) == Ok(Obj(entries))
  {
    hide EntriesFit, Sort, EntryLess;
    SortKeeps(content);
    forall i | 0 <= i < |entries| ensures entries[i] < Obj(content) {
      assert entries[i] in content;
    }
    FittingEntries(Obj(content), entries, depth + 1);
  }

  /** Accepted entries in any order are normalized to the same entries in key order. */
  lemma NormalInAnyOrder(content: seq<Entry>, entries: seq<Entry>, depth: nat)
    requires multiset(content) == multiset(entries) && Increasing(Keys(entries))
    requires |entries| <= 64 && depth < 8 && EntriesFit(entries, depth + 1)
    ensures NormalForm(Obj(content), depth) == Ok(Obj(entries))
  {
    hide EntriesFit, TextLess, Increasing, NormalForm, Sort;
    SortIs(content, entries);
    assert |content| == |multiset(content)| == |entries|;
    SortedIsNormal(content, entries, depth);
  }

  // ---- Keys in order ----

  lemma {:induction false} FirstDifference(a: string, b: string, k: nat)
    requires k < |b| && a[..Min(k, |a|)] == b[..Min(k, |a|)]
    requires k <= |a| && (k < |a| ==> a[k] < b[k])
    ensures TextLess(a, b)
    decreases k
  {
    if k > 0 {
      assert a[..k][0] == a[0] && b[..k][0] == b[0];
      assert a[1..][..k - 1] == a[..k][1..] && b[1..][..k - 1] == b[..k][1..];
      FirstDifference(a[1..], b[1..], k - 1);
    }
  }

  /** Neighbours in order are all in order. */
  lemma {:induction false} IncreasingByStep(keys: seq<string>, i: nat, j: nat)
    requires forall k :: 0 < k < |keys| ==> TextLess(keys[k - 1], keys[k])
    requires i < j < |keys|
    ensures TextLess(keys[i], keys[j])
    decreases j
  {
    hide TextLess;
    if i < j - 1 {
      TextOrder();
      IncreasingByStep(keys, i, j - 1);
    }
  }
}
