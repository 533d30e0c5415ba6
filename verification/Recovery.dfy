/**
  Authenticated recovery of decimal text. Storage keeps numbers at a fixed scale, but fingerprints
  cover the text; a stored fingerprint identifies which equal text it was computed from.
  `hash` stands for SHA-256 applied to all text absorbed so far.
 */
module Recovery {
  import opened Prelude
  import opened Orders
  import opened Canonical
  import opened Decimals
  import opened Texts
  import opened Representations
  import opened Splitting

  type Hash = string -> string

  ghost predicate Injective(hash: Hash) {
    forall a, b :: hash(a) == hash(b) ==> a == b
  }

  const VALUE := "value"
  const ORIGINAL := "originalValue"
  const TOTAL := "total"

  function AsJson(text: Option<string>): Json {
    match text
    case None => Null
    case Some(t) => Str(t)
  }

  // ---- Normal forms of objects whose numbers are replaced ----

  lemma SubstituteCons(e: Entry, s: seq<Entry>, changes: map<string, Json>)
    ensures Substitute([e] + s, changes) == [Changed(e, changes)] + Substitute(s, changes)
  {
    assert ([e] + s)[1..] == s;
  }

  lemma {:induction false} InsertSubstitute(e: Entry, s: seq<Entry>, changes: map<string, Json>)
    ensures Insert(EntryLess, Changed(e, changes), Substitute(s, changes))
            == Substitute(Insert(EntryLess, e, s), changes)
  {
    hide TextLess, Changed;
    if s == [] {
      SubstituteCons(e, [], changes);
      assert [e] + [] == [e];
    } else {
      assert EntryLess(Changed(e, changes), Changed(s[0], changes))
          == EntryLess(e, s[0]) by { SameKeys(e, s[0], changes); }
      assert s == [s[0]] + s[1..];
      SubstituteCons(s[0], s[1..], changes);
      assert Substitute(s, changes)[1..] == Substitute(s[1..], changes);
      if EntryLess(e, s[0]) {
        SubstituteCons(e, s, changes);
      } else {
        InsertSubstitute(e, s[1..], changes);
        SubstituteCons(s[0], Insert(EntryLess, e, s[1..]), changes);
      }
    }
  }

  lemma SameKeys(d: Entry, e: Entry, changes: map<string, Json>)
    ensures EntryLess(Changed(d, changes), Changed(e, changes)) == EntryLess(d, e)
  {
  }

  lemma {:induction false} SortSubstitute(s: seq<Entry>, changes: map<string, Json>)
    ensures Sort(EntryLess, Substitute(s, changes)) == Substitute(Sort(EntryLess, s), changes)
  {
    if s != [] {
      assert Substitute(s, changes)[1..] == Substitute(s[1..], changes);
      SortSubstitute(s[1..], changes);
      InsertSubstitute(s[0], Sort(EntryLess, s[1..]), changes);
    }
  }

  /** Replacement values that normalize to themselves: null and bounded text. */
  ghost predicate Plain(changes: map<string, Json>) {
    forall k :: k in changes ==> changes[k].Null? || (changes[k].Str? && BoundedText(changes[k].s, 4096))
  }

  lemma {:induction false} NormalEntriesSubstitute(o: Json, p: Json, entries: seq<Entry>, changes: map<string,
      Json>, depth: nat)
    requires Plain(changes) && depth <= 8
    requires forall i :: 0 <= i < |entries| ==> entries[i] < o
    requires forall i :: 0 <= i < |entries| ==> Changed(entries[i], changes) < p
    requires NormalEntries(o, entries, depth).Ok?
    ensures NormalEntries(p, Substitute(entries, changes), depth)
            == Ok(Substitute(NormalEntries(o, entries, depth).value, changes))
    decreases |entries|
  {
    if entries != [] {
      NormalEntriesSubstitute(o, p, entries[1..], changes, depth);
      assert Substitute(entries, changes)[1..] == Substitute(entries[1..], changes);
      var n := NormalEntries(o, entries, depth).value;
      assert n[1..] == NormalEntries(o, entries[1..], depth).value;
    }
  }

  function Normalized(content: seq<Entry>): seq<Entry>
    requires NormalForm(Obj(content), 0).Ok?
  {
    NormalForm(Obj(content), 0).value.entries
  }

  /** Replacing plain values commutes with normalization. */
  lemma NormalSubstitute(content: seq<Entry>, changes: map<string, Json>)
    requires Plain(changes) && NormalForm(Obj(content), 0).Ok?
    ensures NormalForm(Obj(Substitute(content, changes)), 0) == Ok(Obj(Substitute(Normalized(content), changes)))
  {
    hide Sort, EntryLess, BoundedText, Substitute;
    var o, p := Obj(content), Obj(Substitute(content, changes));
    var sorted := Sort(EntryLess, content);
    SortSubstitute(content, changes);
    SortKeeps(content);
    SortKeeps(p.entries);
    assert forall i :: 0 <= i < |sorted| ==> sorted[i] in content;
    assert forall i :: 0 <= i < |sorted| ==> Substitute(sorted, changes)[i] in p.entries;
    NormalEntriesSubstitute(o, p, sorted, changes, 1);
  }

  lemma {:induction false} NormalAtLowerDepth(v: Json, depth: nat)
    requires NormalForm(v, depth + 1).Ok?
    ensures NormalForm(v, depth) == NormalForm(v, depth + 1)
    decreases v, 1, 0
  {
    match v {
      case Arr(items) => ItemsAtLowerDepth(v, items, depth + 1);
      case Obj(entries) =>
        var sorted := Sort(EntryLess, entries);
        SortKeeps(entries);
        assert forall i :: 0 <= i < |sorted| ==> sorted[i] in entries;
        EntriesAtLowerDepth(v, sorted, depth + 1);
      case _ =>
    }
  }

  lemma {:induction false} ItemsAtLowerDepth(owner: Json, items: seq<Json>, depth: nat)
    requires forall i :: 0 <= i < |items| ==> items[i] < owner
    requires NormalItems(owner, items, depth + 1).Ok?
    ensures NormalItems(owner, items, depth) == NormalItems(owner, items, depth + 1)
    decreases owner, 0, |items|
  {
    if items != [] {
      NormalAtLowerDepth(items[0], depth);
      ItemsAtLowerDepth(owner, items[1..], depth);
    }
  }

  lemma {:induction false} EntriesAtLowerDepth(owner: Json, entries: seq<Entry>, depth: nat)
    requires forall i :: 0 <= i < |entries| ==> entries[i] < owner
    requires NormalEntries(owner, entries, depth + 1).Ok?
    ensures NormalEntries(owner, entries, depth) == NormalEntries(owner, entries, depth + 1)
    decreases owner, 0, |entries|
  {
    if entries != [] {
      NormalAtLowerDepth(entries[0].value, depth);
      EntriesAtLowerDepth(owner, entries[1..], depth);
    }
  }

  // ---- The search ----

  function Pair(value: Option<string>, original: Option<string>): map<string, Json> {
    map[VALUE := AsJson(value), ORIGINAL := AsJson(original)]
  }

  /** The whole-object digest with both texts in place. */
  function PairDigest(entries: seq<Entry>, original: Option<string>, value: Option<string>, hash: Hash): string {
    hash(Print(Obj(Substitute(entries, Pair(value, original)))))
  }

  function FindValue(entries: seq<Entry>, original: Option<string>, values: seq<Option<string>>, expected: string,
      hash: Hash): Option<Option<string>> {
    if values == [] then None
    else if PairDigest(entries, original, values[0], hash) == expected then Some(values[0])
    else FindValue(entries, original, values[1..], expected, hash)
  }

  /** The first pair, originals outermost, whose complete digest is the expected one. */
  function FindPair(entries: seq<Entry>, originals: seq<Option<string>>, values: seq<Option<string>>,
      expected: string, hash: Hash): Option<(Option<string>, Option<string>)> {
    if originals == [] then None
    else
      match FindValue(entries, originals[0], values, expected, hash)
      case Some(v) => Some((originals[0], v))
      case None => FindPair(entries, originals[1..], values, expected, hash)
  }

  lemma {:induction false} FindValueLaw(entries: seq<Entry>, original: Option<string>, values: seq<Option<string>>,
      expected: string, hash: Hash)
    ensures var r := FindValue(entries, original, values, expected, hash);
            && (r.Some? ==> r.value in values && PairDigest(entries, original, r.value, hash) == expected)
            && (r.None? ==> forall v :: v in values ==> PairDigest(entries, original, v, hash) != expected)
  {
    if values != [] {
      FindValueLaw(entries, original, values[1..], expected, hash);
    }
  }

  lemma {:induction false} FindPairLaw(entries: seq<Entry>, originals: seq<Option<string>>,
      values: seq<Option<string>>, expected: string, hash: Hash)
    ensures var r := FindPair(entries, originals, values, expected, hash);
            && (r.Some? ==> r.value.0 in originals && r.value.1 in values
                            && PairDigest(entries, r.value.0, r.value.1, hash) == expected)
            && (r.None? ==> forall o, v :: o in originals && v in values ==>
                PairDigest(entries, o, v, hash) != expected)
  {
    if originals != [] {
      FindValueLaw(entries, originals[0], values, expected, hash);
      FindPairLaw(entries, originals[1..], values, expected, hash);
    }
  }

  /** The decimal a candidate text denotes; null denotes none. */
  function Number(text: Option<string>): Option<Decimal> {
    match text
    case None => None
    case Some(t) => ParseDecimal(t)
  }

  function Lookup(entries: seq<Entry>, key: string): Json {
    if entries == [] then Null else if entries[0].key == key then entries[0].value else Lookup(entries[1..], key)
  }

  /** A content field holding fixed-point text or null, read as a number. */
  function FieldNumber(entries: seq<Entry>, key: string): Result<Option<Decimal>> {
    match Lookup(entries, key)
    case Null => Ok(None)
    case Str(t) => if ParseDecimal(t).Some? then Ok(ParseDecimal(t)) else Err(InvalidUsage)
    case _ => Err(InvalidUsage)
  }

  function RestoreEvent(content: seq<Entry>, expected: string, hash: Hash): Result<(Option<Decimal>, Option<Decimal>)>
    requires NormalForm(Obj(content), 0).Ok?
  {
    var storedValue :- FieldNumber(content, VALUE);
    var values :- Candidates(storedValue, true);
    var storedOriginal :- FieldNumber(content, ORIGINAL);
    var originals :- Candidates(storedOriginal, false);
    match FindPair(Normalized(content), originals, values, expected, hash)
    case Some(p) => Ok((Number(p.1), Number(p.0)))
    case None => Err(InvalidUsageResult)
  }

  /** A content mapping of an event: distinct keys, among them both numbers. */
  ghost predicate EventContent(content: seq<Entry>) {
    && Unique(Keys(content))
    && VALUE in Keys(content) && ORIGINAL in Keys(content)
    && NormalForm(Obj(content), 0).Ok?
  }

  function Encoded(text: Option<string>): string {
    match text
    case None => "null"
    case Some(t) => "\"" + t + "\""
  }

  /** Text that needs no JSON escape. */
  ghost predicate Unescaped(text: Option<string>) {
    text.Some? ==> forall i :: 0 <= i < |text.value| ==> Escaped(text.value[i]) == [text.value[i]]
  }

  lemma EncodedIsPrinted(text: Option<string>)
    requires Unescaped(text)
    ensures Print(AsJson(text)) == Encoded(text)
  {
    if text.Some? {
      UnescapedText(text.value);
      assert "\"" + (text.value + "\"") == "\"" + text.value + "\"";
    }
  }

  lemma {:induction false} UnescapedText(t: string)
    requires Unescaped(Some(t))
    ensures TextTo(t, "") == t + "\""
  {
    if t != [] {
      assert forall i :: 0 <= i < |t[1..]| ==> t[1..][i] == t[i + 1];
      UnescapedText(t[1..]);
      assert [t[0]] + (t[1..] + "\"") == t + "\"";
    }
  }

  lemma FixedTextUnescaped(neg: bool, coef: nat, scale: nat)
    ensures Unescaped(Some(FixedText(neg, coef, scale)))
  {
    var digits := Padded(coef, scale + 1);
    assert forall i :: 0 <= i < |digits| ==> Escaped(digits[i]) == [digits[i]];
  }

  lemma TextUnescaped(v: Decimal, k: nat)
    ensures Unescaped(Some(TextWith(v, k)))
  {
    hide FixedText, Unescaped;
    var (c, s) := Reduced(ShownCoef(v), ShownScale(v));
    FixedTextUnescaped(v.neg, c * Digits.Pow10(k), s + k);
  }

  lemma CandidatesUnescaped(value: Option<Decimal>, meterValue: bool)
    requires Candidates(value, meterValue).Ok?
    ensures forall t :: t in Candidates(value, meterValue).value ==> Unescaped(t)
  {
    hide TextWith, Storable, InDomain;
    if value.Some? {
      var v := StorageResult(value.value).value;
      if v.coef > 0 {
        forall k: nat ensures Unescaped(Some(TextWith(v, k))) {
          TextUnescaped(v, k);
        }
      }
    }
  }

  const HOLES: map<string, string> := map[ORIGINAL := "", VALUE := ""]

  /** What normalization does to an object's entries, by position. */
  lemma NormalizedEntries(content: seq<Entry>)
    requires Unique(Keys(content)) && NormalForm(Obj(content), 0).Ok?
    ensures var es, sorted := Normalized(content), Sort(EntryLess, content);
            && |es| == |sorted| && Keys(es) == Keys(sorted)
            && Unique(Keys(es)) && Sorted(TextLess, Keys(es))
            && (forall k :: k in Keys(content) ==> k in Keys(es))
            && forall i :: 0 <= i < |sorted| ==> CanonicalText(sorted[i].value) == Ok(Print(es[i].value))
  {
    hide Print, Sort, TextLess, Unique, Sorted;
    var es, sorted := Normalized(content), Sort(EntryLess, content);
    SortedKeys(content);
    NormalizedLength(content);
    forall i | 0 <= i < |sorted|
      ensures es[i].key == sorted[i].key && CanonicalText(sorted[i].value) == Ok(Print(es[i].value))
    {
      NormalizedAt(content, i);
    }
    assert Keys(es) == Keys(sorted);
    forall k | k in Keys(content) ensures k in Keys(es) {
      SameElements(Keys(sorted), Keys(content), k);
    }
  }

  lemma NormalizedLength(content: seq<Entry>)
    requires NormalForm(Obj(content), 0).Ok?
    ensures |Normalized(content)| == |Sort(EntryLess, content)|
  {
  }

  lemma NormalizedAt(content: seq<Entry>, i: nat)
    requires NormalForm(Obj(content), 0).Ok? && i < |Sort(EntryLess, content)|
    ensures i < |Normalized(content)|
    ensures Normalized(content)[i].key == Sort(EntryLess, content)[i].key
    ensures CanonicalText(Sort(EntryLess, content)[i].value) == Ok(Print(Normalized(content)[i].value))
  {
    hide Print, Sort;
    var sorted := Sort(EntryLess, content);
    SortKeeps(content);
    assert forall j :: 0 <= j < |sorted| ==> sorted[j] in content;
    NormalEntriesAt(Obj(content), sorted, 1, i);
    NormalAtLowerDepth(sorted[i].value, 0);
  }

  /** The two holes, in key order. */
  lemma HolePositions(content: seq<Entry>) returns (a: nat, b: nat)
    requires EventContent(content)
    ensures var es := Normalized(content);
            a < b < |es| && es[a].key == ORIGINAL && es[b].key == VALUE && Unique(Keys(es))
  {
    NormalizedEntries(content);
    var es := Normalized(content);
    assert ORIGINAL in Keys(es) && VALUE in Keys(es);
    a :| 0 <= a < |es| && Keys(es)[a] == ORIGINAL;
    b :| 0 <= b < |es| && Keys(es)[b] == VALUE;
    assert TextLess(ORIGINAL, VALUE);
    assert a != b;
  }

  /** The text fed to the hash piece by piece is the text of the whole candidate object. */
  lemma StreamedDigest(content: seq<Entry>, original: Option<string>, value: Option<string>, hash: Hash)
    requires EventContent(content) && Unescaped(original) && Unescaped(value)
    ensures var parts := Parts(Normalized(content), HOLES);
            var first := IndexFrom(parts, 0);
            && first < |parts|
            && var second := IndexFrom(parts, first + 1);
            && second < |parts|
            && hash(((Join(parts[..first]) + (Encoded(original) + Join(parts[first + 1..second]))))
                    + (Encoded(value) + Join(parts[second + 1..])))
               == PairDigest(Normalized(content), original, value, hash)
  {
    hide Print, Parts, Join, Encoded, Substitute, NormalForm, Keys, Unique, AsJson, IndexFrom;
    var es := Normalized(content);
    var a, b := HolePositions(content);
    EncodedIsPrinted(original);
    EncodedIsPrinted(value);
    HolesAt(es, a, b, HOLES);
    SplitTextIsWhole(es, a, b, HOLES, Pair(value, original));
    var parts := Parts(es, HOLES);
    var l, m, r := Join(parts[..2 * a + 2]), Join(parts[2 * a + 3..2 * b + 2]), Join(parts[2 * b + 3..]);
    var o, v := Encoded(original), Encoded(value);
    assert (l + (o + m)) + (v + r) == l + o + m + v + r;
  }

  function SortedContent(content: seq<Entry>): seq<Entry> {
    Sort(EntryLess, content)
  }

  /** One turn of the encoding loop. */
  lemma FragmentAt(content: seq<Entry>, i: nat)
    requires EventContent(content) && i < |SortedContent(content)|
    ensures |Normalized(content)| == |SortedContent(content)|
    ensures CanonicalText(SortedContent(content)[i].value).Ok?
    ensures var es, e := Normalized(content), SortedContent(content)[i];
            Pieces(es[..i + 1], true, HOLES)
            == Pieces(es[..i], true, HOLES)
               + [KeyPart(e.key, i == 0), if e.key == ORIGINAL || e.key == VALUE then ""
                                          else CanonicalText(e.value).value]
  {
    hide Print, KeyPart, Pieces, Normalized, CanonicalText, Unique, Sort;
    var es := Normalized(content);
    NormalizedLength(content);
    NormalizedAt(content, i);
    assert es[..i + 1] == es[..i] + [es[i]];
    PiecesGrow(es[..i], true, HOLES, es[i]);
  }

  /** Encode every fixed field once, in key order, leaving the two numbers empty. */
  method Fragments(content: seq<Entry>) returns (parts: seq<string>)
    requires EventContent(content)
    ensures parts == Parts(Normalized(content), HOLES)
  {
    hide Pieces, KeyPart, CanonicalText, NormalForm, Normalized, SortedContent, Keys, Unique;
    var sorted := SortedContent(content);
    ghost var es := Normalized(content);
    FragmentCount(content);
    parts := ["{"];
    for i := 0 to |sorted|
      invariant parts == ["{"] + Pieces(es[..i], true, HOLES)
    {
      FragmentAt(content, i);
      parts := parts + [KeyPart(sorted[i].key, i == 0)];
      if sorted[i].key == ORIGINAL || sorted[i].key == VALUE {
        parts := parts + [""];
      } else {
        parts := parts + [CanonicalText(sorted[i].value).value];
      }
    }
    assert es[..|sorted|] == es;
    parts := parts + ["}"];
  }

  lemma FragmentCount(content: seq<Entry>)
    requires EventContent(content)
    ensures |Normalized(content)| == |SortedContent(content)|
    ensures Pieces(Normalized(content)[..0], true, HOLES) == []
  {
    NormalizedLength(content);
  }

  /** Search with the fixed fragments hashed once: prefix states are copied, never recomputed. */
  method RestoreEventDecimals(content: seq<Entry>, expected: string, hash: Hash)
    returns (r: Result<(Option<Decimal>, Option<Decimal>)>)
    requires EventContent(content)
    ensures r == RestoreEvent(content, expected, hash)
  {
    hide Parts, IndexFrom, FieldNumber, Candidates, PairDigest, Join, Encoded, Normalized, Number, NormalForm, Keys,
        Unique;
    ghost var es := Normalized(content);
    var parts := Fragments(content);
    StreamedDigest(content, None, None, hash);
    var first := IndexFrom(parts, 0);
    var second := IndexFrom(parts, first + 1);
    var prefix := Join(parts[..first]);
    var middle := Join(parts[first + 1..second]);
    var suffix := Join(parts[second + 1..]);
    var storedValue :- FieldNumber(content, VALUE);
    var values :- Enumerate(storedValue, true);
    var storedOriginal :- FieldNumber(content, ORIGINAL);
    var originals :- Enumerate(storedOriginal, false);
    CandidatesUnescaped(storedValue, true);
    CandidatesUnescaped(storedOriginal, false);
    assert originals[0..] == originals && values[0..] == values;
    for i := 0 to |originals|
      invariant FindPair(es, originals, values, expected, hash) == FindPair(es, originals[i..], values, expected, hash)
    {
      var partial := prefix + (Encoded(originals[i]) + middle);
      for j := 0 to |values|
        invariant FindValue(es, originals[i], values, expected, hash)
            == FindValue(es, originals[i], values[j..], expected, hash)
      {
        var absorbed := partial + (Encoded(values[j]) + suffix);
        assert originals[i] in originals && values[j] in values;
        StreamedDigest(content, originals[i], values[j], hash);
        if hash(absorbed) == expected {
          return Ok((Number(values[j]), Number(originals[i])));
        }
        assert values[j..][1..] == values[j + 1..];
      }
      assert originals[i..][1..] == originals[i + 1..];
    }
    return Err(InvalidUsageResult);
  }
}
