/**
  The canonical JSON encoder behind every Usage fingerprint: RFC 8259 sections 4 (objects),
  5 (arrays), 6 (numbers, integers only) and 7 (strings), with sorted keys and no white space.
  Text is a sequence of code points; its UTF-8 form is not part of this model.
 */
module Canonical {
  import opened Prelude
  import opened Digits
  import opened Orders

  /** A float-free JSON value; an object lists its entries in insertion order. */
  datatype Json =
    | Null
    | Bool(b: bool)
    | Int(n: int)
    | Str(s: string)
    | Arr(items: seq<Json>)
    | Obj(entries: seq<Entry>)

  datatype Entry = Entry(key: string, value: Json)

  // ---- Acceptance and normalization ----

  function Utf8Length(s: string): nat {
    if s == [] then 0
    else
      var c := s[0] as int;
      (if c < 0x80 then 1 else if c < 0x800 then 2 else if c < 0x1_0000 then 3 else 4) + Utf8Length(s[1..])
  }

  predicate BoundedText(s: string, maximum: nat) {
    && s != ""
    && Utf8Length(s) <= maximum
    && forall i :: 0 <= i < |s| ==> 32 <= s[i] as int != 127
  }

  predicate EntryLess(a: Entry, b: Entry) {
    TextLess(a.key, b.key)
  }

  /** The value `json_value` rebuilds: entries sorted by key, every bound checked. */
  function NormalForm(v: Json, depth: nat): Result<Json>
    decreases v, 1, 0
  {
    if depth > 8 then Err(InvalidUsage)
    else
      match v
      case Null => Ok(v)
      case Bool(_) => Ok(v)
      case Int(n) => if -0x8000_0000_0000_0000 <= n < 0x8000_0000_0000_0000 then Ok(v) else Err(InvalidUsage)
      case Str(s) => if BoundedText(s, 4096) then Ok(v) else Err(InvalidUsage)
      case Arr(items) =>
        if |items| > 256 then Err(InvalidUsage)
        else
          var normal :- NormalItems(v, items, depth + 1);
          Ok(Arr(normal))
      case Obj(entries) =>
        if |entries| > 64 then Err(InvalidUsage)
        else
          var sorted := Sort(EntryLess, entries);
          SortKeeps(entries);
          assert forall i :: 0 <= i < |sorted| ==> sorted[i] in entries;
          var normal :- NormalEntries(v, sorted, depth + 1);
          Ok(Obj(normal))
  }

  function NormalItems(owner: Json, items: seq<Json>, depth: nat): (r: Result<seq<Json>>)
    requires forall i :: 0 <= i < |items| ==> items[i] < owner
    ensures r.Ok? ==> |r.value| == |items|
    decreases owner, 0, |items|
  {
    if items == [] then Ok([])
    else
      var first :- NormalForm(items[0], depth);
      var rest :- NormalItems(owner, items[1..], depth);
      Ok([first] + rest)
  }

  function NormalEntries(owner: Json, entries: seq<Entry>, depth: nat): (r: Result<seq<Entry>>)
    requires forall i :: 0 <= i < |entries| ==> entries[i] < owner
    ensures r.Ok? ==> |r.value| == |entries|
    decreases owner, 0, |entries|
  {
    if entries == [] then Ok([])
    else if !BoundedText(entries[0].key, 128) then Err(InvalidUsage)
    else
      var first :- NormalForm(entries[0].value, depth);
      var rest :- NormalEntries(owner, entries[1..], depth);
      Ok([Entry(entries[0].key, first)] + rest)
  }

  lemma SortKeeps(entries: seq<Entry>)
    ensures forall e :: e in Sort(EntryLess, entries) <==> e in entries
  {
    forall e ensures e in Sort(EntryLess, entries) <==> e in entries {
      SameElements(Sort(EntryLess, entries), entries, e);
    }
  }

  function TextItems(items: seq<string>): (r: seq<Json>)
    ensures |r| == |items| && forall i :: 0 <= i < |r| ==> r[i] == Str(items[i])
  {
    seq(|items|, i requires 0 <= i < |items| => Str(items[i]))
  }

  lemma {:induction false} PlainItems(owner: Json, items: seq<string>, depth: nat)
    requires depth <= 8 && forall i :: 0 <= i < |items| ==> BoundedText(items[i], 4096)
    requires forall i :: 0 <= i < |items| ==> TextItems(items)[i] < owner
    ensures NormalItems(owner, TextItems(items), depth) == Ok(TextItems(items))
    decreases |items|
  {
    hide BoundedText;
    var all := TextItems(items);
    if items != [] {
      assert all[1..] == TextItems(items[1..]);
      PlainItems(owner, items[1..], depth);
      assert NormalForm(all[0], depth) == Ok(all[0]);
      assert all == [all[0]] + all[1..];
    }
  }

  /** An array of encodable texts is refused exactly above 256 items, and otherwise is its own normal form. */
  lemma TextArrayExactly(items: seq<string>, depth: nat)
    requires depth <= 7 && forall i :: 0 <= i < |items| ==> BoundedText(items[i], 4096)
    ensures NormalForm(Arr(TextItems(items)), depth)
            == if |items| > 256 then Err(InvalidUsage) else Ok(Arr(TextItems(items)))
  {
    hide BoundedText;
    PlainItems(Arr(TextItems(items)), items, depth + 1);
  }

  // ---- Printing ----

  function Escaped(c: char): string {
    if c == '"' || c == '\\' then ['\\', c] else [c]
  }

  /** The body and closing quote of a string literal, followed by `rest`. */
  function TextTo(s: string, rest: string): string {
    if s == [] then "\"" + rest else Escaped(s[0]) + TextTo(s[1..], rest)
  }

  function Quoted(s: string, rest: string): string {
    "\"" + TextTo(s, rest)
  }

  /** The canonical text of `v`, followed by `rest`. */
  function PrintTo(v: Json, rest: string): string
    decreases v, 0
  {
    match v
    case Null => "null" + rest
    case Bool(b) => (if b then "true" else "false") + rest
    case Int(n) => IntText(n) + rest
    case Str(s) => Quoted(s, rest)
    case Arr(items) => "[" + (if items == [] then "]" + rest else PrintTo(items[0], ItemsTo(items[1..], "]" + rest)))
    case Obj(entries) =>
      "{" + (if entries == [] then "}" + rest else EntryTo(entries[0], EntriesTo(entries[1..], "}" + rest)))
  }

  function EntryTo(e: Entry, rest: string): string
    decreases e
  {
    Quoted(e.key, ":" + PrintTo(e.value, rest))
  }

  function ItemsTo(items: seq<Json>, rest: string): string {
    if items == [] then rest else "," + PrintTo(items[0], ItemsTo(items[1..], rest))
  }

  function EntriesTo(entries: seq<Entry>, rest: string): string {
    if entries == [] then rest else "," + EntryTo(entries[0], EntriesTo(entries[1..], rest))
  }

  function Print(v: Json): string {
    PrintTo(v, "")
  }

  function CanonicalText(v: Json): Result<string> {
    var normal :- NormalForm(v, 0);
    Ok(Print(normal))
  }

  // ---- The printer is unambiguous ----

  predicate NoDigitAhead(s: string) {
    s == "" || !IsDigit(s[0])
  }

  lemma {:induction false} TextUnambiguous(a: string, b: string, r: string, s: string)
    requires TextTo(a, r) == TextTo(b, s)
    ensures a == b && r == s
  {
    if a == [] || b == [] {
      assert TextTo(a, r)[0] == TextTo(b, s)[0];
      assert TextTo(a, r)[1..] == TextTo(b, s)[1..];
    } else {
      var n := |Escaped(a[0])|;
      assert TextTo(a, r)[0] == TextTo(b, s)[0] && TextTo(a, r)[n - 1] == TextTo(b, s)[n - 1];
      assert TextTo(a, r)[n..] == TextTo(a[1..], r);
      assert TextTo(b, s)[n..] == TextTo(b[1..], s);
      TextUnambiguous(a[1..], b[1..], r, s);
    }
  }

  lemma QuotedUnambiguous(a: string, b: string, r: string, s: string)
    requires Quoted(a, r) == Quoted(b, s)
    ensures a == b && r == s
  {
    assert Quoted(a, r)[1..] == TextTo(a, r) && Quoted(b, s)[1..] == TextTo(b, s);
    TextUnambiguous(a, b, r, s);
  }

  lemma DigitsReachAsFar(x: string, y: string, r: string, s: string)
    requires AllDigits(y) && NoDigitAhead(r) && x + r == y + s
    ensures |x| >= |y|
  {
    assert forall i :: 0 <= i < |y| ==> (y + s)[i] == y[i];
    assert r != "" ==> (x + r)[|x|] == r[0];
    assert |x + r| == |x| + |r|;
  }

  lemma DigitsEndAlike(x: string, y: string, r: string, s: string)
    requires AllDigits(x) && AllDigits(y) && NoDigitAhead(r) && NoDigitAhead(s)
    requires x + r == y + s
    ensures x == y && r == s
  {
    DigitsReachAsFar(x, y, r, s);
    DigitsReachAsFar(y, x, s, r);
    assert x == (x + r)[..|x|] && y == (y + s)[..|x|];
    assert r == (x + r)[|x|..] && s == (y + s)[|x|..];
  }

  lemma NumeralsEndAlike(a: nat, b: nat, r: string, s: string)
    requires Numeral(a) + r == Numeral(b) + s
    requires NoDigitAhead(r) && NoDigitAhead(s)
    ensures a == b && r == s
  {
    DigitsEndAlike(Numeral(a), Numeral(b), r, s);
    NumeralInjective(a, b);
  }

  lemma IntTextHead(n: int)
    ensures n < 0 <==> IntText(n)[0] == '-'
    ensures n < 0 ==> IntText(n)[1..] == Numeral(-n)
  {
    if n >= 0 {
      assert IsDigit(Numeral(n)[0]);
    }
  }

  lemma IntUnambiguous(a: int, b: int, r: string, s: string)
    requires IntText(a) + r == IntText(b) + s
    requires NoDigitAhead(r) && NoDigitAhead(s)
    ensures a == b && r == s
  {
    var p, q := IntText(a), IntText(b);
    IntTextHead(a);
    IntTextHead(b);
    assert p[0] == (p + r)[0] == (q + s)[0] == q[0];
    if a < 0 {
      assert (p + r)[1..] == p[1..] + r && (q + s)[1..] == q[1..] + s;
      NumeralsEndAlike(-a, -b, r, s);
    } else {
      NumeralsEndAlike(a, b, r, s);
    }
  }

  /** The first character of a value's text. */
  function Head(v: Json): char {
    match v
    case Null => 'n'
    case Bool(b) => if b then 't' else 'f'
    case Int(n) => IntText(n)[0]
    case Str(_) => '"'
    case Arr(_) => '['
    case Obj(_) => '{'
  }

  lemma PrintHead(v: Json, r: string)
    ensures PrintTo(v, r) != "" && PrintTo(v, r)[0] == Head(v)
  {
  }

  /** A printed value can be read off any text it starts: no value's text continues another's. */
  lemma {:induction false} PrintUnambiguous(a: Json, b: Json, r: string, s: string)
    requires PrintTo(a, r) == PrintTo(b, s)
    requires NoDigitAhead(r) && NoDigitAhead(s)
    ensures a == b && r == s
    decreases a, 2, 0
  {
    PrintHead(a, r);
    PrintHead(b, s);
    var x, y := PrintTo(a, r), PrintTo(b, s);
    match a {
      case Null => assert x[4..] == r && y[4..] == s;
      case Bool(t) => WordUnambiguous(if t then "true" else "false", r, s);
      case Int(n) => IntUnambiguous(n, b.n, r, s);
      case Str(t) => QuotedUnambiguous(t, b.s, r, s);
      case Arr(_) => ArrayUnambiguous(a, b, r, s);
      case Obj(_) => ObjectUnambiguous(a, b, r, s);
    }
  }

  lemma WordUnambiguous(w: string, r: string, s: string)
    requires w + r == w + s
    ensures r == s
  {
    assert (w + r)[|w|..] == r && (w + s)[|w|..] == s;
  }

  /** What follows the opening bracket. */
  function ArrayBody(xs: seq<Json>, rest: string): string {
    if xs == [] then "]" + rest else PrintTo(xs[0], ItemsTo(xs[1..], "]" + rest))
  }

  lemma ArrayOpens(a: Json, rest: string)
    requires a.Arr?
    ensures PrintTo(a, rest) == "[" + ArrayBody(a.items, rest)
  {
  }

  lemma ItemsStop(xs: seq<Json>, rest: string)
    ensures NoDigitAhead(ItemsTo(xs, "]" + rest))
  {
  }

  lemma OneArrayEmpty(xs: seq<Json>, ys: seq<Json>, r: string, s: string)
    requires ArrayBody(xs, r) == ArrayBody(ys, s)
    ensures xs == [] <==> ys == []
    ensures xs == [] ==> r == s
  {
    hide ItemsTo;
    if xs != [] { PrintHead(xs[0], ItemsTo(xs[1..], "]" + r)); }
    if ys != [] { PrintHead(ys[0], ItemsTo(ys[1..], "]" + s)); }
    if xs == [] && ys == [] { WordUnambiguous("]", r, s); }
  }

  lemma {:induction false} ArrayUnambiguous(a: Json, b: Json, r: string, s: string)
    requires a.Arr? && b.Arr?
    requires PrintTo(a, r) == PrintTo(b, s)
    requires NoDigitAhead(r) && NoDigitAhead(s)
    ensures a == b && r == s
    decreases a, 1, 0
  {
    hide PrintTo, ItemsTo, NoDigitAhead;
    var xs, ys := a.items, b.items;
    ArrayOpens(a, r);
    ArrayOpens(b, s);
    WordUnambiguous("[", ArrayBody(xs, r), ArrayBody(ys, s));
    OneArrayEmpty(xs, ys, r, s);
    if xs != [] {
      ItemsStop(xs[1..], r);
      ItemsStop(ys[1..], s);
      PrintUnambiguous(xs[0], ys[0], ItemsTo(xs[1..], "]" + r), ItemsTo(ys[1..], "]" + s));
      ItemsUnambiguous(a, xs[1..], ys[1..], "]" + r, "]" + s);
      WordUnambiguous("]", r, s);
      assert xs == [xs[0]] + xs[1..] && ys == [ys[0]] + ys[1..];
    }
  }

  lemma {:induction false} ObjectUnambiguous(a: Json, b: Json, r: string, s: string)
    requires a.Obj? && b.Obj?
    requires PrintTo(a, r) == PrintTo(b, s)
    requires NoDigitAhead(r) && NoDigitAhead(s)
    ensures a == b && r == s
    decreases a, 1, 0
  {
    var xs, ys := a.entries, b.entries;
    var u := if xs == [] then "" else EntriesTo(xs[1..], "}" + r);
    var v := if ys == [] then "" else EntriesTo(ys[1..], "}" + s);
    var x, y := if xs == [] then "}" + r else EntryTo(xs[0], u), if ys == [] then "}" + s else EntryTo(ys[0], v);
    WordUnambiguous("{", x, y);
    if xs == [] || ys == [] {
      WordUnambiguous("}", r, s);
    } else {
      EntryUnambiguous(a, xs[0], ys[0], u, v);
      EntriesUnambiguous(a, xs[1..], ys[1..], "}" + r, "}" + s);
      WordUnambiguous("}", r, s);
      assert xs == [xs[0]] + xs[1..] && ys == [ys[0]] + ys[1..];
    }
  }

  lemma {:induction false} ItemsUnambiguous(owner: Json, xs: seq<Json>, ys: seq<Json>, r: string, s: string)
    requires forall i :: 0 <= i < |xs| ==> xs[i] < owner
    requires ItemsTo(xs, r) == ItemsTo(ys, s)
    requires r != "" && s != "" && r[0] == s[0] == ']'
    ensures xs == ys && r == s
    decreases owner, 0, |xs|
  {
    assert ItemsTo(xs, r)[0] == ItemsTo(ys, s)[0];
    if xs != [] {
      var u, v := ItemsTo(xs[1..], r), ItemsTo(ys[1..], s);
      assert ItemsTo(xs, r)[1..] == PrintTo(xs[0], u) && ItemsTo(ys, s)[1..] == PrintTo(ys[0], v);
      PrintUnambiguous(xs[0], ys[0], u, v);
      ItemsUnambiguous(owner, xs[1..], ys[1..], r, s);
      assert xs == [xs[0]] + xs[1..] && ys == [ys[0]] + ys[1..];
    }
  }

  lemma {:induction false} EntryUnambiguous(owner: Json, d: Entry, e: Entry, r: string, s: string)
    requires d < owner
    requires EntryTo(d, r) == EntryTo(e, s) && NoDigitAhead(r) && NoDigitAhead(s)
    ensures d == e && r == s
    decreases owner, 0, 0
  {
    QuotedUnambiguous(d.key, e.key, ":" + PrintTo(d.value, r), ":" + PrintTo(e.value, s));
    assert (":" + PrintTo(d.value, r))[1..] == PrintTo(d.value, r);
    assert (":" + PrintTo(e.value, s))[1..] == PrintTo(e.value, s);
    PrintUnambiguous(d.value, e.value, r, s);
  }

  lemma {:induction false} EntriesUnambiguous(owner: Json, xs: seq<Entry>, ys: seq<Entry>, r: string, s: string)
    requires forall i :: 0 <= i < |xs| ==> xs[i] < owner
    requires EntriesTo(xs, r) == EntriesTo(ys, s)
    requires r != "" && s != "" && r[0] == s[0] == '}'
    ensures xs == ys && r == s
    decreases owner, 0, |xs|
  {
    assert EntriesTo(xs, r)[0] == EntriesTo(ys, s)[0];
    if xs != [] {
      var u, v := EntriesTo(xs[1..], r), EntriesTo(ys[1..], s);
      assert EntriesTo(xs, r)[1..] == EntryTo(xs[0], u) && EntriesTo(ys, s)[1..] == EntryTo(ys[0], v);
      EntryUnambiguous(owner, xs[0], ys[0], u, v);
      EntriesUnambiguous(owner, xs[1..], ys[1..], r, s);
      assert xs == [xs[0]] + xs[1..] && ys == [ys[0]] + ys[1..];
    }
  }

  lemma PrintInjective(a: Json, b: Json)
    requires Print(a) == Print(b)
    ensures a == b
  {
    PrintUnambiguous(a, b, "", "");
  }

  // ---- Equal texts are exactly equal values ----

  function Keys(entries: seq<Entry>): (r: seq<string>)
    ensures |r| == |entries|
    ensures forall i :: 0 <= i < |r| ==> r[i] == entries[i].key
  {
    seq(|entries|, i requires 0 <= i < |entries| => entries[i].key)
  }

  /** Every object is a dictionary: no key occurs twice. */
  ghost predicate Dictionaries(v: Json) {
    match v
    case Arr(items) => forall i :: 0 <= i < |items| ==> Dictionaries(items[i])
    case Obj(entries) => Unique(Keys(entries)) && forall i :: 0 <= i < |entries| ==> Dictionaries(entries[i].value)
    case _ => true
  }

  /** Python equality of values of the same type: the order of dictionary entries is immaterial. */
  ghost predicate Same(a: Json, b: Json) {
    match a
    case Arr(items) => b.Arr? && |items| == |b.items| && forall i :: 0 <= i < |items| ==> Same(items[i], b.items[i])
    case Obj(entries) =>
      && b.Obj? && |entries| == |b.entries|
      && forall i :: 0 <= i < |entries| ==>
           exists j :: 0 <= j < |b.entries| && b.entries[j].key == entries[i].key
               && Same(entries[i].value, b.entries[j].value)
    case _ => a == b
  }

  lemma {:induction false} DistinctCover(xs: seq<string>, ys: seq<string>)
    requires Unique(xs) && |xs| == |ys|
    requires forall x :: x in xs ==> x in ys
    ensures multiset(xs) == multiset(ys)
  {
    if xs != [] {
      assert xs[0] in ys;
      var j :| 0 <= j < |ys| && ys[j] == xs[0];
      var rest := ys[..j] + ys[j + 1..];
      forall x | x in xs[1..] ensures x in rest {
        assert x in xs && x in ys;
        var k :| 0 <= k < |ys| && ys[k] == x;
        assert x == if k < j then rest[k] else rest[k - 1];
      }
      DistinctCover(xs[1..], rest);
      assert xs == [xs[0]] + xs[1..] && ys == ys[..j] + [ys[j]] + ys[j + 1..];
    }
  }

  /** Sorting a dictionary's entries keeps them distinct and orders the keys. */
  lemma SortedKeys(entries: seq<Entry>)
    requires Unique(Keys(entries))
    ensures var s := Sort(EntryLess, entries);
            Unique(Keys(s)) && Sorted(TextLess, Keys(s)) && multiset(Keys(s)) == multiset(Keys(entries))
  {
    TextOrder();
    var s := Sort(EntryLess, entries);
    SortSorted(EntryLess, entries);
    SortKeeps(entries);
    forall k | k in Keys(entries) ensures k in Keys(s) {
      var i :| 0 <= i < |entries| && Keys(entries)[i] == k;
      assert entries[i] in s;
      var j :| 0 <= j < |s| && s[j] == entries[i];
      assert Keys(s)[j] == k;
    }
    DistinctCover(Keys(entries), Keys(s));
    DistinctByCount(Keys(entries), Keys(s));
  }

  lemma DistinctByCount(xs: seq<string>, ys: seq<string>)
    requires Unique(xs) && multiset(xs) == multiset(ys)
    ensures Unique(ys)
  {
    forall i, j | 0 <= i < j < |ys| ensures ys[i] != ys[j] {
      if ys[i] == ys[j] {
        assert ys == ys[..i] + [ys[i]] + ys[i + 1..j] + [ys[j]] + ys[j + 1..];
        assert multiset(xs)[ys[i]] >= 2;
        CountOnce(xs, ys[i]);
      }
    }
  }

  lemma {:induction false} CountOnce(xs: seq<string>, x: string)
    requires Unique(xs)
    ensures multiset(xs)[x] <= 1
  {
    if xs != [] {
      CountOnce(xs[1..], x);
      assert xs == [xs[0]] + xs[1..];
      if xs[0] == x {
        assert x !in xs[1..];
      }
    }
  }

  lemma {:induction false} NormalEntriesAt(owner: Json, entries: seq<Entry>, depth: nat, i: nat)
    requires forall k :: 0 <= k < |entries| ==> entries[k] < owner
    requires NormalEntries(owner, entries, depth).Ok? && i < |entries|
    ensures var n := NormalEntries(owner, entries, depth).value;
            n[i].key == entries[i].key && NormalForm(entries[i].value, depth) == Ok(n[i].value)
    decreases |entries|
  {
    if i > 0 {
      NormalEntriesAt(owner, entries[1..], depth, i - 1);
    }
  }

  lemma {:induction false} NormalItemsAt(owner: Json, items: seq<Json>, depth: nat, i: nat)
    requires forall k :: 0 <= k < |items| ==> items[k] < owner
    requires NormalItems(owner, items, depth).Ok? && i < |items|
    ensures NormalForm(items[i], depth) == Ok(NormalItems(owner, items, depth).value[i])
    decreases |items|
  {
    if i > 0 {
      NormalItemsAt(owner, items[1..], depth, i - 1);
    }
  }

  /** The entries of a normal object, located: position i holds the i-th key in order. */
  lemma NormalObject(v: Json, depth: nat)
    requires v.Obj? && Dictionaries(v) && NormalForm(v, depth).Ok?
    ensures var s := Sort(EntryLess, v.entries);
            var n := NormalForm(v, depth).value;
            && n.Obj? && |n.entries| == |s|
            && (forall i :: 0 <= i < |s| ==> s[i] in v.entries && n.entries[i].key == s[i].key)
            && (forall i :: 0 <= i < |s| ==> NormalForm(s[i].value, depth + 1) == Ok(n.entries[i].value))
            && forall e :: e in v.entries ==> e in s
  {
    var s := Sort(EntryLess, v.entries);
    SortKeeps(v.entries);
    assert forall i :: 0 <= i < |s| ==> s[i] in v.entries;
    forall i | 0 <= i < |s|
      ensures NormalForm(v, depth).value.entries[i].key == s[i].key
      ensures NormalForm(s[i].value, depth + 1) == Ok(NormalForm(v, depth).value.entries[i].value)
    {
      NormalEntriesAt(v, s, depth + 1, i);
    }
  }

  lemma {:induction false} NormalFormsAgree(a: Json, b: Json, depth: nat)
    requires Dictionaries(a) && Dictionaries(b)
    requires NormalForm(a, depth).Ok? && NormalForm(b, depth).Ok?
    ensures Same(a, b) <==> NormalForm(a, depth) == NormalForm(b, depth)
    decreases a, 1
  {
    match a {
      case Arr(items) =>
        if b.Arr? && |items| == |b.items| {
          var n, m := NormalForm(a, depth).value.items, NormalForm(b, depth).value.items;
          forall i | 0 <= i < |items| ensures Same(items[i], b.items[i]) <==> n[i] == m[i] {
            NormalItemsAt(a, items, depth + 1, i);
            NormalItemsAt(b, b.items, depth + 1, i);
            NormalFormsAgree(items[i], b.items[i], depth + 1);
          }
          assert n == m <==> forall i :: 0 <= i < |items| ==> n[i] == m[i];
          assert Same(a, b) <==> n == m;
        }
      case Obj(_) =>
        if b.Obj? {
          NormalObject(a, depth);
          NormalObject(b, depth);
          if Same(a, b) {
            SameObjects(a, b, depth);
          }
          if NormalForm(a, depth) == NormalForm(b, depth) {
            EqualObjects(a, b, depth);
          }
        }
      case _ =>
    }
  }

  /** Equal dictionaries have the same keys, so sorting lines their entries up. */
  lemma SameSortedKeys(a: Json, b: Json)
    requires a.Obj? && b.Obj? && Dictionaries(a) && Dictionaries(b) && Same(a, b)
    ensures Keys(Sort(EntryLess, a.entries)) == Keys(Sort(EntryLess, b.entries))
    ensures Unique(Keys(Sort(EntryLess, b.entries)))
  {
    SortedKeys(a.entries);
    SortedKeys(b.entries);
    forall k | k in Keys(a.entries) ensures k in Keys(b.entries) {
      var i :| 0 <= i < |a.entries| && Keys(a.entries)[i] == k;
      var j :| 0 <= j < |b.entries| && b.entries[j].key == a.entries[i].key;
      assert Keys(b.entries)[j] == k;
    }
    DistinctCover(Keys(a.entries), Keys(b.entries));
    TextOrder();
    SortedUnique(TextLess, Keys(Sort(EntryLess, a.entries)), Keys(Sort(EntryLess, b.entries)));
  }

  lemma {:induction false} SameObjects(a: Json, b: Json, depth: nat)
    requires a.Obj? && b.Obj? && Dictionaries(a) && Dictionaries(b) && Same(a, b)
    requires NormalForm(a, depth).Ok? && NormalForm(b, depth).Ok?
    ensures NormalForm(a, depth) == NormalForm(b, depth)
    decreases a, 0
  {
    var s, t := Sort(EntryLess, a.entries), Sort(EntryLess, b.entries);
    NormalObject(a, depth);
    NormalObject(b, depth);
    SameSortedKeys(a, b);
    assert |Keys(s)| == |Keys(t)|;
    var n, m := NormalForm(a, depth).value, NormalForm(b, depth).value;
    forall p | 0 <= p < |s| ensures n.entries[p] == m.entries[p] {
      var i, q := SameCounterpart(a, b, p);
      assert Keys(t)[q] == Keys(s)[p] == Keys(t)[p];
      assert q == p;
      NormalFormsAgree(a.entries[i].value, t[q].value, depth + 1);
    }
    assert n.entries == m.entries;
  }

  /** Where the p-th entry of a dictionary comes from, and where its equal in `b` is sorted to. */
  lemma SameCounterpart(a: Json, b: Json, p: nat) returns (i: nat, q: nat)
    requires a.Obj? && b.Obj? && Dictionaries(a) && Dictionaries(b) && Same(a, b)
    requires p < |Sort(EntryLess, a.entries)|
    ensures i < |a.entries| && a.entries[i] == Sort(EntryLess, a.entries)[p]
    ensures var t := Sort(EntryLess, b.entries);
            q < |t| && t[q].key == a.entries[i].key && Same(a.entries[i].value, t[q].value) && Dictionaries(t[q].value)
  {
    hide Sort, EntryLess;
    var s, t := Sort(EntryLess, a.entries), Sort(EntryLess, b.entries);
    SortKeeps(a.entries);
    SortKeeps(b.entries);
    assert s[p] in a.entries;
    i :| 0 <= i < |a.entries| && a.entries[i] == s[p];
    var j :| 0 <= j < |b.entries| && b.entries[j].key == a.entries[i].key
        && Same(a.entries[i].value, b.entries[j].value);
    assert b.entries[j] in t;
    q :| 0 <= q < |t| && t[q] == b.entries[j];
  }

  lemma {:induction false} EqualObjects(a: Json, b: Json, depth: nat)
    requires a.Obj? && b.Obj? && Dictionaries(a) && Dictionaries(b)
    requires NormalForm(a, depth).Ok? && NormalForm(a, depth) == NormalForm(b, depth)
    ensures Same(a, b)
    decreases a, 0
  {
    var s, t := Sort(EntryLess, a.entries), Sort(EntryLess, b.entries);
    NormalObject(a, depth);
    NormalObject(b, depth);
    forall i | 0 <= i < |a.entries|
      ensures exists j :: 0 <= j < |b.entries| && b.entries[j].key == a.entries[i].key
                          && Same(a.entries[i].value, b.entries[j].value)
    {
      assert a.entries[i] in s;
      var p :| 0 <= p < |s| && s[p] == a.entries[i];
      assert t[p] in b.entries;
      var j :| 0 <= j < |b.entries| && b.entries[j] == t[p];
      NormalFormsAgree(a.entries[i].value, b.entries[j].value, depth + 1);
    }
  }

  /**
    The fingerprint law: two accepted values have equal canonical texts exactly when they are equal,
    whatever order their dictionary entries were inserted in.
   */
  lemma CanonicalTextsAgree(a: Json, b: Json)
    requires Dictionaries(a) && Dictionaries(b)
    requires CanonicalText(a).Ok? && CanonicalText(b).Ok?
    ensures CanonicalText(a) == CanonicalText(b) <==> Same(a, b)
  {
    NormalFormsAgree(a, b, 0);
    if CanonicalText(a) == CanonicalText(b) {
      PrintInjective(NormalForm(a, 0).value, NormalForm(b, 0).value);
    }
  }

  // ---- The recursive walk that rebuilds the value ----

  /** Rebuild an accepted value entry by entry. */
  method JsonValue(v: Json, depth: nat) returns (r: Result<Json>)
    ensures r == NormalForm(v, depth)
    decreases v, 1
  {
    if depth > 8 {
      return Err(InvalidUsage);
    }
    match v {
      case Null => return Ok(v);
      case Bool(_) => return Ok(v);
      case Int(n) =>
        if !(-0x8000_0000_0000_0000 <= n < 0x8000_0000_0000_0000) {
          return Err(InvalidUsage);
        }
        return Ok(v);
      case Str(s) =>
        if !BoundedText(s, 4096) {
          return Err(InvalidUsage);
        }
        return Ok(v);
      case Obj(_) => r := JsonObject(v, depth);
      case Arr(_) => r := JsonArray(v, depth);
    }
  }

  method JsonObject(v: Json, depth: nat) returns (r: Result<Json>)
    requires v.Obj? && depth <= 8
    ensures r == NormalForm(v, depth)
    decreases v, 0
  {
    if |v.entries| > 64 {
      return Err(InvalidUsage);
    }
    var sorted := Sort(EntryLess, v.entries);
    SortKeeps(v.entries);
    assert forall i :: 0 <= i < |sorted| ==> sorted[i] in v.entries;
    var result: seq<Entry> := [];
    ghost var all := NormalEntries(v, sorted, depth + 1);
    assert sorted[0..] == sorted;
    PrependNothing(all);
    for i := 0 to |sorted|
      invariant all == Prepend(result, NormalEntries(v, sorted[i..], depth + 1))
    {
      if !BoundedText(sorted[i].key, 128) {
        return Err(InvalidUsage);
      }
      assert sorted[i] in v.entries;
      var item :- JsonValue(sorted[i].value, depth + 1);
      assert sorted[i..][1..] == sorted[i + 1..];
      PrependStep(result, Entry(sorted[i].key, item), NormalEntries(v, sorted[i + 1..], depth + 1));
      result := result + [Entry(sorted[i].key, item)];
    }
    PrependEnd(result);
    return Ok(Obj(result));
  }

  method JsonArray(v: Json, depth: nat) returns (r: Result<Json>)
    requires v.Arr? && depth <= 8
    ensures r == NormalForm(v, depth)
    decreases v, 0
  {
    if |v.items| > 256 {
      return Err(InvalidUsage);
    }
    var result: seq<Json> := [];
    ghost var all := NormalItems(v, v.items, depth + 1);
    assert v.items[0..] == v.items;
    PrependNothing(all);
    for i := 0 to |v.items|
      invariant all == Prepend(result, NormalItems(v, v.items[i..], depth + 1))
    {
      var item :- JsonValue(v.items[i], depth + 1);
      assert v.items[i..][1..] == v.items[i + 1..];
      PrependStep(result, item, NormalItems(v, v.items[i + 1..], depth + 1));
      result := result + [item];
    }
    PrependEnd(result);
    return Ok(Arr(result));
  }
}
