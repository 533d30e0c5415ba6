/**
  Hashing an object once around its holes: the fragments of a canonical object text before, between
  and after two omitted values, and the law that filling the holes gives the whole text.
 */
module Splitting {
  import Digits
  import opened Orders
  import opened Canonical

  // ---- A printed value followed by more text ----

  lemma TextToAppend(s: string, r: string)
    ensures TextTo(s, r) == TextTo(s, "") + r
  {
    if s == [] {
      assert "\"" + r == ("\"" + "") + r;
    } else {
      TextToAppend(s[1..], r);
      assert Escaped(s[0]) + (TextTo(s[1..], "") + r) == (Escaped(s[0]) + TextTo(s[1..], "")) + r;
    }
  }

  lemma QuotedAppend(s: string, r: string)
    ensures Quoted(s, r) == Quoted(s, "") + r
  {
    TextToAppend(s, r);
    assert "\"" + (TextTo(s, "") + r) == ("\"" + TextTo(s, "")) + r;
  }

  lemma {:induction false} PrintAppend(v: Json, r: string, s: string)
    ensures PrintTo(v, r + s) == PrintTo(v, r) + s
    decreases v, 1, 0
  {
    match v {
      case Null => assert "null" + (r + s) == ("null" + r) + s;
      case Bool(b) => var w := if b then "true" else "false"; assert w + (r + s) == (w + r) + s;
      case Int(n) => var w := Digits.IntText(n); assert w + (r + s) == (w + r) + s;
      case Str(t) =>
        QuotedAppend(t, r + s);
        QuotedAppend(t, r);
        assert Quoted(t, "") + (r + s) == (Quoted(t, "") + r) + s;
      case Arr(items) =>
        assert ("]" + r) + s == "]" + (r + s);
        if items != [] {
          ItemsAppend(v, items[1..], "]" + r, s);
          PrintAppend(items[0], ItemsTo(items[1..], "]" + r), s);
        }
      case Obj(entries) =>
        assert ("}" + r) + s == "}" + (r + s);
        if entries != [] {
          EntriesAppend(v, entries[1..], "}" + r, s);
          EntryAppend(v, entries[0], EntriesTo(entries[1..], "}" + r), s);
        }
    }
  }

  lemma {:induction false} ItemsAppend(owner: Json, items: seq<Json>, r: string, s: string)
    requires forall i :: 0 <= i < |items| ==> items[i] < owner
    ensures ItemsTo(items, r + s) == ItemsTo(items, r) + s
    decreases owner, 0, |items|
  {
    if items != [] {
      ItemsAppend(owner, items[1..], r, s);
      PrintAppend(items[0], ItemsTo(items[1..], r), s);
    }
  }

  lemma {:induction false} EntryAppend(owner: Json, e: Entry, r: string, s: string)
    requires e < owner
    ensures EntryTo(e, r + s) == EntryTo(e, r) + s
    decreases owner, 0, 0
  {
    PrintAppend(e.value, r, s);
    QuotedAppend(e.key, ":" + PrintTo(e.value, r + s));
    QuotedAppend(e.key, ":" + PrintTo(e.value, r));
    var q, p := Quoted(e.key, ""), PrintTo(e.value, r);
    assert q + (":" + (p + s)) == (q + (":" + p)) + s;
  }

  lemma {:induction false} EntriesAppend(owner: Json, entries: seq<Entry>, r: string, s: string)
    requires forall i :: 0 <= i < |entries| ==> entries[i] < owner
    ensures EntriesTo(entries, r + s) == EntriesTo(entries, r) + s
    decreases owner, 0, |entries|
  {
    if entries != [] {
      EntriesAppend(owner, entries[1..], r, s);
      EntryAppend(owner, entries[0], EntriesTo(entries[1..], r), s);
    }
  }

  lemma PrintThen(v: Json, r: string)
    ensures PrintTo(v, r) == Print(v) + r
  {
    PrintAppend(v, "", r);
    assert "" + r == r;
  }

  // ---- Fragments ----

  function Join(parts: seq<string>): string {
    if parts == [] then "" else parts[0] + Join(parts[1..])
  }

  lemma {:induction false} JoinAppend(xs: seq<string>, ys: seq<string>)
    ensures Join(xs + ys) == Join(xs) + Join(ys)
  {
    if xs == [] {
      assert xs + ys == ys;
      assert "" + Join(ys) == Join(ys);
    } else {
      assert (xs + ys)[0] == xs[0] && (xs + ys)[1..] == xs[1..] + ys;
      JoinAppend(xs[1..], ys);
      assert xs[0] + (Join(xs[1..]) + Join(ys)) == (xs[0] + Join(xs[1..])) + Join(ys);
    }
  }

  function KeyPart(key: string, first: bool): string {
    (if first then "" else ",") + Print(Str(key)) + ":"
  }

  /** The text of an entry's value, or the given filling where its key is a hole. */
  function ValuePart(e: Entry, fill: map<string, string>): string {
    if e.key in fill then fill[e.key] else Print(e.value)
  }

  /** The fragments of an object's entries: a key part and a value part each. */
  function Pieces(entries: seq<Entry>, first: bool, fill: map<string, string>): (r: seq<string>)
    ensures |r| == 2 * |entries|
  {
    if entries == [] then []
    else [KeyPart(entries[0].key, first), ValuePart(entries[0], fill)] + Pieces(entries[1..], false, fill)
  }

  function Parts(entries: seq<Entry>, fill: map<string, string>): seq<string> {
    ["{"] + Pieces(entries, true, fill) + ["}"]
  }

  lemma {:induction false} PieceAt(entries: seq<Entry>, first: bool, fill: map<string, string>, i: nat)
    requires i < |entries|
    ensures Pieces(entries, first, fill)[2 * i] == KeyPart(entries[i].key, first && i == 0)
    ensures Pieces(entries, first, fill)[2 * i + 1] == ValuePart(entries[i], fill)
    decreases i
  {
    if i > 0 {
      PieceAt(entries[1..], false, fill, i - 1);
    }
  }

  lemma PiecesGrow(entries: seq<Entry>, first: bool, fill: map<string, string>, e: Entry)
    ensures Pieces(entries + [e], first, fill)
            == Pieces(entries, first, fill) + [KeyPart(e.key, first && entries == []), ValuePart(e, fill)]
    decreases |entries|
  {
    if entries == [] {
      assert (entries + [e])[1..] == [];
    } else {
      assert (entries + [e])[1..] == entries[1..] + [e];
      PiecesGrow(entries[1..], false, fill, e);
    }
  }

  function Changed(e: Entry, changes: map<string, Json>): Entry {
    if e.key in changes then Entry(e.key, changes[e.key]) else e
  }

  /** The same object with some values replaced. */
  function Substitute(entries: seq<Entry>, changes: map<string, Json>): (r: seq<Entry>)
    ensures |r| == |entries|
    ensures forall i :: 0 <= i < |r| ==> r[i] == Changed(entries[i], changes)
  {
    if entries == [] then [] else [Changed(entries[0], changes)] + Substitute(entries[1..], changes)
  }

  /** The fillings print the replacements. */
  ghost predicate Prints(fill: map<string, string>, changes: map<string, Json>) {
    fill.Keys == changes.Keys && forall k :: k in fill ==> fill[k] == Print(changes[k])
  }

  lemma EntryThen(e: Entry, r: string)
    ensures EntryTo(e, r) == Print(Str(e.key)) + ":" + Print(e.value) + r
  {
    PrintThen(e.value, r);
    QuotedAppend(e.key, ":" + PrintTo(e.value, r));
    var q, p := Quoted(e.key, ""), Print(e.value);
    assert q + (":" + (p + r)) == q + ":" + p + r;
  }

  lemma JoinTwo(a: string, b: string, rest: seq<string>)
    ensures Join([a, b] + rest) == a + b + Join(rest)
  {
    var parts := [a, b] + rest;
    assert parts[1..][0] == b && parts[1..][1..] == rest;
    assert a + (b + Join(rest)) == a + b + Join(rest);
  }

  lemma OneEntry(k: string, v: string, rest: string, r: string)
    ensures ("," + k + ":" + v + rest) + r == "," + (k + ":" + v + (rest + r))
    ensures (k + ":" + v + rest) + r == k + ":" + v + (rest + r)
  {
  }

  lemma {:induction false} JoinedPieces(entries: seq<Entry>, fill: map<string, string>, changes: map<string, Json>,
      r: string)
    requires Prints(fill, changes)
    ensures Join(Pieces(entries, false, fill)) + r == EntriesTo(Substitute(entries, changes), r)
    decreases |entries|
  {
    hide Print, EntryTo;
    if entries == [] {
      assert "" + r == r;
    } else {
      var rest := Pieces(entries[1..], false, fill);
      JoinedPieces(entries[1..], fill, changes, r);
      var e := Changed(entries[0], changes);
      assert Substitute(entries, changes)[1..] == Substitute(entries[1..], changes);
      EntryThen(e, EntriesTo(Substitute(entries[1..], changes), r));
      JoinTwo(KeyPart(e.key, false), Print(e.value), rest);
      OneEntry(Print(Str(e.key)), Print(e.value), Join(rest), r);
      assert KeyPart(e.key, false) + Print(e.value) == "," + Print(Str(e.key)) + ":" + Print(e.value);
    }
  }

  /** Joining the filled fragments prints the object with the values replaced. */
  lemma FilledPartsPrint(entries: seq<Entry>, fill: map<string, string>, changes: map<string, Json>)
    requires Prints(fill, changes) && entries != []
    ensures Join(Parts(entries, fill)) == Print(Obj(Substitute(entries, changes)))
  {
    hide Print, EntryTo, Changed;
    var e := Changed(entries[0], changes);
    var rest := Pieces(entries[1..], false, fill);
    JoinedPieces(entries[1..], fill, changes, "}");
    assert Substitute(entries, changes)[1..] == Substitute(entries[1..], changes);
    EntryThen(e, EntriesTo(Substitute(entries[1..], changes), "}"));
    OneEntry(Print(Str(e.key)), Print(e.value), Join(rest), "}");
    FirstPieces(entries, fill, changes);
    JoinBraced(Pieces(entries, true, fill));
    PrintObject(Substitute(entries, changes));
    assert "}" + "" == "}";
  }

  lemma FirstPieces(entries: seq<Entry>, fill: map<string, string>, changes: map<string, Json>)
    requires Prints(fill, changes) && entries != []
    ensures var e := Changed(entries[0], changes);
            Join(Pieces(entries, true, fill))
            == Print(Str(e.key)) + ":" + Print(e.value) + Join(Pieces(entries[1..], false, fill))
  {
    hide Print;
    var e := Changed(entries[0], changes);
    JoinTwo(KeyPart(e.key, true), Print(e.value), Pieces(entries[1..], false, fill));
    assert KeyPart(e.key, true) == Print(Str(e.key)) + ":";
  }

  lemma JoinBraced(parts: seq<string>)
    ensures Join(["{"] + parts + ["}"]) == "{" + (Join(parts) + "}")
  {
    JoinAppend(["{"] + parts, ["}"]);
    JoinAppend(["{"], parts);
    assert Join(["}"]) == "}" + "" == "}";
    assert Join(["{"]) == "{" + "" == "{";
    assert ("{" + Join(parts)) + "}" == "{" + (Join(parts) + "}");
  }

  lemma PrintObject(entries: seq<Entry>)
    requires entries != []
    ensures Print(Obj(entries)) == "{" + EntryTo(entries[0], EntriesTo(entries[1..], "}" + ""))
  {
  }

  // ---- The two holes ----

  /** `parts.index("", from)`; the length when there is none. */
  function IndexFrom(parts: seq<string>, from: nat): (i: nat)
    requires from <= |parts|
    ensures from <= i <= |parts|
    ensures i < |parts| ==> parts[i] == ""
    ensures forall j :: from <= j < i ==> parts[j] != ""
    decreases |parts| - from
  {
    if from == |parts| || parts[from] == "" then from else IndexFrom(parts, from + 1)
  }

  lemma KeyPartIsText(key: string, first: bool)
    ensures KeyPart(key, first) != ""
  {
    assert |KeyPart(key, first)| >= |":"|;
  }

  /** The only empty fragments are the holes: entry i's value is fragment 2i + 2. */
  lemma PartAt(entries: seq<Entry>, fill: map<string, string>, i: nat)
    requires i < |entries|
    ensures Parts(entries, fill)[2 * i + 1] == KeyPart(entries[i].key, i == 0)
    ensures Parts(entries, fill)[2 * i + 2] == ValuePart(entries[i], fill)
  {
    hide KeyPart, ValuePart;
    PieceAt(entries, true, fill, i);
    assert Parts(entries, fill)[2 * i + 1] == Pieces(entries, true, fill)[2 * i];
    assert Parts(entries, fill)[2 * i + 2] == Pieces(entries, true, fill)[2 * i + 1];
  }

  lemma ValuePartEmpty(e: Entry, holes: map<string, string>)
    requires forall k :: k in holes ==> holes[k] == ""
    ensures ValuePart(e, holes) == "" <==> e.key in holes
  {
    PrintHead(e.value, "");
  }

  lemma EmptyParts(entries: seq<Entry>, holes: map<string, string>, p: nat)
    requires forall k :: k in holes ==> holes[k] == ""
    requires p < 2 * |entries| + 2
    ensures Parts(entries, holes)[p] == "" <==>
            p >= 2 && p % 2 == 0 && p / 2 - 1 < |entries| && entries[p / 2 - 1].key in holes
  {
    hide KeyPart, ValuePart;
    if 0 < p < 2 * |entries| + 1 {
      var i := (p - 1) / 2;
      PartAt(entries, holes, i);
      KeyPartIsText(entries[i].key, i == 0);
      ValuePartEmpty(entries[i], holes);
      assert p == 2 * i + 1 || p == 2 * i + 2;
    } else {
      assert Parts(entries, holes)[p] == if p == 0 then "{" else "}";
    }
  }

  lemma FillHoles(entries: seq<Entry>, a: nat, b: nat, fill: map<string, string>, holes: map<string, string>)
    requires a < b < |entries| && Unique(Keys(entries))
    requires fill.Keys == holes.Keys == {entries[a].key, entries[b].key}
    ensures var f := Parts(entries, holes)[2 * a + 2 := fill[entries[a].key]];
            Parts(entries, fill) == f[2 * b + 2 := fill[entries[b].key]]
  {
    hide Unique, Keys;
    var goal := Parts(entries, holes)[2 * a + 2 := fill[entries[a].key]][2 * b + 2 := fill[entries[b].key]];
    forall p | 0 <= p < 2 * |entries| + 2 ensures Parts(entries, fill)[p] == goal[p] {
      FillAt(entries, a, b, fill, holes, p);
    }
    assert |goal| == |Parts(entries, fill)|;
  }

  lemma FillAt(entries: seq<Entry>, a: nat, b: nat, fill: map<string, string>, holes: map<string, string>, p: nat)
    requires a < b < |entries| && Unique(Keys(entries)) && p < 2 * |entries| + 2
    requires fill.Keys == holes.Keys == {entries[a].key, entries[b].key}
    ensures Parts(entries, fill)[p] == if p == 2 * a + 2 then fill[entries[a].key]
                                       else if p == 2 * b + 2 then fill[entries[b].key]
                                       else Parts(entries, holes)[p]
  {
    hide KeyPart, ValuePart, Pieces, Unique, Keys;
    if 0 < p < 2 * |entries| + 1 {
      var i := (p - 1) / 2;
      PartAt(entries, fill, i);
      PartAt(entries, holes, i);
      ValuePartChoice(entries, i, a, b, fill, holes);
      assert p == 2 * i + 1 || p == 2 * i + 2;
    }
  }

  lemma ValuePartChoice(entries: seq<Entry>, i: nat, a: nat, b: nat, fill: map<string, string>, holes: map<string,
      string>)
    requires i < |entries| && a < b < |entries| && Unique(Keys(entries))
    requires fill.Keys == holes.Keys == {entries[a].key, entries[b].key}
    ensures i == a || i == b ==> ValuePart(entries[i], fill) == fill[entries[i].key]
    ensures i != a && i != b ==> ValuePart(entries[i], fill) == ValuePart(entries[i], holes)
  {
    assert Keys(entries)[i] == entries[i].key && Keys(entries)[a] == entries[a].key
        && Keys(entries)[b] == entries[b].key;
  }

  lemma JoinAround(parts: seq<string>, i: nat, j: nat, x: string, y: string)
    requires i < j < |parts|
    ensures Join(parts[i := x][j := y]) == Join(parts[..i]) + x + Join(parts[i + 1..j]) + y + Join(parts[j + 1..])
  {
    var l, m, r := parts[..i], parts[i + 1..j], parts[j + 1..];
    assert parts[i := x][j := y] == (l + [x]) + ((m + [y]) + r);
    JoinAppend(l + [x], (m + [y]) + r);
    JoinAppend(l, [x]);
    JoinAppend(m + [y], r);
    JoinAppend(m, [y]);
    assert Join([x]) == x + "" == x && Join([y]) == y + "" == y;
    assert (Join(l) + x) + ((Join(m) + y) + Join(r)) == Join(l) + x + Join(m) + y + Join(r);
  }

  /**
    The split text is the whole text: around the two empty fragments that `index` finds, in key order,
    prefix, first filling, middle, second filling and suffix spell the object with both values replaced.
   */
  lemma SplitTextIsWhole(entries: seq<Entry>, a: nat, b: nat, holes: map<string, string>, changes: map<string, Json>)
    requires a < b < |entries| && Unique(Keys(entries))
    requires holes == map[entries[a].key := "", entries[b].key := ""]
    requires changes.Keys == {entries[a].key, entries[b].key}
    ensures var parts := Parts(entries, holes);
            var first := IndexFrom(parts, 0);
            && first == 2 * a + 2
            && IndexFrom(parts, first + 1) == 2 * b + 2
            && Join(parts[..first]) + Print(changes[entries[a].key]) + Join(parts[first + 1..2 * b + 2])
               + Print(changes[entries[b].key]) + Join(parts[2 * b + 3..])
               == Print(Obj(Substitute(entries, changes)))
  {
    hide Print, Parts, Join, Substitute, IndexFrom, Unique, Keys;
    HolesAt(entries, a, b, holes);
    AroundHoles(entries, a, b, holes, changes);
  }

  lemma AroundHoles(entries: seq<Entry>, a: nat, b: nat, holes: map<string, string>, changes: map<string, Json>)
    requires a < b < |entries| && Unique(Keys(entries))
    requires holes.Keys == changes.Keys == {entries[a].key, entries[b].key}
    requires |Parts(entries, holes)| == 2 * |entries| + 2
    ensures var parts := Parts(entries, holes);
            Join(parts[..2 * a + 2]) + Print(changes[entries[a].key]) + Join(parts[2 * a + 3..2 * b + 2])
            + Print(changes[entries[b].key]) + Join(parts[2 * b + 3..])
            == Print(Obj(Substitute(entries, changes)))
  {
    hide Print, Parts, Join, Substitute, Unique, Keys;
    var fill := Fillings(changes);
    FilledPartsPrint(entries, fill, changes);
    FillHoles(entries, a, b, fill, holes);
    JoinAround(Parts(entries, holes), 2 * a + 2, 2 * b + 2, fill[entries[a].key], fill[entries[b].key]);
  }

  function Fillings(changes: map<string, Json>): (fill: map<string, string>)
    ensures Prints(fill, changes)
  {
    map k | k in changes :: Print(changes[k])
  }

  /** `index` finds exactly the two holes. */
  lemma HolesAt(entries: seq<Entry>, a: nat, b: nat, holes: map<string, string>)
    requires a < b < |entries| && Unique(Keys(entries))
    requires holes == map[entries[a].key := "", entries[b].key := ""]
    ensures |Parts(entries, holes)| == 2 * |entries| + 2
    ensures IndexFrom(Parts(entries, holes), 0) == 2 * a + 2
    ensures IndexFrom(Parts(entries, holes), 2 * a + 3) == 2 * b + 2
  {
    var parts := Parts(entries, holes);
    forall p | 0 <= p < |parts| ensures parts[p] == "" <==> p == 2 * a + 2 || p == 2 * b + 2 {
      EmptyParts(entries, holes, p);
      if p >= 2 && p % 2 == 0 && p / 2 - 1 < |entries| {
        var i := p / 2 - 1;
        assert Keys(entries)[i] == entries[i].key && Keys(entries)[a] == entries[a].key
            && Keys(entries)[b] == entries[b].key;
      }
    }
    assert parts[2 * a + 2] == "" && parts[2 * b + 2] == "";
    var i := IndexFrom(parts, 0);
    var j := IndexFrom(parts, 2 * a + 3);
    assert i == 2 * a + 2 && j == 2 * b + 2;
  }
}
