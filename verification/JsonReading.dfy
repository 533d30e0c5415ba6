/**
  A reference reader of compact JSON texts, RFC 8259 sections 2 to 7 without white space, fractions and `\u` escapes.
  It knows nothing of the encoder; reading what the encoder wrote gives back the value. And what the encoder accepts.
 */
module JsonReading {
  import opened Prelude
  import opened Digits
  import opened Orders
  import opened Canonical

  // ---- The reader ----

  predicate Starts(s: string, word: string) {
    |word| <= |s| && s[..|word|] == word
  }

  /** A two-character escape. */
  function Unescape(c: char): Option<char> {
    if c == '"' || c == '\\' || c == '/' then Some(c)
    else if c == 'b' then Some(8 as char)
    else if c == 't' then Some(9 as char)
    else if c == 'n' then Some(10 as char)
    else if c == 'f' then Some(12 as char)
    else if c == 'r' then Some(13 as char)
    else None
  }

  /** The characters of a string literal up to its closing quote, and what follows. */
  function ReadText(s: string): (r: Option<(string, string)>)
    ensures r.Some? ==> |r.value.1| < |s|
  {
    if s == "" || (s[0] as int) < 32 then None
    else if s[0] == '"' then Some(("", s[1..]))
    else if s[0] == '\\' then
      if |s| < 2 || Unescape(s[1]).None? then None
      else
        match ReadText(s[2..])
        case None => None
        case Some((text, rest)) => Some(([Unescape(s[1]).value] + text, rest))
    else
      match ReadText(s[1..])
      case None => None
      case Some((text, rest)) => Some(([s[0]] + text, rest))
  }

  /** The digits a text begins with. */
  function LeadingDigits(s: string): (r: string)
    ensures |r| <= |s| && AllDigits(r)
  {
    if s == "" || !IsDigit(s[0]) then "" else [s[0]] + LeadingDigits(s[1..])
  }

  /** Digits without a leading zero. */
  function ReadNumeral(s: string): (r: Option<(int, string)>)
    ensures r.Some? ==> |r.value.1| < |s|
  {
    var digits := LeadingDigits(s);
    if digits == "" || (|digits| > 1 && digits[0] == '0') then None
    else Some((Reading(digits), s[|digits|..]))
  }

  function ReadInt(s: string): (r: Option<(int, string)>)
    ensures r.Some? ==> |r.value.1| < |s|
  {
    if Starts(s, "-") then
      match ReadNumeral(s[1..])
      case None => None
      case Some((n, rest)) => Some((-n, rest))
    else ReadNumeral(s)
  }

  function ReadValue(s: string): (r: Option<(Json, string)>)
    ensures r.Some? ==> |r.value.1| < |s|
    decreases |s|, 1
  {
    if Starts(s, "null") then Some((Null, s[4..]))
    else if Starts(s, "true") then Some((Bool(true), s[4..]))
    else if Starts(s, "false") then Some((Bool(false), s[5..]))
    else if Starts(s, "\"") then
      match ReadText(s[1..])
      case None => None
      case Some((text, rest)) => Some((Str(text), rest))
    else if Starts(s, "[]") then Some((Arr([]), s[2..]))
    else if Starts(s, "[") then
      match ReadItems(s[1..])
      case None => None
      case Some((items, rest)) => Some((Arr(items), rest))
    else if Starts(s, "{}") then Some((Obj([]), s[2..]))
    else if Starts(s, "{") then
      match ReadEntries(s[1..])
      case None => None
      case Some((entries, rest)) => Some((Obj(entries), rest))
    else
      match ReadInt(s)
      case None => None
      case Some((n, rest)) => Some((Int(n), rest))
  }

  /** One item or more, and the closing bracket. */
  function ReadItems(s: string): (r: Option<(seq<Json>, string)>)
    ensures r.Some? ==> |r.value.1| < |s|
    decreases |s|, 2
  {
    match ReadValue(s)
    case None => None
    case Some((first, rest)) =>
      if Starts(rest, "]") then Some(([first], rest[1..]))
      else if Starts(rest, ",") then
        match ReadItems(rest[1..])
        case None => None
        case Some((items, last)) => Some(([first] + items, last))
      else None
  }

  function ReadEntry(s: string): (r: Option<(Entry, string)>)
    ensures r.Some? ==> |r.value.1| < |s|
    decreases |s|, 2
  {
    if !Starts(s, "\"") then None
    else
      match ReadText(s[1..])
      case None => None
      case Some((key, rest)) =>
        if !Starts(rest, ":") then None
        else
          match ReadValue(rest[1..])
          case None => None
          case Some((value, last)) => Some((Entry(key, value), last))
  }

  /** One entry or more, and the closing brace. */
  function ReadEntries(s: string): (r: Option<(seq<Entry>, string)>)
    ensures r.Some? ==> |r.value.1| < |s|
    decreases |s|, 3
  {
    match ReadEntry(s)
    case None => None
    case Some((first, rest)) =>
      if Starts(rest, "}") then Some(([first], rest[1..]))
      else if Starts(rest, ",") then
        match ReadEntries(rest[1..])
        case None => None
        case Some((entries, last)) => Some(([first] + entries, last))
      else None
  }

  // ---- Reading what was written ----

  /** Text without control characters. */
  predicate Clear(s: string) {
    forall i :: 0 <= i < |s| ==> s[i] as int >= 32
  }

  ghost predicate AllClear(v: Json) {
    match v
    case Str(s) => Clear(s)
    case Arr(items) => forall i :: 0 <= i < |items| ==> AllClear(items[i])
    case Obj(entries) => forall i :: 0 <= i < |entries| ==> Clear(entries[i].key) && AllClear(entries[i].value)
    case _ => true
  }

  lemma {:induction false} TextIsRead(s: string, rest: string)
    requires Clear(s)
    ensures ReadText(TextTo(s, rest)) == Some((s, rest))
  {
    if s == [] {
      assert ("\"" + rest)[1..] == rest;
    } else {
      TextIsRead(s[1..], rest);
      var n := |Escaped(s[0])|;
      assert TextTo(s, rest)[n..] == TextTo(s[1..], rest);
      assert [s[0]] + s[1..] == s;
    }
  }

  lemma {:induction false} DigitsAreRead(digits: string, rest: string)
    requires AllDigits(digits) && NoDigitAhead(rest)
    ensures LeadingDigits(digits + rest) == digits
  {
    if digits == "" {
      assert digits + rest == rest;
    } else {
      DigitsAreRead(digits[1..], rest);
      assert (digits + rest)[1..] == digits[1..] + rest;
    }
  }

  lemma {:induction false} NoLeadingZero(n: nat)
    ensures n > 0 ==> Numeral(n)[0] != '0'
  {
    if n >= 10 {
      NoLeadingZero(n / 10);
    }
  }

  lemma NumeralIsRead(n: nat, rest: string)
    requires NoDigitAhead(rest)
    ensures ReadNumeral(Numeral(n) + rest) == Some((n, rest))
  {
    hide Reading, LeadingDigits, Numeral;
    var digits := Numeral(n);
    DigitsAreRead(digits, rest);
    NoLeadingZero(n);
    ReadingOfNumeral(n);
    ShortZero(n);
    assert (digits + rest)[|digits|..] == rest;
  }

  lemma IntIsRead(n: int, rest: string)
    requires NoDigitAhead(rest)
    ensures ReadInt(IntText(n) + rest) == Some((n, rest))
  {
    hide ReadNumeral, Numeral;
    var m: nat := if n < 0 then -n else n;
    NumeralIsRead(m, rest);
    if n < 0 {
      assert IntText(n) + rest == "-" + (Numeral(m) + rest);
      assert ("-" + (Numeral(m) + rest))[1..] == Numeral(m) + rest;
      Prefix("-", Numeral(m) + rest);
    } else {
      NoSign(Numeral(m), rest);
    }
  }

  lemma NoSign(digits: string, rest: string)
    requires digits != "" && IsDigit(digits[0])
    ensures !Starts(digits + rest, "-")
  {
    assert (digits + rest)[..1][0] == digits[0];
  }

  lemma ShortZero(n: nat)
    ensures |Numeral(n)| > 1 ==> n > 0
  {
  }

  /** The encoder's text of a value, whatever follows it, is read as that value. */
  lemma {:induction false} PrintedIsRead(v: Json, rest: string)
    requires AllClear(v) && NoDigitAhead(rest)
    ensures ReadValue(PrintTo(v, rest)) == Some((v, rest))
    decreases v, 1
  {
    match v {
      case Null => assert ("null" + rest)[..4] == "null" && ("null" + rest)[4..] == rest;
      case Bool(b) => WordIsRead(b, rest);
      case Int(n) => IntegerIsRead(n, rest);
      case Str(s) => StringIsRead(s, rest);
      case Arr(items) => ArrayIsRead(v, rest);
      case Obj(entries) => ObjectIsRead(v, rest);
    }
  }

  lemma WordIsRead(b: bool, rest: string)
    ensures ReadValue(PrintTo(Bool(b), rest)) == Some((Bool(b), rest))
  {
    var s := PrintTo(Bool(b), rest);
    if b {
      assert s[..4] == "true" && s[4..] == rest;
    } else {
      assert s[..5] == "false" && s[5..] == rest;
    }
    assert s[0] != 'n';
  }

  lemma IntegerIsRead(n: int, rest: string)
    requires NoDigitAhead(rest)
    ensures ReadValue(PrintTo(Int(n), rest)) == Some((Int(n), rest))
  {
    hide ReadInt, IntText;
    IntIsRead(n, rest);
    var s := IntText(n) + rest;
    assert s[0] == IntText(n)[0];
    NotWords(s);
  }

  lemma NotWords(s: string)
    requires s != "" && (s[0] == '-' || IsDigit(s[0]))
    ensures !Starts(s, "null") && !Starts(s, "true") && !Starts(s, "false") && !Starts(s, "\"")
    ensures !Starts(s, "[]") && !Starts(s, "[") && !Starts(s, "{}") && !Starts(s, "{")
  {
    assert "null"[0] == 'n' && "true"[0] == 't' && "false"[0] == 'f';
    assert forall word: string :: word != "" && Starts(s, word) ==> s[0] == word[0];
  }

  lemma FirstCharacter(s: string, c: char)
    requires s != "" && s[0] == c
    ensures c != 'n' ==> !Starts(s, "null")
    ensures c != 't' ==> !Starts(s, "true")
    ensures c != 'f' ==> !Starts(s, "false")
    ensures Starts(s, "\"") <==> c == '"'
    ensures Starts(s, "[") <==> c == '['
    ensures Starts(s, "{") <==> c == '{'
    ensures c != '[' ==> !Starts(s, "[]")
    ensures c != '{' ==> !Starts(s, "{}")
  {
    assert forall word: string :: word != "" && Starts(s, word) ==> s[0] == word[0];
    assert s[..1] == [c];
  }

  lemma StringIsRead(s: string, rest: string)
    requires Clear(s)
    ensures ReadValue(Quoted(s, rest)) == Some((Str(s), rest))
  {
    hide ReadText, TextTo, Starts;
    var all := Quoted(s, rest);
    FirstCharacter(all, '"');
    assert all[1..] == TextTo(s, rest);
    TextIsRead(s, rest);
  }

  lemma {:induction false} ArrayIsRead(v: Json, rest: string)
    requires v.Arr? && AllClear(v) && NoDigitAhead(rest)
    ensures ReadValue(PrintTo(v, rest)) == Some((v, rest))
    decreases v, 0
  {
    hide ReadItems, ItemsTo, Starts;
    var s, items := PrintTo(v, rest), v.items;
    FirstCharacter(s, '[');
    if items == [] {
      assert s == "[]" + rest && s[2..] == rest;
      assert Starts(s, "[]") by { Prefix("[]", rest); }
    } else {
      var body := PrintTo(items[0], ItemsTo(items[1..], "]" + rest));
      assert s == "[" + body && s[1..] == body;
      ItemsAreRead(v, items, rest);
      PrintHead(items[0], ItemsTo(items[1..], "]" + rest));
      assert s[1] != ']';
      NotEmptyYet(s);
    }
  }

  lemma Prefix(word: string, rest: string)
    ensures Starts(word + rest, word)
  {
  }

  lemma NotEmptyYet(s: string)
    requires |s| >= 2 && s[1] != ']' && s[1] != '}'
    ensures !Starts(s, "[]") && !Starts(s, "{}")
  {
    assert s[..2][1] == s[1] && "[]"[1] == ']' && "{}"[1] == '}';
  }

  lemma {:induction false} ItemsAreRead(owner: Json, items: seq<Json>, rest: string)
    requires items != [] && forall i :: 0 <= i < |items| ==> items[i] < owner && AllClear(items[i])
    ensures ReadItems(PrintTo(items[0], ItemsTo(items[1..], "]" + rest))) == Some((items, rest))
    decreases owner, 0, |items|
  {
    hide ReadValue, PrintTo;
    var more := ItemsTo(items[1..], "]" + rest);
    PrintedIsRead(items[0], more);
    if |items| == 1 {
      assert more == "]" + rest && more[1..] == rest && items == [items[0]];
      Prefix("]", rest);
    } else {
      var tail := PrintTo(items[1], ItemsTo(items[2..], "]" + rest));
      assert items[1..][1..] == items[2..];
      assert more == "," + tail && more[1..] == tail && more[0] == ',';
      Prefix(",", tail);
      ItemsAreRead(owner, items[1..], rest);
      assert items == [items[0]] + items[1..];
    }
  }

  lemma {:induction false} ObjectIsRead(v: Json, rest: string)
    requires v.Obj? && AllClear(v) && NoDigitAhead(rest)
    ensures ReadValue(PrintTo(v, rest)) == Some((v, rest))
    decreases v, 0
  {
    hide ReadEntries, EntriesTo, EntryTo, Starts;
    var s, entries := PrintTo(v, rest), v.entries;
    FirstCharacter(s, '{');
    if entries == [] {
      assert s == "{}" + rest && s[2..] == rest;
      assert Starts(s, "{}") by { Prefix("{}", rest); }
    } else {
      var body := EntryTo(entries[0], EntriesTo(entries[1..], "}" + rest));
      assert s == "{" + body && s[1..] == body;
      EntriesAreRead(v, entries, rest);
      EntryHead(entries[0], EntriesTo(entries[1..], "}" + rest));
      NotEmptyYet(s);
    }
  }

  lemma EntryHead(e: Entry, rest: string)
    ensures EntryTo(e, rest) != "" && EntryTo(e, rest)[0] == '"'
  {
  }

  lemma {:induction false} EntryIsRead(owner: Json, e: Entry, rest: string)
    requires e < owner && Clear(e.key) && AllClear(e.value) && NoDigitAhead(rest)
    ensures ReadEntry(EntryTo(e, rest)) == Some((e, rest))
    decreases owner, 0, 0
  {
    hide ReadValue, PrintTo, ReadText, TextTo;
    var s, more := EntryTo(e, rest), ":" + PrintTo(e.value, rest);
    TextIsRead(e.key, more);
    Prefix("\"", TextTo(e.key, more));
    assert s[1..] == TextTo(e.key, more) && more[1..] == PrintTo(e.value, rest);
    Prefix(":", PrintTo(e.value, rest));
    PrintedIsRead(e.value, rest);
  }

  lemma {:induction false} EntriesAreRead(owner: Json, entries: seq<Entry>, rest: string)
    requires entries != []
    requires forall i :: 0 <= i < |entries| ==>
               entries[i] < owner && Clear(entries[i].key) && AllClear(entries[i].value)
    ensures ReadEntries(EntryTo(entries[0], EntriesTo(entries[1..], "}" + rest))) == Some((entries, rest))
    decreases owner, 0, |entries|
  {
    hide ReadEntry, EntryTo;
    var more := EntriesTo(entries[1..], "}" + rest);
    if |entries| == 1 {
      assert more == "}" + rest && more[1..] == rest && entries == [entries[0]];
      EntryIsRead(owner, entries[0], more);
      Prefix("}", rest);
    } else {
      var tail := EntryTo(entries[1], EntriesTo(entries[2..], "}" + rest));
      assert entries[1..][1..] == entries[2..];
      assert more == "," + tail && more[1..] == tail && more[0] == ',';
      EntryIsRead(owner, entries[0], more);
      Prefix(",", tail);
      EntriesAreRead(owner, entries[1..], rest);
      assert entries == [entries[0]] + entries[1..];
    }
  }

  // ---- The encoder ----

  lemma {:induction false} NormalIsClear(v: Json, depth: nat)
    requires NormalForm(v, depth).Ok?
    ensures AllClear(NormalForm(v, depth).value)
    decreases v, 1, 0
  {
    match v {
      case Arr(items) => ItemsAreClear(v, items, depth + 1);
      case Obj(entries) =>
        var sorted := Sort(EntryLess, entries);
        SortKeeps(entries);
        assert forall i :: 0 <= i < |sorted| ==> sorted[i] in entries;
        EntriesAreClear(v, sorted, depth + 1);
      case _ =>
    }
  }

  lemma {:induction false} ItemsAreClear(owner: Json, items: seq<Json>, depth: nat)
    requires forall i :: 0 <= i < |items| ==> items[i] < owner
    requires NormalItems(owner, items, depth).Ok?
    ensures forall v :: v in NormalItems(owner, items, depth).value ==> AllClear(v)
    decreases owner, 0, |items|
  {
    hide AllClear;
    if items != [] {
      NormalIsClear(items[0], depth);
      ItemsAreClear(owner, items[1..], depth);
    }
  }

  lemma {:induction false} EntriesAreClear(owner: Json, entries: seq<Entry>, depth: nat)
    requires forall i :: 0 <= i < |entries| ==> entries[i] < owner
    requires NormalEntries(owner, entries, depth).Ok?
    ensures forall e :: e in NormalEntries(owner, entries, depth).value ==> Clear(e.key) && AllClear(e.value)
    decreases owner, 0, |entries|
  {
    hide AllClear, Utf8Length;
    if entries != [] {
      NormalIsClear(entries[0].value, depth);
      EntriesAreClear(owner, entries[1..], depth);
    }
  }

  /** The canonical text of an accepted value is a JSON text of its normal form, and of nothing more. */
  lemma CanonicalTextIsRead(v: Json)
    requires CanonicalText(v).Ok?
    ensures ReadValue(CanonicalText(v).value) == Some((NormalForm(v, 0).value, ""))
  {
    hide NormalForm, ReadValue, PrintTo;
    NormalIsClear(v, 0);
    PrintedIsRead(NormalForm(v, 0).value, "");
  }

  /** The normal form is the value itself, but for the order of dictionary entries. */
  lemma {:induction false} NormalFormIsSame(v: Json, depth: nat)
    requires NormalForm(v, depth).Ok?
    ensures Same(v, NormalForm(v, depth).value)
    decreases v, 1
  {
    match v {
      case Arr(_) => ArrayIsSame(v, depth);
      case Obj(_) => ObjectIsSame(v, depth);
      case _ =>
    }
  }

  lemma {:induction false} ArrayIsSame(v: Json, depth: nat)
    requires v.Arr? && NormalForm(v, depth).Ok?
    ensures Same(v, NormalForm(v, depth).value)
    decreases v, 0
  {
    hide Sort, BoundedText, EntryLess;
    var n := NormalForm(v, depth).value;
    forall i | 0 <= i < |v.items| ensures Same(v.items[i], n.items[i]) {
      NormalItemsAt(v, v.items, depth + 1, i);
      NormalFormIsSame(v.items[i], depth + 1);
    }
  }

  lemma {:induction false} ObjectIsSame(v: Json, depth: nat)
    requires v.Obj? && NormalForm(v, depth).Ok?
    ensures Same(v, NormalForm(v, depth).value)
    decreases v, 0
  {
    hide BoundedText, EntryLess;
    var n, entries := NormalForm(v, depth).value, v.entries;
    forall i | 0 <= i < |entries|
      ensures exists j :: 0 <= j < |n.entries| && n.entries[j].key == entries[i].key
                          && Same(entries[i].value, n.entries[j].value)
    {
      var j := NormalEntryOf(v, depth, i);
      NormalFormIsSame(entries[i].value, depth + 1);
    }
  }

  /** Where an entry's normal form ends up. */
  lemma NormalEntryOf(v: Json, depth: nat, i: nat) returns (j: nat)
    requires v.Obj? && NormalForm(v, depth).Ok? && i < |v.entries|
    ensures NormalForm(v, depth).value.Obj? && |NormalForm(v, depth).value.entries| == |v.entries|
    ensures var n := NormalForm(v, depth).value.entries;
            j < |n| && n[j].key == v.entries[i].key && NormalForm(v.entries[i].value, depth + 1) == Ok(n[j].value)
  {
    hide BoundedText, EntryLess;
    var sorted := Sort(EntryLess, v.entries);
    SortKeeps(v.entries);
    assert forall k :: 0 <= k < |sorted| ==> sorted[k] in v.entries;
    assert v.entries[i] in sorted;
    j :| 0 <= j < |sorted| && sorted[j] == v.entries[i];
    NormalEntriesAt(v, sorted, depth + 1, j);
  }

  // ---- What the encoder accepts ----

  /** The value itself and everything inside it, each with its depth. */
  function Parts(v: Json, depth: nat): set<(Json, nat)> {
    var next := depth + 1;
    {(v, depth)} + match v
                   case Arr(items) => set i, p | 0 <= i < |items| && p in Parts(items[i], next) :: p
                   case Obj(entries) => set i, p | 0 <= i < |entries| && p in Parts(entries[i].value, next) :: p
                   case _ => {}
  }

  /** Small enough in itself, whatever is inside: 64-bit integers, bounded texts and keys, 256 items, 64 entries. */
  predicate Small(v: Json) {
    match v
    case Int(n) => -0x8000_0000_0000_0000 <= n < 0x8000_0000_0000_0000
    case Str(s) => BoundedText(s, 4096)
    case Arr(items) => |items| <= 256
    case Obj(entries) => |entries| <= 64 && forall i :: 0 <= i < |entries| ==> BoundedText(entries[i].key, 128)
    case _ => true
  }

  ghost predicate Accepted(v: Json, depth: nat) {
    forall p :: p in Parts(v, depth) ==> p.1 <= 8 && Small(p.0)
  }

  lemma ArrayAccepted(v: Json, depth: nat)
    requires v.Arr?
    ensures Accepted(v, depth)
            <==> depth <= 8 && Small(v) && forall i :: 0 <= i < |v.items| ==> Accepted(v.items[i], depth + 1)
  {
    hide Small;
    var next := depth + 1;
    var inner := set i, p | 0 <= i < |v.items| && p in Parts(v.items[i], next) :: p;
    assert Parts(v, depth) == {(v, depth)} + inner;
    if Accepted(v, depth) {
      assert (v, depth) in Parts(v, depth);
      forall i, p | 0 <= i < |v.items| && p in Parts(v.items[i], next) ensures p.1 <= 8 && Small(p.0) {
        assert p in inner;
      }
    }
  }

  lemma ObjectAccepted(v: Json, depth: nat)
    requires v.Obj?
    ensures Accepted(v, depth)
            <==> depth <= 8 && Small(v) && forall i :: 0 <= i < |v.entries| ==> Accepted(v.entries[i].value, depth + 1)
  {
    hide Small;
    var next := depth + 1;
    var inner := set i, p | 0 <= i < |v.entries| && p in Parts(v.entries[i].value, next) :: p;
    assert Parts(v, depth) == {(v, depth)} + inner;
    if Accepted(v, depth) {
      assert (v, depth) in Parts(v, depth);
      forall i, p | 0 <= i < |v.entries| && p in Parts(v.entries[i].value, next) ensures p.1 <= 8 && Small(p.0) {
        assert p in inner;
      }
    }
  }

  /** The encoder accepts a value exactly if nothing in it is too deep or too large, and refuses it as invalid usage. */
  lemma {:induction false} AcceptsExactly(v: Json, depth: nat)
    ensures NormalForm(v, depth).Ok? <==> Accepted(v, depth)
    ensures NormalForm(v, depth).Err? ==> NormalForm(v, depth).error == InvalidUsage
    decreases v, 1, 0
  {
    hide BoundedText, Accepted;
    match v {
      case Arr(items) =>
        ArrayAccepted(v, depth);
        ItemsAccepted(v, items, depth + 1);
      case Obj(entries) =>
        ObjectAccepted(v, depth);
        var sorted := Sort(EntryLess, entries);
        SortKeeps(entries);
        assert forall i :: 0 <= i < |sorted| ==> sorted[i] in entries;
        EntriesAccepted(v, sorted, depth + 1);
        SameTests(entries, sorted, depth + 1);
      case _ => LeafAccepted(v, depth);
    }
  }

  lemma LeafAccepted(v: Json, depth: nat)
    requires !v.Arr? && !v.Obj?
    ensures Accepted(v, depth) <==> depth <= 8 && Small(v)
  {
    hide BoundedText;
    assert Parts(v, depth) == {(v, depth)};
    if Accepted(v, depth) {
      assert (v, depth) in Parts(v, depth);
    }
  }

  lemma SameTests(entries: seq<Entry>, sorted: seq<Entry>, depth: nat)
    requires forall e :: e in sorted <==> e in entries
    ensures (forall i :: 0 <= i < |sorted| ==> BoundedText(sorted[i].key, 128) && Accepted(sorted[i].value, depth))
            <==> && (forall i :: 0 <= i < |entries| ==> BoundedText(entries[i].key, 128))
                 && forall i :: 0 <= i < |entries| ==> Accepted(entries[i].value, depth)
  {
    hide BoundedText, Accepted;
    if forall i :: 0 <= i < |sorted| ==> BoundedText(sorted[i].key, 128) && Accepted(sorted[i].value, depth) {
      forall i | 0 <= i < |entries| ensures BoundedText(entries[i].key, 128) && Accepted(entries[i].value, depth) {
        assert entries[i] in sorted;
      }
    } else {
      var i :| 0 <= i < |sorted| && !(BoundedText(sorted[i].key, 128) && Accepted(sorted[i].value, depth));
      assert sorted[i] in entries;
    }
  }

  lemma {:induction false} ItemsAccepted(owner: Json, items: seq<Json>, depth: nat)
    requires forall i :: 0 <= i < |items| ==> items[i] < owner
    ensures NormalItems(owner, items, depth).Ok? <==> forall i :: 0 <= i < |items| ==> Accepted(items[i], depth)
    ensures NormalItems(owner, items, depth).Err? ==> NormalItems(owner, items, depth).error == InvalidUsage
    decreases owner, 0, |items|
  {
    hide NormalForm, Accepted;
    if items != [] {
      AcceptsExactly(items[0], depth);
      ItemsAccepted(owner, items[1..], depth);
      assert forall i :: 0 < i < |items| ==> items[i] == items[1..][i - 1];
    }
  }

  lemma {:induction false} EntriesAccepted(owner: Json, entries: seq<Entry>, depth: nat)
    requires forall i :: 0 <= i < |entries| ==> entries[i] < owner
    ensures NormalEntries(owner, entries, depth).Ok?
            <==> forall i :: 0 <= i < |entries| ==>
                   BoundedText(entries[i].key, 128) && Accepted(entries[i].value, depth)
    ensures NormalEntries(owner, entries, depth).Err? ==> NormalEntries(owner, entries, depth).error == InvalidUsage
    decreases owner, 0, |entries|
  {
    hide NormalForm, Accepted, BoundedText;
    if entries != [] {
      AcceptsExactly(entries[0].value, depth);
      EntriesAccepted(owner, entries[1..], depth);
      assert forall i :: 0 < i < |entries| ==> entries[i] == entries[1..][i - 1];
    }
  }
}
