/**
  Reading stored events and aggregates back. A record's numbers may have been re-padded by
  fixed-scale storage; its fingerprint covers the original texts.
 */
module StoredRecords {
  import opened Prelude
  import opened Orders
  import opened Digits
  import opened Canonical
  import opened Decimals
  import opened Texts
  import opened Representations
  import opened Splitting
  import opened Recovery

  /** An event: its two numbers and every other content field. */
  datatype EventRecord = EventRecord(facts: seq<Entry>, value: Decimal, original: Option<Decimal>)

  /** A stored row; `derived` holds the redundant identity fields that are present in it. */
  datatype StoredEvent = StoredEvent(
    facts: seq<Entry>, derived: seq<Entry>, value: Decimal, original: Option<Decimal>, fingerprint: Option<string>)

  /** Content fields other than the named numbers, each once. */
  ghost predicate Facts(facts: seq<Entry>, numbers: set<string>) {
    Unique(Keys(facts)) && forall i :: 0 <= i < |facts| ==> facts[i].key !in numbers
  }

  function TextOf(d: Option<Decimal>): Option<string> {
    match d
    case None => None
    case Some(v) => Some(DecimalText(v))
  }

  /** `to_dict` without the fingerprint. */
  function Content(e: EventRecord): seq<Entry> {
    e.facts + [Entry(VALUE, Str(DecimalText(e.value))), Entry(ORIGINAL, AsJson(TextOf(e.original)))]
  }

  function Fingerprint(e: EventRecord, hash: Hash): Result<string> {
    var text :- CanonicalText(Obj(Content(e)));
    Ok(hash(text))
  }

  function OptionalValue(d: Option<Decimal>): Result<Option<Decimal>> {
    match d
    case None => Ok(None)
    case Some(v) =>
      var accepted :- DecimalValue(v);
      Ok(Some(accepted))
  }

  /** The event constructor, as far as its numbers go. */
  function Construct(facts: seq<Entry>, value: Decimal, original: Option<Decimal>): Result<EventRecord> {
    var v :- DecimalValue(value);
    var o :- OptionalValue(original);
    Ok(EventRecord(facts, v, o))
  }

  function FromMapping(row: StoredEvent, hash: Hash): Result<EventRecord> {
    var event :- Construct(row.facts, row.value, row.original);
    if row.fingerprint.None? then Ok(event)
    else if exists i :: 0 <= i < |row.derived| && row.derived[i] !in row.facts then Err(InvalidUsageResult)
    else
      var computed :- Fingerprint(event, hash);
      if computed == row.fingerprint.value then Ok(event)
      else
        var restored :- RestoreEvent(Content(event), row.fingerprint.value, hash);
        if restored.0.None? then Err(InvalidUsageResult)
        else Construct(row.facts, restored.0.value, restored.1)
  }

  // ---- Texts and numbers ----

  /** What the printed text of `d` parses to: the same number at exponent 0 or below. */
  function Shown(d: Decimal): Decimal {
    if d.coef == 0 then ZERO else Decimal(d.neg, ShownCoef(d), -(ShownScale(d) as int))
  }

  lemma ParsePrinted(d: Decimal)
    ensures ParseDecimal(DecimalText(d)) == Some(Shown(d))
    ensures d.coef == 0 ==> DecimalText(d) == "0"
    ensures SameNumber(Shown(d), d)
  {
    hide FixedText, ParseDecimal;
    ParseFixed(d.neg, ShownCoef(d), ShownScale(d));
    ParseFixed(false, 0, 0);
    ZeroText();
    assert Pow10(0) == 1;
    if d.coef > 0 {
      ScaleUp(d, Max(0, d.exp));
      SameNumberTransitive(d, Shown(d), d);
    }
  }

  lemma ZeroText()
    ensures FixedText(false, 0, 0) == "0"
  {
    assert Numeral(0) == "0";
    assert Padded(0, 1) == "0";
  }

  lemma AsciiLength(s: string)
    requires forall i :: 0 <= i < |s| ==> s[i] as int < 0x80
    ensures Utf8Length(s) == |s|
  {
  }

  lemma PlainText(s: string, maximum: nat)
    requires 0 < |s| <= maximum && forall i :: 0 <= i < |s| ==> 'A' <= s[i] <= 'z'
    ensures BoundedText(s, maximum)
  {
    hide Utf8Length;
    AsciiLength(s);
  }

  lemma PointedChars(digits: string, scale: nat)
    requires AllDigits(digits) && scale < |digits|
    ensures |Pointed(digits, scale)| <= |digits| + 1
    ensures forall i :: 0 <= i < |Pointed(digits, scale)| ==>
            IsDigit(Pointed(digits, scale)[i]) || Pointed(digits, scale)[i] == '.'
  {
  }

  lemma FixedTextChars(neg: bool, coef: nat, scale: nat)
    ensures var t := FixedText(neg, coef, scale);
            && 0 < |t| <= 2 + Max(scale + 1, DigitCount(coef))
            && forall i :: 0 <= i < |t| ==> IsDigit(t[i]) || t[i] == '.' || t[i] == '-'
  {
    hide Pointed, Padded, DigitCount;
    PointedChars(Padded(coef, scale + 1), scale);
    PointedParts(Padded(coef, scale + 1), scale);
  }

  lemma FixedTextBounded(neg: bool, coef: nat, scale: nat)
    requires DigitCount(coef) <= 1001 && scale <= 3000
    ensures BoundedText(FixedText(neg, coef, scale), 4096)
  {
    hide FixedText;
    FixedTextChars(neg, coef, scale);
    AsciiLength(FixedText(neg, coef, scale));
  }

  /** The text of every accepted number is accepted by the encoder. */
  lemma PrintedIsBounded(d: Decimal)
    requires Accepted(d)
    ensures BoundedText(DecimalText(d), 4096)
  {
    hide FixedText, BoundedText;
    ZeroText();
    FixedTextBounded(false, 0, 0);
    if d.coef > 0 {
      DigitCountShift(d.coef, Max(0, d.exp));
      assert Pow10(0) == 1;
      FixedTextBounded(d.neg, ShownCoef(d), ShownScale(d));
    }
  }

  /** What every candidate text means. */
  lemma CandidateMeaning(value: Option<Decimal>, meterValue: bool, text: Option<string>)
    requires Candidates(value, meterValue).Ok? && text in Candidates(value, meterValue).value
    ensures value.None? ==> text.None?
    ensures value.Some? ==>
              && text.Some? && Number(text).Some?
              && Accepted(Number(text).value)
              && DecimalText(Number(text).value) == text.value
              && SameNumber(Number(text).value, value.value)
  {
    hide DecimalText, ParseDecimal, Storable, InDomain, TextWith, SameNumber;
    if value.Some? {
      var v := StorageResult(value.value).value;
      if v.coef > 0 {
        assert v == value.value;
        SomeCandidate(v, meterValue, text);
      } else {
        ZeroCandidate(value.value);
      }
    }
  }

  lemma ZeroCandidate(d: Decimal)
    requires StorageResult(d) == Ok(ZERO)
    ensures ParseDecimal("0") == Some(ZERO) && DecimalText(ZERO) == "0" && Accepted(ZERO) && SameNumber(ZERO, d)
  {
    hide ParseDecimal, SameNumber, Storable;
    ParsePrinted(ZERO);
    StorageKeeps(d);
  }

  lemma SomeCandidate(v: Decimal, meterValue: bool, text: Option<string>)
    requires v.coef > 0 && StorageResult(v) == Ok(v) && text in Candidates(Some(v), meterValue).value
    ensures text.Some? && Number(text).Some?
    ensures var n := Number(text).value; Accepted(n) && DecimalText(n) == text.value && SameNumber(n, v)
  {
    hide TextWith, Storable, InDomain, DecimalText, ParseDecimal, NumberWith;
    var k :| 0 <= k <= Extra(v, meterValue) && text == Some(TextWith(v, k));
    StoredIsStorable(v);
    CandidateIsSound(v, meterValue, k);
    SameNumberTransitive(v, NumberWith(v, k), v);
  }

  lemma StoredIsStorable(v: Decimal)
    requires StorageResult(v) == Ok(v)
    ensures Storable(v) && InDomain(v)
  {
  }

  // ---- Contents that differ in their numbers only ----

  function NumberTexts(e: EventRecord): map<string, Json> {
    Pair(Some(DecimalText(e.value)), TextOf(e.original))
  }

  ghost predicate Wellformed(e: EventRecord) {
    Facts(e.facts, {VALUE, ORIGINAL}) && Accepted(e.value) && (e.original.Some? ==> Accepted(e.original.value))
  }

  lemma TextsArePlain(e: EventRecord)
    requires Wellformed(e)
    ensures Plain(NumberTexts(e))
  {
    hide DecimalText, BoundedText;
    PrintedIsBounded(e.value);
    if e.original.Some? {
      PrintedIsBounded(e.original.value);
    }
  }

  lemma ContentSubstitute(d: EventRecord, e: EventRecord)
    requires Facts(d.facts, {VALUE, ORIGINAL}) && d.facts == e.facts
    ensures Content(e) == Substitute(Content(d), NumberTexts(e))
  {
    hide DecimalText;
    var c, s := Content(e), Substitute(Content(d), NumberTexts(e));
    forall i | 0 <= i < |c| ensures c[i] == s[i] {
      assert i < |d.facts| ==> Content(d)[i] == d.facts[i];
    }
    assert c == s;
  }

  /** The fingerprint of an event is the pair digest of its texts, over any event with the same facts. */
  lemma FingerprintIsPairDigest(d: EventRecord, e: EventRecord, hash: Hash)
    requires Wellformed(e) && d.facts == e.facts && NormalForm(Obj(Content(d)), 0).Ok?
    ensures NormalForm(Obj(Content(e)), 0).Ok?
    ensures Fingerprint(e, hash)
            == Ok(PairDigest(Normalized(Content(d)), TextOf(e.original), Some(DecimalText(e.value)), hash))
  {
    hide Content, Substitute, NormalForm, Print, DecimalText;
    ContentSubstitute(d, e);
    TextsArePlain(e);
    NormalSubstitute(Content(d), NumberTexts(e));
  }

  lemma ContentIsEventContent(e: EventRecord)
    requires Wellformed(e) && NormalForm(Obj(Content(e)), 0).Ok?
    ensures EventContent(Content(e))
  {
    hide DecimalText, NormalForm;
    var c, n := Content(e), |e.facts|;
    forall i | 0 <= i < |c|
      ensures Keys(c)[i] == if i < n then Keys(e.facts)[i] else if i == n then VALUE else ORIGINAL
    {
    }
    assert Keys(c)[n] == VALUE && Keys(c)[n + 1] == ORIGINAL;
    assert forall i :: 0 <= i < n ==> Keys(e.facts)[i] == e.facts[i].key;
  }

  lemma {:induction false} LookupPast(facts: seq<Entry>, rest: seq<Entry>, key: string)
    requires forall i :: 0 <= i < |facts| ==> facts[i].key != key
    ensures Lookup(facts + rest, key) == Lookup(rest, key)
  {
    if facts == [] {
      assert facts + rest == rest;
    } else {
      assert (facts + rest)[1..] == facts[1..] + rest;
      LookupPast(facts[1..], rest, key);
    }
  }

  lemma ContentNumbers(e: EventRecord)
    requires Wellformed(e)
    ensures FieldNumber(Content(e), VALUE) == Ok(Some(Shown(e.value)))
    ensures FieldNumber(Content(e), ORIGINAL) == Ok(if e.original.None? then None else Some(Shown(e.original.value)))
  {
    hide DecimalText, ParseDecimal, Shown;
    var rest := [Entry(VALUE, Str(DecimalText(e.value))), Entry(ORIGINAL, AsJson(TextOf(e.original)))];
    LookupPast(e.facts, rest, VALUE);
    LookupPast(e.facts, rest, ORIGINAL);
    assert rest[1..][0] == rest[1];
    ParsePrinted(e.value);
    if e.original.Some? {
      ParsePrinted(e.original.value);
    }
  }

  // ---- Soundness ----

  ghost predicate SameOptional(a: Option<Decimal>, b: Option<Decimal>) {
    (a.None? <==> b.None?) && (a.Some? ==> SameNumber(a.value, b.value))
  }

  lemma ConstructKeeps(facts: seq<Entry>, value: Decimal, original: Option<Decimal>)
    requires Construct(facts, value, original).Ok? && Facts(facts, {VALUE, ORIGINAL})
    ensures var e := Construct(facts, value, original).value;
            Wellformed(e) && e.facts == facts && SameNumber(e.value, value) && SameOptional(e.original, original)
  {
  }

  /** What a successful search returns: a pair of accepted numbers, equal to the stored ones, with that digest. */
  lemma RestoredIsSound(e: EventRecord, expected: string, hash: Hash)
    requires Wellformed(e) && NormalForm(Obj(Content(e)), 0).Ok?
    requires RestoreEvent(Content(e), expected, hash).Ok?
    ensures var (value, original) := RestoreEvent(Content(e), expected, hash).value;
            && value.Some?
            && var r := EventRecord(e.facts, value.value, original);
            && Wellformed(r) && SameNumber(r.value, e.value) && SameOptional(r.original, e.original)
            && Fingerprint(r, hash) == Ok(expected)
  {
    hide Content, NormalForm, Normalized, DecimalText, Candidates, PairDigest, FindPair, SameNumber, Shown,
        Fingerprint, Accepted;
    ContentNumbers(e);
    var stored := if e.original.None? then None else Some(Shown(e.original.value));
    var values := Candidates(Some(Shown(e.value)), true).value;
    var originals := Candidates(stored, false).value;
    FindPairLaw(Normalized(Content(e)), originals, values, expected, hash);
    var pair := FindPair(Normalized(Content(e)), originals, values, expected, hash).value;
    CandidateMeaning(Some(Shown(e.value)), true, pair.1);
    CandidateMeaning(stored, false, pair.0);
    ParsePrinted(e.value);
    var r := EventRecord(e.facts, Number(pair.1).value, Number(pair.0));
    SameNumberTransitive(r.value, Shown(e.value), e.value);
    if e.original.Some? {
      ParsePrinted(e.original.value);
      SameNumberTransitive(r.original.value, Shown(e.original.value), e.original.value);
    }
    FingerprintIsPairDigest(e, r, hash);
  }

  lemma AcceptedConstructs(e: EventRecord)
    requires Wellformed(e)
    ensures Construct(e.facts, e.value, e.original) == Ok(e)
  {
  }

  /**
    Whatever is read back under a stored fingerprint really has that fingerprint, keeps every other fact
    and has the stored numbers; after a successful search the final reconstruction never fails.
   */
  lemma RecoveryIsSound(row: StoredEvent, hash: Hash)
    requires Facts(row.facts, {VALUE, ORIGINAL}) && FromMapping(row, hash).Ok?
    ensures var e := FromMapping(row, hash).value;
            && Wellformed(e) && e.facts == row.facts
            && SameNumber(e.value, row.value) && SameOptional(e.original, row.original)
            && (row.fingerprint.Some? ==> Fingerprint(e, hash) == Ok(row.fingerprint.value))
  {
    hide Content, NormalForm, SameNumber, RestoreEvent, Accepted;
    ConstructKeeps(row.facts, row.value, row.original);
    var event := Construct(row.facts, row.value, row.original).value;
    if row.fingerprint.Some? && Fingerprint(event, hash) != Ok(row.fingerprint.value) {
      RestoredIsSound(event, row.fingerprint.value, hash);
      var (value, original) := RestoreEvent(Content(event), row.fingerprint.value, hash).value;
      var r := EventRecord(row.facts, value.value, original);
      AcceptedConstructs(r);
      SameNumberTransitive(r.value, event.value, row.value);
      if event.original.Some? {
        SameNumberTransitive(r.original.value, event.original.value, row.original.value);
      }
    }
  }

  /** Without a fingerprint nothing is compared; with one, a redundant field that disagrees is an invalid result. */
  lemma RedundantFieldsMustAgree(row: StoredEvent, hash: Hash)
    requires Construct(row.facts, row.value, row.original).Ok?
    ensures row.fingerprint.None? ==> FromMapping(row, hash) == Construct(row.facts, row.value, row.original)
    ensures row.fingerprint.Some? && (exists d :: d in row.derived && d !in row.facts) ==>
              FromMapping(row, hash) == Err(InvalidUsageResult)
    ensures FromMapping(row, hash).Ok? && row.fingerprint.Some? ==> forall d :: d in row.derived ==> d in row.facts
  {
    hide Construct, Fingerprint, RestoreEvent, Content;
  }

  lemma CandidatesFailWith(value: Option<Decimal>, meterValue: bool)
    ensures Candidates(value, meterValue).Err? <==> value.Some? && StorageResult(value.value).Err?
    ensures Candidates(value, meterValue).Err? ==>
              Candidates(value, meterValue).error == StorageResult(value.value).error
  {
    hide TextWith, Extra, StorageResult;
  }

  /**
    Why a row cannot be read: its numbers are no inputs; redundant fields disagree; its content cannot be encoded; its
    numbers cannot be stored, so cannot be searched; or no number with the stored value has the fingerprint.
   */
  lemma ReadFailsWith(row: StoredEvent, hash: Hash)
    requires Facts(row.facts, {VALUE, ORIGINAL}) && FromMapping(row, hash).Err?
    ensures var error, built := FromMapping(row, hash).error, Construct(row.facts, row.value, row.original);
            if built.Err? then error == InvalidUsage
            else if exists d :: d in row.derived && d !in row.facts then error == InvalidUsageResult
            else
              var e := built.value;
              if NormalForm(Obj(Content(e)), 0).Err? then error == NormalForm(Obj(Content(e)), 0).error
              else if StorageResult(Shown(e.value)).Err? then error == StorageResult(Shown(e.value)).error
              else if e.original.Some? && StorageResult(Shown(e.original.value)).Err? then
                error == StorageResult(Shown(e.original.value)).error
              else error == InvalidUsageResult
  {
    hide Content, NormalForm, Normalized, DecimalText, Candidates, FindPair, Shown, StorageResult, Accepted, SameNumber,
        Facts;
    var built := Construct(row.facts, row.value, row.original);
    if built.Ok? && NormalForm(Obj(Content(built.value)), 0).Ok? {
      ConstructKeeps(row.facts, row.value, row.original);
      var e := built.value;
      ContentNumbers(e);
      var stored := if e.original.None? then None else Some(Shown(e.original.value));
      CandidatesFailWith(Some(Shown(e.value)), true);
      CandidatesFailWith(stored, false);
      if row.fingerprint.Some? && RestoreEvent(Content(e), row.fingerprint.value, hash).Ok? {
        RestoredIsSound(e, row.fingerprint.value, hash);
        var (value, original) := RestoreEvent(Content(e), row.fingerprint.value, hash).value;
        AcceptedConstructs(EventRecord(row.facts, value.value, original));
      }
    }
  }

  // ---- Completeness ----

  lemma FieldAfter(entries: seq<Entry>, changes: map<string, Json>, others: map<string, Json>, key: string)
    requires key in Keys(entries) && key in changes && key in others
    requires Substitute(entries, changes) == Substitute(entries, others)
    ensures changes[key] == others[key]
  {
    var i :| 0 <= i < |entries| && Keys(entries)[i] == key;
    assert Substitute(entries, changes)[i] == Substitute(entries, others)[i];
  }

  /** With a collision-free hash, a digest fixes both texts. */
  lemma DigestFixesTexts(entries: seq<Entry>, o: Option<string>, v: Option<string>, p: Option<string>,
      w: Option<string>, hash: Hash)
    requires Injective(hash) && VALUE in Keys(entries) && ORIGINAL in Keys(entries)
    requires PairDigest(entries, o, v, hash) == PairDigest(entries, p, w, hash)
    ensures o == p && v == w
  {
    hide Print, Substitute;
    PrintInjective(Obj(Substitute(entries, Pair(v, o))), Obj(Substitute(entries, Pair(w, p))));
    FieldAfter(entries, Pair(v, o), Pair(w, p), VALUE);
    FieldAfter(entries, Pair(v, o), Pair(w, p), ORIGINAL);
  }

  /** A number a normalized event may carry: storable, and a meter value has at most 18 decimals. */
  ghost predicate Recordable(e: EventRecord) {
    && Wellformed(e)
    && Storable(e.value) && -STORED_SCALE <= e.value.exp
    && (e.original.Some? ==> Storable(e.original.value))
  }

  /** `row` stores `e` with its numbers re-padded in any way that keeps them equal. */
  ghost predicate Repadded(row: StoredEvent, e: EventRecord, hash: Hash) {
    && row.facts == e.facts
    && (forall i :: 0 <= i < |row.derived| ==> row.derived[i] in row.facts)
    && InDomain(row.value) && SameNumber(e.value, row.value)
    && SameOptional(e.original, row.original) && (row.original.Some? ==> InDomain(row.original.value))
    && Fingerprint(e, hash).Ok? && row.fingerprint == Some(Fingerprint(e, hash).value)
  }

  lemma ShownInDomain(x: Decimal, d: Decimal)
    requires Accepted(x) && Storable(x) && Accepted(d) && SameNumber(x, d)
    ensures InDomain(Shown(d)) && SameNumber(x, Shown(d))
  {
    hide Storable, DecimalText, ParseDecimal;
    ParsePrinted(d);
    SameNumberTransitive(Shown(d), d, Shown(d));
    SameNumberTransitive(x, d, Shown(d));
    if d.coef > 0 {
      StorableSize(x);
      if x.exp >= d.exp {
        SameNumberShape(x, d);
      } else {
        SameNumberTransitive(x, d, x);
        SameNumberShape(d, x);
      }
      DigitCountShift(d.coef, Max(0, d.exp));
      assert Pow10(0) == 1;
    }
  }

  lemma StorableSize(x: Decimal)
    requires Storable(x)
    ensures Adjusted(x) < STORED_INTEGER_DIGITS
  {
  }

  /** The original texts of both numbers are among the candidates of the padded ones. */
  lemma TextsAreCandidates(e: EventRecord, d: EventRecord)
    requires Recordable(e) && Wellformed(d) && SameNumber(e.value, d.value) && SameOptional(e.original, d.original)
    ensures var values := Candidates(Some(Shown(d.value)), true);
            values.Ok? && Some(DecimalText(e.value)) in values.value
    ensures var originals := Candidates(if d.original.None? then None else Some(Shown(d.original.value)), false);
            originals.Ok? && TextOf(e.original) in originals.value
  {
    hide Storable, DecimalText, Shown, InDomain, SameNumber;
    ShownInDomain(e.value, d.value);
    CandidatesAreComplete(Shown(d.value), e.value, true);
    if e.original.Some? {
      ShownInDomain(e.original.value, d.original.value);
      CandidatesAreComplete(Shown(d.original.value), e.original.value, false);
    }
  }

  lemma ContentKeys(e: EventRecord)
    requires Wellformed(e) && NormalForm(Obj(Content(e)), 0).Ok?
    ensures VALUE in Keys(Normalized(Content(e))) && ORIGINAL in Keys(Normalized(Content(e)))
  {
    hide Content, NormalForm;
    ContentIsEventContent(e);
    NormalizedEntries(Content(e));
  }

  /** The search over the padded event finds exactly the original texts. */
  lemma SearchFindsOriginal(e: EventRecord, d: EventRecord, hash: Hash)
    requires Injective(hash) && Recordable(e) && Wellformed(d) && d.facts == e.facts
    requires SameNumber(e.value, d.value) && SameOptional(e.original, d.original)
    requires NormalForm(Obj(Content(d)), 0).Ok? && Fingerprint(e, hash).Ok?
    ensures RestoreEvent(Content(d), Fingerprint(e, hash).value, hash)
            == Ok((Number(Some(DecimalText(e.value))), Number(TextOf(e.original))))
  {
    hide Content, NormalForm, Normalized, DecimalText, Candidates, PairDigest, FindPair, SameNumber, Shown,
        Fingerprint, Accepted, Storable, Number, Keys, Injective;
    FingerprintIsPairDigest(d, e, hash);
    ContentNumbers(d);
    TextsAreCandidates(e, d);
    ContentKeys(d);
    var n := Normalized(Content(d));
    var values := Candidates(Some(Shown(d.value)), true).value;
    var originals := Candidates(if d.original.None? then None else Some(Shown(d.original.value)), false).value;
    var expected := Fingerprint(e, hash).value;
    FindPairLaw(n, originals, values, expected, hash);
    assert PairDigest(n, TextOf(e.original), Some(DecimalText(e.value)), hash) == expected;
    var pair := FindPair(n, originals, values, expected, hash).value;
    DigestFixesTexts(n, pair.0, pair.1, TextOf(e.original), Some(DecimalText(e.value)), hash);
  }

  lemma PrintedAgain(d: Decimal)
    requires d.coef > 0 || d == ZERO
    ensures DecimalText(Shown(d)) == DecimalText(d)
  {
    hide Pow10, FixedText, DigitCount;
    PowerZero();
    if d.coef > 0 {
      DigitCountShift(d.coef, Max(0, d.exp));
    }
  }

  lemma SameTextsSameContent(e: EventRecord, r: EventRecord)
    requires r.facts == e.facts
    requires DecimalText(r.value) == DecimalText(e.value) && TextOf(r.original) == TextOf(e.original)
    ensures Content(r) == Content(e)
  {
  }

  lemma EqualFingerprintsEqualTexts(d: EventRecord, e: EventRecord, hash: Hash)
    requires Injective(hash) && Wellformed(d) && Wellformed(e) && d.facts == e.facts
    requires Fingerprint(e, hash).Ok? && Fingerprint(d, hash) == Fingerprint(e, hash)
    ensures Content(d) == Content(e)
  {
    hide NormalForm, Normalized, DecimalText, PairDigest, Accepted, Keys, Injective;
    FingerprintIsPairDigest(d, e, hash);
    FingerprintIsPairDigest(d, d, hash);
    ContentKeys(d);
    DigestFixesTexts(Normalized(Content(d)), TextOf(d.original), Some(DecimalText(d.value)),
                     TextOf(e.original), Some(DecimalText(e.value)), hash);
    SameTextsSameContent(e, d);
  }

  /** Reading a re-padded record gives back the original event: same texts, same dictionary, same fingerprint. */
  lemma RecoveryIsComplete(e: EventRecord, row: StoredEvent, hash: Hash)
    requires Injective(hash) && Recordable(e) && Repadded(row, e, hash)
    ensures FromMapping(row, hash).Ok?
    ensures Content(FromMapping(row, hash).value) == Content(e)
  {
    hide Content, NormalForm, DecimalText, RestoreEvent, Injective, Storable;
    PaddedConstructs(e, row, hash);
    var d := Construct(row.facts, row.value, row.original).value;
    FingerprintIsPairDigest(e, d, hash);
    if Fingerprint(d, hash) == Fingerprint(e, hash) {
      EqualFingerprintsEqualTexts(d, e, hash);
    } else {
      SearchFindsOriginal(e, d, hash);
      ParsePrinted(e.value);
      PrintedAgain(e.value);
      if e.original.Some? {
        ParsePrinted(e.original.value);
        PrintedAgain(e.original.value);
      }
      RestoredIsSound(d, Fingerprint(e, hash).value, hash);
      var r := EventRecord(e.facts, Shown(e.value), if e.original.None? then None else Some(Shown(e.original.value)));
      AcceptedConstructs(r);
      SameTextsSameContent(e, r);
    }
  }

  lemma PaddedConstructs(e: EventRecord, row: StoredEvent, hash: Hash)
    requires Recordable(e) && Repadded(row, e, hash)
    ensures Construct(row.facts, row.value, row.original).Ok?
    ensures var d := Construct(row.facts, row.value, row.original).value;
            && Wellformed(d) && d.facts == e.facts
            && SameNumber(e.value, d.value) && SameOptional(e.original, d.original)
    ensures NormalForm(Obj(Content(e)), 0).Ok?
  {
    hide Content, NormalForm, SameNumber, InDomain, Storable;
    ConstructKeeps(row.facts, row.value, row.original);
    var d := Construct(row.facts, row.value, row.original).value;
    SameNumberSymmetric(d.value, row.value);
    SameNumberTransitive(e.value, row.value, d.value);
    if e.original.Some? {
      SameNumberSymmetric(d.original.value, row.original.value);
      SameNumberTransitive(e.original.value, row.original.value, d.original.value);
    }
  }
}
