/** Reading stored aggregates back: the total's text is recovered under the aggregate's own fingerprint. */
module StoredTotals {
  import opened Prelude
  import opened Orders
  import opened Canonical
  import opened Decimals
  import opened Texts
  import opened Representations
  import opened Splitting
  import opened Recovery
  import opened StoredRecords

  /** An aggregate: its total and every other content field. */
  datatype TotalRecord = TotalRecord(facts: seq<Entry>, total: Decimal)

  datatype StoredAggregate = StoredAggregate(
    facts: seq<Entry>, derived: seq<Entry>, total: Decimal, fingerprint: Option<string>)

  function TotalContent(a: TotalRecord): seq<Entry> {
    a.facts + [Entry(TOTAL, Str(DecimalText(a.total)))]
  }

  function TotalFingerprint(a: TotalRecord, hash: Hash): Result<string> {
    var text :- CanonicalText(Obj(TotalContent(a)));
    Ok(hash(text))
  }

  function Total(text: Option<string>): map<string, Json> {
    map[TOTAL := AsJson(text)]
  }

  /** The first candidate text whose complete digest is the expected one. */
  function FindTotal(content: seq<Entry>, texts: seq<Option<string>>, expected: string,
      hash: Hash): Result<Option<string>> {
    if texts == [] then Err(InvalidUsageResult)
    else
      var text :- CanonicalText(Obj(Substitute(content, Total(texts[0]))));
      if hash(text) == expected then Ok(texts[0]) else FindTotal(content, texts[1..], expected, hash)
  }

  function RestoreTotal(content: seq<Entry>, expected: string, hash: Hash): Result<Option<Decimal>> {
    var stored :- FieldNumber(content, TOTAL);
    var texts :- Candidates(stored, false);
    var found :- FindTotal(content, texts, expected, hash);
    Ok(Number(found))
  }

  /** Substitute each candidate text and compare complete digests. */
  method RestoreAggregateTotal(content: seq<Entry>, expected: string, hash: Hash) returns (r: Result<Option<Decimal>>)
    ensures r == RestoreTotal(content, expected, hash)
  {
    hide CanonicalText, FieldNumber, Candidates, Number, Substitute, Total;
    var stored :- FieldNumber(content, TOTAL);
    var texts :- Enumerate(stored, false);
    assert texts[0..] == texts;
    for i := 0 to |texts|
      invariant FindTotal(content, texts, expected, hash) == FindTotal(content, texts[i..], expected, hash)
    {
      var text :- CanonicalText(Obj(Substitute(content, Total(texts[i]))));
      if hash(text) == expected {
        return Ok(Number(texts[i]));
      }
      assert texts[i..][1..] == texts[i + 1..];
    }
    return Err(InvalidUsageResult);
  }

  /** The aggregate constructor, as far as its total goes: it must fit storage. */
  function AggregateFromMapping(row: StoredAggregate, hash: Hash): Result<TotalRecord> {
    var parsed :- DecimalValue(row.total);
    var total :- StorageResult(parsed);
    var aggregate := TotalRecord(row.facts, total);
    if row.fingerprint.None? then Ok(aggregate)
    else if exists i :: 0 <= i < |row.derived| && row.derived[i] !in row.facts then Err(InvalidUsageResult)
    else
      var computed :- TotalFingerprint(aggregate, hash);
      if computed == row.fingerprint.value then Ok(aggregate)
      else
        var restored :- RestoreTotal(TotalContent(aggregate), row.fingerprint.value, hash);
        if restored.None? then Err(InvalidUsageResult)
        else
          var kept :- StorageResult(restored.value);
          Ok(TotalRecord(row.facts, kept))
  }

  ghost predicate TotalWellformed(a: TotalRecord) {
    Facts(a.facts, {TOTAL}) && Accepted(a.total) && Storable(a.total)
  }

  lemma TotalSubstitute(a: TotalRecord, b: TotalRecord)
    requires Facts(a.facts, {TOTAL}) && a.facts == b.facts
    ensures TotalContent(b) == Substitute(TotalContent(a), Total(Some(DecimalText(b.total))))
  {
    hide DecimalText;
    var c, s := TotalContent(b), Substitute(TotalContent(a), Total(Some(DecimalText(b.total))));
    forall i | 0 <= i < |c| ensures c[i] == s[i] {
      assert i < |a.facts| ==> TotalContent(a)[i] == a.facts[i];
    }
    assert c == s;
  }

  lemma TotalNumber(a: TotalRecord)
    requires TotalWellformed(a)
    ensures FieldNumber(TotalContent(a), TOTAL) == Ok(Some(Shown(a.total)))
  {
    hide DecimalText, ParseDecimal, Shown, Storable, InDomain;
    LookupPast(a.facts, [Entry(TOTAL, Str(DecimalText(a.total)))], TOTAL);
    ParsePrinted(a.total);
  }

  /** Accepted by the encoder or not does not depend on which bounded text the total has. */
  lemma AcceptedAlike(a: TotalRecord, b: TotalRecord)
    requires TotalWellformed(a) && Accepted(b.total) && b.facts == a.facts
    requires NormalForm(Obj(TotalContent(a)), 0).Ok?
    ensures NormalForm(Obj(TotalContent(b)), 0).Ok?
  {
    hide TotalContent, Substitute, NormalForm, DecimalText, BoundedText, Storable, InDomain;
    TotalSubstitute(a, b);
    PrintedIsBounded(b.total);
    NormalSubstitute(TotalContent(a), Total(Some(DecimalText(b.total))));
  }

  lemma {:induction false} FindTotalLaw(a: TotalRecord, texts: seq<Option<string>>, expected: string, hash: Hash)
    requires Facts(a.facts, {TOTAL})
    requires forall t :: t in texts ==> t.Some? && CanonicalText(Obj(Substitute(TotalContent(a), Total(t)))).Ok?
    ensures var r := FindTotal(TotalContent(a), texts, expected, hash);
            && (r.Ok? ==> r.value in texts
                          && CanonicalText(Obj(Substitute(TotalContent(a), Total(r.value)))).Ok?
                          && hash(CanonicalText(Obj(Substitute(TotalContent(a), Total(r.value)))).value) == expected)
            && (r.Err? ==> forall t :: t in texts ==>
                             hash(CanonicalText(Obj(Substitute(TotalContent(a), Total(t)))).value) != expected)
  {
    hide CanonicalText, Substitute, TotalContent, Total, Unique, Keys;
    if texts != [] {
      assert texts[0] in texts;
      FindTotalLaw(a, texts[1..], expected, hash);
    }
  }

  /** Every candidate for the total is the text of a storable number equal to it. */
  lemma TotalCandidate(a: TotalRecord, t: Option<string>)
    requires TotalWellformed(a) && Candidates(Some(Shown(a.total)), false).Ok?
    requires t in Candidates(Some(Shown(a.total)), false).value
    ensures t.Some? && Number(t).Some?
    ensures var b := TotalRecord(a.facts, Number(t).value);
            && TotalWellformed(b) && DecimalText(b.total) == t.value && SameNumber(b.total, a.total)
            && StorageResult(b.total) == Ok(b.total)
            && TotalContent(b) == Substitute(TotalContent(a), Total(t))
  {
    hide TotalContent, Substitute, DecimalText, Candidates, Shown, SameNumber, InDomain, ParseDecimal, Storable,
        Unique, Keys;
    CandidateMeaning(Some(Shown(a.total)), false, t);
    ParsePrinted(a.total);
    var b := TotalRecord(a.facts, Number(t).value);
    SameNumberTransitive(b.total, Shown(a.total), a.total);
    SameNumberSymmetric(b.total, a.total);
    StaysStorable(a.total, b.total);
    TotalSubstitute(a, b);
  }

  lemma StaysStorable(x: Decimal, d: Decimal)
    requires Accepted(x) && Storable(x) && Accepted(d) && SameNumber(x, d)
    ensures Storable(d) && StorageResult(d) == Ok(d)
  {
    StorageFollowsNumber(x, d);
  }

  lemma CandidatesAccepted(a: TotalRecord)
    requires TotalWellformed(a) && Candidates(Some(Shown(a.total)), false).Ok?
    requires NormalForm(Obj(TotalContent(a)), 0).Ok?
    ensures forall t :: t in Candidates(Some(Shown(a.total)), false).value ==>
              t.Some? && CanonicalText(Obj(Substitute(TotalContent(a), Total(t)))).Ok?
  {
    forall t | t in Candidates(Some(Shown(a.total)), false).value
      ensures t.Some? && CanonicalText(Obj(Substitute(TotalContent(a), Total(t)))).Ok?
    {
      hide TotalContent, Substitute, DecimalText, Candidates, Shown, NormalForm, Print, Total, Storable, InDomain, Keys;
      TotalCandidate(a, t);
      AcceptedAlike(a, TotalRecord(a.facts, Number(t).value));
    }
  }

  lemma RestoredTotalIsSound(a: TotalRecord, expected: string, hash: Hash)
    requires TotalWellformed(a) && NormalForm(Obj(TotalContent(a)), 0).Ok?
    requires RestoreTotal(TotalContent(a), expected, hash).Ok?
    ensures var total := RestoreTotal(TotalContent(a), expected, hash).value;
            && total.Some?
            && var b := TotalRecord(a.facts, total.value);
            && TotalWellformed(b) && SameNumber(b.total, a.total)
            && StorageResult(b.total) == Ok(b.total) && TotalFingerprint(b, hash) == Ok(expected)
  {
    hide TotalContent, Substitute, DecimalText, Candidates, Shown, NormalForm, Print, Total, Storable, InDomain, Keys,
        SameNumber, FieldNumber, CanonicalText;
    TotalNumber(a);
    CandidatesAccepted(a);
    var texts := Candidates(Some(Shown(a.total)), false).value;
    FindTotalLaw(a, texts, expected, hash);
    TotalCandidate(a, FindTotal(TotalContent(a), texts, expected, hash).value);
  }

  lemma ConstructsStorable(row: StoredAggregate)
    requires Facts(row.facts, {TOTAL}) && DecimalValue(row.total).Ok?
            && StorageResult(DecimalValue(row.total).value).Ok?
    ensures var a := TotalRecord(row.facts, StorageResult(DecimalValue(row.total).value).value);
            TotalWellformed(a) && SameNumber(a.total, row.total)
  {
    hide SameNumber, Storable, InDomain, Keys, Unique;
    var v := DecimalValue(row.total).value;
    DecimalValueKeeps(row.total);
    StorageKeeps(v);
    SameNumberTransitive(StorageResult(v).value, v, row.total);
  }

  /** An aggregate read back under a fingerprint has that fingerprint, and the stored number as its total. */
  lemma TotalRecoveryIsSound(row: StoredAggregate, hash: Hash)
    requires Facts(row.facts, {TOTAL}) && AggregateFromMapping(row, hash).Ok?
    ensures var a := AggregateFromMapping(row, hash).value;
            && TotalWellformed(a) && a.facts == row.facts && SameNumber(a.total, row.total)
            && (row.fingerprint.Some? ==> TotalFingerprint(a, hash) == Ok(row.fingerprint.value))
  {
    hide TotalContent, NormalForm, SameNumber, RestoreTotal, Storable, InDomain;
    ConstructsStorable(row);
    var a := TotalRecord(row.facts, StorageResult(DecimalValue(row.total).value).value);
    if row.fingerprint.Some? && TotalFingerprint(a, hash) != Ok(row.fingerprint.value) {
      RestoredTotalIsSound(a, row.fingerprint.value, hash);
      var total := RestoreTotal(TotalContent(a), row.fingerprint.value, hash).value;
      SameNumberTransitive(total.value, a.total, row.total);
    }
  }

  /** Without a fingerprint nothing is compared; with one, a redundant field that disagrees is an invalid result. */
  lemma RedundantTotalFieldsMustAgree(row: StoredAggregate, hash: Hash)
    requires DecimalValue(row.total).Ok? && StorageResult(DecimalValue(row.total).value).Ok?
    ensures row.fingerprint.None? ==>
              AggregateFromMapping(row, hash)
              == Ok(TotalRecord(row.facts, StorageResult(DecimalValue(row.total).value).value))
    ensures row.fingerprint.Some? && (exists d :: d in row.derived && d !in row.facts) ==>
              AggregateFromMapping(row, hash) == Err(InvalidUsageResult)
    ensures AggregateFromMapping(row, hash).Ok? && row.fingerprint.Some? ==>
              forall d :: d in row.derived ==> d in row.facts
  {
    hide TotalFingerprint, RestoreTotal, TotalContent, Storable, InDomain;
  }

  lemma FindTotalFailsWith(content: seq<Entry>, texts: seq<Option<string>>, expected: string, hash: Hash)
    requires FindTotal(content, texts, expected, hash).Err?
    requires forall t :: t in texts ==> CanonicalText(Obj(Substitute(content, Total(t)))).Ok?
    ensures FindTotal(content, texts, expected, hash).error == InvalidUsageResult
  {
    hide CanonicalText, Substitute, Total;
    if texts != [] {
      assert texts[0] in texts;
    }
  }

  /** Why an aggregate row cannot be read. */
  lemma TotalReadFailsWith(row: StoredAggregate, hash: Hash)
    requires Facts(row.facts, {TOTAL}) && AggregateFromMapping(row, hash).Err?
    ensures var error, parsed := AggregateFromMapping(row, hash).error, DecimalValue(row.total);
            if parsed.Err? then error == InvalidUsage
            else if StorageResult(parsed.value).Err? then error == StorageResult(parsed.value).error
            else if exists d :: d in row.derived && d !in row.facts then error == InvalidUsageResult
            else
              var a := TotalRecord(row.facts, StorageResult(parsed.value).value);
              if NormalForm(Obj(TotalContent(a)), 0).Err? then error == NormalForm(Obj(TotalContent(a)), 0).error
              else error == InvalidUsageResult
  {
    hide TotalContent, NormalForm, DecimalText, RestoreTotal, Storable, InDomain, SameNumber, Facts, StorageResult;
    var parsed := DecimalValue(row.total);
    if parsed.Ok? && StorageResult(parsed.value).Ok? && row.fingerprint.Some? {
      ConstructsStorable(row);
      var a := TotalRecord(row.facts, StorageResult(parsed.value).value);
      if NormalForm(Obj(TotalContent(a)), 0).Ok? && TotalFingerprint(a, hash) != Ok(row.fingerprint.value) {
        SearchFailsWith(a, row.fingerprint.value, hash);
        if RestoreTotal(TotalContent(a), row.fingerprint.value, hash).Ok? {
          RestoredTotalIsSound(a, row.fingerprint.value, hash);
        }
      }
    }
  }

  lemma SearchFailsWith(a: TotalRecord, expected: string, hash: Hash)
    requires TotalWellformed(a) && NormalForm(Obj(TotalContent(a)), 0).Ok?
    ensures RestoreTotal(TotalContent(a), expected, hash).Err? ==>
              RestoreTotal(TotalContent(a), expected, hash).error == InvalidUsageResult
  {
    hide TotalContent, Substitute, DecimalText, Candidates, Shown, NormalForm, Print, Storable, InDomain, Keys,
        SameNumber, FieldNumber, CanonicalText, FindTotal;
    TotalNumber(a);
    SameAsItself(a.total);
    ShownInDomain(a.total, a.total);
    CandidatesAreComplete(Shown(a.total), a.total, false);
    CandidatesAccepted(a);
    var texts := Candidates(Some(Shown(a.total)), false).value;
    if FindTotal(TotalContent(a), texts, expected, hash).Err? {
      FindTotalFailsWith(TotalContent(a), texts, expected, hash);
    }
  }

  lemma SameAsItself(d: Decimal)
    ensures SameNumber(d, d)
  {
  }

  lemma TotalPrint(a: TotalRecord, b: TotalRecord, hash: Hash)
    requires TotalWellformed(a) && TotalWellformed(b) && a.facts == b.facts && NormalForm(Obj(TotalContent(a)), 0).Ok?
    ensures TotalFingerprint(b, hash)
            == Ok(hash(Print(Obj(Substitute(Normalized(TotalContent(a)), Total(Some(DecimalText(b.total))))))))
  {
    hide TotalContent, Substitute, NormalForm, DecimalText, BoundedText, Storable, InDomain, Print;
    TotalSubstitute(a, b);
    PrintedIsBounded(b.total);
    NormalSubstitute(TotalContent(a), Total(Some(DecimalText(b.total))));
  }

  lemma TotalIsKey(a: TotalRecord)
    requires TotalWellformed(a) && NormalForm(Obj(TotalContent(a)), 0).Ok?
    ensures TOTAL in Keys(Normalized(TotalContent(a)))
  {
    hide NormalForm, DecimalText, Storable, InDomain;
    var c, n := TotalContent(a), |a.facts|;
    forall i | 0 <= i < |c| ensures Keys(c)[i] == if i < n then Keys(a.facts)[i] else TOTAL {
    }
    assert forall i :: 0 <= i < n ==> Keys(a.facts)[i] == a.facts[i].key;
    assert Keys(c)[n] == TOTAL;
    NormalizedEntries(c);
  }

  /** With a collision-free hash, a fingerprint over given facts fixes the total's text. */
  lemma TotalFingerprintFixesText(a: TotalRecord, b: TotalRecord, hash: Hash)
    requires Injective(hash) && TotalWellformed(a) && TotalWellformed(b) && a.facts == b.facts
    requires TotalFingerprint(a, hash).Ok? && TotalFingerprint(a, hash) == TotalFingerprint(b, hash)
    ensures DecimalText(a.total) == DecimalText(b.total)
  {
    hide TotalContent, Substitute, NormalForm, DecimalText, Storable, InDomain, Print, Keys, TotalFingerprint,
        Normalized;
    assert NormalForm(Obj(TotalContent(a)), 0).Ok? by { FingerprintedIsNormal(a, hash); }
    TotalPrint(a, a, hash);
    TotalPrint(a, b, hash);
    TotalIsKey(a);
    var n := Normalized(TotalContent(a));
    var x, y := Total(Some(DecimalText(a.total))), Total(Some(DecimalText(b.total)));
    PrintInjective(Obj(Substitute(n, x)), Obj(Substitute(n, y)));
    FieldAfter(n, x, y, TOTAL);
  }

  lemma FingerprintedIsNormal(a: TotalRecord, hash: Hash)
    requires TotalFingerprint(a, hash).Ok?
    ensures NormalForm(Obj(TotalContent(a)), 0).Ok?
  {
  }

  /** `row` stores `a` with its total re-padded in any way that keeps it equal. */
  ghost predicate RepaddedTotal(row: StoredAggregate, a: TotalRecord, hash: Hash) {
    && row.facts == a.facts
    && (forall i :: 0 <= i < |row.derived| ==> row.derived[i] in row.facts)
    && InDomain(row.total) && SameNumber(a.total, row.total)
    && TotalFingerprint(a, hash).Ok? && row.fingerprint == Some(TotalFingerprint(a, hash).value)
  }

  lemma PaddedTotalConstructs(a: TotalRecord, row: StoredAggregate, hash: Hash)
    requires TotalWellformed(a) && RepaddedTotal(row, a, hash)
    ensures DecimalValue(row.total).Ok?
    ensures var d := DecimalValue(row.total).value;
            StorageResult(d) == Ok(d) && TotalWellformed(TotalRecord(row.facts, d)) && SameNumber(a.total, d)
  {
    hide TotalContent, SameNumber, Storable, InDomain, Keys, Unique, TotalFingerprint;
    DecimalValueKeeps(row.total);
    var d := DecimalValue(row.total).value;
    SameNumberSymmetric(d, row.total);
    SameNumberTransitive(a.total, row.total, d);
    StaysStorable(a.total, d);
  }

  /** The search over the padded total finds the original text. */
  lemma TotalSearchFindsOriginal(a: TotalRecord, d: TotalRecord, hash: Hash)
    requires Injective(hash) && TotalWellformed(a) && TotalWellformed(d) && a.facts == d.facts
            && SameNumber(a.total, d.total)
    requires TotalFingerprint(a, hash).Ok? && NormalForm(Obj(TotalContent(d)), 0).Ok?
    ensures RestoreTotal(TotalContent(d), TotalFingerprint(a, hash).value, hash).Ok?
  {
    hide TotalContent, Substitute, DecimalText, Candidates, Shown, NormalForm, Print, Storable, InDomain, Keys,
        SameNumber, FieldNumber, CanonicalText;
    TotalNumber(d);
    ShownInDomain(a.total, d.total);
    CandidatesAreComplete(Shown(d.total), a.total, false);
    CandidatesAccepted(d);
    var texts := Candidates(Some(Shown(d.total)), false).value;
    FindTotalLaw(d, texts, TotalFingerprint(a, hash).value, hash);
    TotalSubstitute(d, a);
    assert Some(DecimalText(a.total)) in texts;
  }

  /** Reading a re-padded aggregate gives back the original total text, hence the original dictionary. */
  lemma TotalRecoveryIsComplete(a: TotalRecord, row: StoredAggregate, hash: Hash)
    requires Injective(hash) && TotalWellformed(a) && RepaddedTotal(row, a, hash)
    ensures AggregateFromMapping(row, hash).Ok?
    ensures TotalContent(AggregateFromMapping(row, hash).value) == TotalContent(a)
  {
    hide NormalForm, SameNumber, RestoreTotal, Storable, InDomain, DecimalText, TotalFingerprint, StorageResult, Keys,
        Injective;
    PaddedTotalConstructs(a, row, hash);
    var d := TotalRecord(row.facts, DecimalValue(row.total).value);
    FingerprintedIsNormal(a, hash);
    AcceptedAlike(a, d);
    TotalPrint(d, d, hash);
    if TotalFingerprint(d, hash) == TotalFingerprint(a, hash) {
      TotalFingerprintFixesText(d, a, hash);
    } else {
      TotalSearchFindsOriginal(a, d, hash);
      RestoredTotalIsSound(d, TotalFingerprint(a, hash).value, hash);
      var total := RestoreTotal(TotalContent(d), TotalFingerprint(a, hash).value, hash).value.value;
      TotalFingerprintFixesText(TotalRecord(a.facts, total), a, hash);
    }
  }
}
