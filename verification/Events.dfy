/** Usage events: construction rules, normalization under a meter, and the content a fingerprint covers. */
module Events {
  import opened Prelude
  import opened Canonical
  import opened Decimals
  import opened Texts
  import opened Recovery
  import opened Meters
  import StoredRecords

  /** One entry of a string mapping; mappings are kept in key order. */
  datatype Label = Label(name: string, text: string)

  type Labels = seq<Label>

  datatype Event = Event(
    eventId: string,
    scope: Labels,
    subjectId: string,
    meterId: string,
    meterVersion: int,
    start: int,
    end: int,
    value: Decimal,
    unit: string,
    dimensions: Labels,
    source: string,
    recordedAt: int,
    correctionOf: Option<string>,
    correctionReason: Option<string>,
    correlation: Labels,
    provenance: Labels,
    originalValue: Option<Decimal>,
    originalUnit: Option<string>)

  function Names(labels: Labels): set<string> {
    set l <- labels :: l.name
  }

  // ---- Construction ----

  /** The constructor: canonical numbers, and the rules for ordinary and correcting events. */
  function Construct(e: Event): Result<Event> {
    if e.meterVersion < 1 || e.start >= e.end then Err(InvalidUsage)
    else
      var value :- DecimalValue(e.value);
      if e.correctionOf.None? && Signed(value) < 0 then Err(InvalidCorrection)
      else if e.correctionOf.None? && e.correctionReason.Some? then Err(InvalidCorrection)
      else if e.correctionOf == Some(e.eventId) then Err(InvalidCorrection)
      else if e.correctionOf.Some? && e.correctionReason.None? then Err(InvalidCorrection)
      else
        var original :- StoredRecords.OptionalValue(e.originalValue);
        if original.None? != e.originalUnit.None? then Err(InvalidUsage)
        else Ok(e.(value := value, originalValue := original))
  }

  /** Ordinary events are not negative and give no reason; corrections give one and correct another event. */
  predicate CorrectionRulesHold(e: Event) {
    if e.correctionOf.None? then Signed(e.value) >= 0 && e.correctionReason.None?
    else e.correctionOf.value != e.eventId && e.correctionReason.Some?
  }

  /** Which events can be constructed at all, and why others cannot. */
  lemma ConstructsExactly(e: Event)
    ensures Construct(e).Ok?
            <==> && e.meterVersion >= 1 && e.start < e.end
                 && InDomain(e.value) && (e.originalValue.Some? ==> InDomain(e.originalValue.value))
                 && (e.originalValue.Some? <==> e.originalUnit.Some?)
                 && CorrectionRulesHold(e)
    ensures Construct(e).Err? ==>
              Construct(e).error
              == if e.meterVersion < 1 || e.start >= e.end || !InDomain(e.value) then InvalidUsage
                 else if CorrectionRulesHold(e) then InvalidUsage
                 else InvalidCorrection
    ensures Construct(e).Ok? ==>
              var c := Construct(e).value;
              && c == e.(value := c.value, originalValue := c.originalValue)
              && Accepted(c.value) && SameNumber(c.value, e.value)
              && StoredRecords.SameOptional(c.originalValue, e.originalValue)
  {
    hide SameNumber, InDomain, Accepted;
    if InDomain(e.value) {
      DecimalValueKeeps(e.value);
    }
    if e.originalValue.Some? && InDomain(e.originalValue.value) {
      DecimalValueKeeps(e.originalValue.value);
    }
  }

  // ---- Normalization ----

  predicate Active(m: Meter, instant: int) {
    m.activeFrom <= instant && (m.retiredAt.None? || instant < m.retiredAt.value)
  }

  predicate AcceptsWindow(m: Meter, start: int, end: int) {
    Active(m, start) && (m.retiredAt.None? || end <= m.retiredAt.value)
  }

  /** A window is accepted exactly when the meter is active at every instant of it. */
  lemma AcceptedExactlyWhileActive(m: Meter, start: int, end: int)
    requires start < end
    ensures AcceptsWindow(m, start, end) <==> forall t :: start <= t < end ==> Active(m, t)
    ensures AcceptsWindow(m, start, end)
            <==> m.activeFrom <= start && (m.retiredAt.Some? ==> end <= m.retiredAt.value)
  {
    if !AcceptsWindow(m, start, end) {
      assert !Active(m, start) || !Active(m, end - 1);
    }
  }

  predicate DimensionsFit(m: Meter, dimensions: Labels) {
    Names(dimensions) <= m.required + m.optional && m.required <= Names(dimensions)
  }

  function Original(e: Event): Decimal {
    if e.originalValue.None? then e.value else e.originalValue.value
  }

  /** The event that normalization constructs. */
  function Converted(e: Event, value: Decimal, unit: string): Event {
    e.(value := value,
       unit := unit,
       originalValue := Some(Original(e)),
       originalUnit := Some(if e.originalUnit.None? then e.unit else e.originalUnit.value))
  }

  function Normalized(e: Event, m: Meter): Result<Event> {
    if (e.meterId, e.meterVersion) != (m.meterId, m.version) then Err(InvalidUsage)
    else if !AcceptsWindow(m, e.start, e.end) then Err(InactiveMeter)
    else if e.end - e.recordedAt > m.tolerance then Err(InvalidUsage)
    else if !DimensionsFit(m, e.dimensions) then Err(DimensionViolation)
    else
      var _ :- StorageResult(Original(e));
      var value :- m.Normalize(e.value, e.unit);
      Construct(Converted(e, value, m.canonicalUnit))
  }

  /** An event without correlation takes the ambient one. */
  function WithCapturedCorrelation(e: Event, ambient: Labels): Event {
    if e.correlation != [] then e else e.(correlation := ambient)
  }

  function NormalizeEvent(e: Event, m: Meter, ambient: Labels): Result<Event> {
    Normalized(WithCapturedCorrelation(e, ambient), m)
  }

  /** What a meter leaves in an event: at most 18 decimals and 58 integer digits, never a positive exponent. */
  predicate Metered(d: Decimal) {
    && Accepted(d) && Storable(d)
    && -STORED_SCALE <= d.exp <= 0
  }

  ghost predicate AllMetered(events: seq<Event>) {
    forall i :: 0 <= i < |events| ==> Metered(events[i].value)
  }

  /** An event that normalization under a valid meter returned. */
  ghost predicate IsNormalized(e: Event) {
    exists raw, m: Meter, ambient ::
      m.Valid() && Constructed(raw) && NormalizeEvent(raw, m, ambient) == Ok(e)
  }

  /** Numbers of a normalized event. */
  ghost predicate Recordable(e: Event) {
    && Metered(e.value)
    && e.originalValue.Some? && Accepted(e.originalValue.value) && Storable(e.originalValue.value)
    && e.originalUnit.Some?
  }

  lemma NormalizedMeets(m: Meter, value: Decimal, unit: string)
    requires m.Valid() && m.Normalize(value, unit).Ok?
    requires DecimalValue(m.Normalize(value, unit).value).Ok?
    ensures Metered(DecimalValue(m.Normalize(value, unit).value).value)
  {
    NormalizedIsStorable(m, value, unit);
    DecimalValueKeeps(m.Normalize(value, unit).value);
  }

  /** An event object: the constructor returns it as it is. */
  predicate Constructed(e: Event) {
    Construct(e) == Ok(e)
  }

  lemma ConstructingAgain(e: Event)
    requires Construct(e).Ok?
    ensures Constructed(Construct(e).value)
  {
    hide SameNumber;
    DecimalValueKeeps(e.value);
    if e.originalValue.Some? {
      DecimalValueKeeps(e.originalValue.value);
    }
  }

  /** What normalization leaves unchanged, and where its value comes from. */
  lemma NormalizedFields(e: Event, m: Meter)
    requires m.Valid() && Constructed(e) && Normalized(e, m).Ok?
    ensures var n := Normalized(e, m).value;
            && Constructed(n)
            && StorageResult(Original(e)).Ok?
            && m.Normalize(e.value, e.unit).Ok?
            && DecimalValue(m.Normalize(e.value, e.unit).value) == Ok(n.value)
            && n.originalValue == Some(Original(e))
            && Original(e) == (if e.originalValue.Some? then e.originalValue.value else e.value)
            && n.originalUnit == Some(if e.originalUnit.Some? then e.originalUnit.value else e.unit)
            && n == e.(value := n.value, unit := m.canonicalUnit,
                       originalValue := n.originalValue, originalUnit := n.originalUnit)
            && AcceptsWindow(m, e.start, e.end) && e.end - e.recordedAt <= m.tolerance && DimensionsFit(m, e.dimensions)
  {
    hide StorageResult, SameNumber, Signed, InDomain, AcceptsWindow, DimensionsFit;
    var value := m.Normalize(e.value, e.unit).value;
    ConstructingAgain(Converted(e, value, m.canonicalUnit));
    AcceptedOriginal(e);
  }

  /** What was reported accounts for what is stored: the original value in the original unit converts to the value. */
  lemma OriginalAccountsForValue(e: Event, m: Meter)
    requires m.Valid() && Constructed(e) && Normalized(e, m).Ok? && e.originalValue.None?
    ensures var n := Normalized(e, m).value;
            && n.originalValue == Some(e.value) && n.originalUnit == Some(e.unit)
            && m.Normalize(n.originalValue.value, n.originalUnit.value).Ok?
            && DecimalValue(m.Normalize(n.originalValue.value, n.originalUnit.value).value) == Ok(n.value)
  {
    hide Normalized, Construct, Meter.Normalize;
    NormalizedFields(e, m);
    OriginalsTogether(e);
  }

  lemma OriginalsTogether(e: Event)
    requires Constructed(e)
    ensures e.originalValue.None? <==> e.originalUnit.None?
  {
    hide DecimalValue, Signed;
  }

  lemma NormalizedUnfolded(e: Event, m: Meter)
    ensures Normalized(e, m).Ok?
            <==> && e.meterId == m.meterId && e.meterVersion == m.version
                 && AcceptsWindow(m, e.start, e.end)
                 && e.end <= e.recordedAt + m.tolerance
                 && m.required <= Names(e.dimensions) <= m.required + m.optional
                 && StorageResult(Original(e)).Ok?
                 && m.Normalize(e.value, e.unit).Ok?
                 && Construct(Converted(e, m.Normalize(e.value, e.unit).value, m.canonicalUnit)).Ok?
  {
    hide StorageResult, AcceptsWindow, Construct, Meter.Normalize;
  }

  /** Which events a meter normalizes. */
  lemma NormalizesExactly(e: Event, m: Meter)
    requires m.Valid() && Constructed(e)
    ensures Normalized(e, m).Ok?
            <==> && e.meterId == m.meterId && e.meterVersion == m.version
                 && m.activeFrom <= e.start && (m.retiredAt.Some? ==> e.end <= m.retiredAt.value)
                 && e.end <= e.recordedAt + m.tolerance
                 && m.required <= Names(e.dimensions) <= m.required + m.optional
                 && StorageResult(Original(e)).Ok?
                 && m.Normalize(e.value, e.unit).Ok?
                 && (e.correctionOf.None? ==> Signed(m.Normalize(e.value, e.unit).value) >= 0)
  {
    hide *;
    WindowIsNonempty(e);
    AcceptedExactlyWhileActive(m, e.start, e.end);
    AcceptedOriginal(e);
    NormalizedUnfolded(e, m);
    if m.Normalize(e.value, e.unit).Ok? {
      NormalizedIsStorable(m, e.value, e.unit);
      ReconstructsWhen(e, m.Normalize(e.value, e.unit).value, m.canonicalUnit);
    }
  }

  /** The first thing that is wrong with an event names the error. */
  lemma NormalizationFailsWith(e: Event, m: Meter)
    requires m.Valid() && Constructed(e) && Normalized(e, m).Err?
    ensures Normalized(e, m).error
            == if e.meterId != m.meterId || e.meterVersion != m.version then InvalidUsage
               else if e.start < m.activeFrom || (m.retiredAt.Some? && m.retiredAt.value < e.end) then InactiveMeter
               else if e.end > e.recordedAt + m.tolerance then InvalidUsage
               else if !(m.required <= Names(e.dimensions) <= m.required + m.optional) then DimensionViolation
               else if StorageResult(Original(e)).Err? then DecimalOverflow
               else if m.Normalize(e.value, e.unit).Err? then m.Normalize(e.value, e.unit).error
               else InvalidCorrection
  {
    hide *;
    WindowIsNonempty(e);
    AcceptedExactlyWhileActive(m, e.start, e.end);
    AcceptedOriginal(e);
    FailsFirst(e, m);
    NormalizedUnfolded(e, m);
    if StorageResult(Original(e)).Err? {
      OriginalOverflows(Original(e));
    }
    if m.Normalize(e.value, e.unit).Ok? {
      NormalizedIsStorable(m, e.value, e.unit);
      ReconstructionFailsWith(e, m.Normalize(e.value, e.unit).value, m.canonicalUnit);
    }
  }

  /** No error of normalization speaks of an unregistered meter. */
  lemma NormalizationKnowsMeter(e: Event, m: Meter)
    requires m.Valid() && Constructed(e)
    ensures Normalized(e, m) != Err(UnknownMeter)
  {
    hide *;
    if Normalized(e, m).Err? {
      NormalizationFailsWith(e, m);
      if m.Normalize(e.value, e.unit).Err? {
        ConversionFailsWith(m, e);
      }
    }
  }

  lemma ConversionFailsWith(m: Meter, e: Event)
    requires m.Valid() && Constructed(e) && m.Normalize(e.value, e.unit).Err?
    ensures m.Normalize(e.value, e.unit).error in {UnitMismatch, DecimalOverflow}
  {
    hide Meter.Normalize, Construct;
    ValueInDomain(e);
    Meters.NormalizesExactly(m, e.value, e.unit);
  }

  lemma ValueInDomain(e: Event)
    requires Constructed(e)
    ensures InDomain(e.value)
  {
  }

  lemma FailsFirst(e: Event, m: Meter)
    requires Normalized(e, m).Err?
    ensures Normalized(e, m).error
            == if e.meterId != m.meterId || e.meterVersion != m.version then InvalidUsage
               else if !AcceptsWindow(m, e.start, e.end) then InactiveMeter
               else if e.end > e.recordedAt + m.tolerance then InvalidUsage
               else if !(m.required <= Names(e.dimensions) <= m.required + m.optional) then DimensionViolation
               else if StorageResult(Original(e)).Err? then StorageResult(Original(e)).error
               else if m.Normalize(e.value, e.unit).Err? then m.Normalize(e.value, e.unit).error
               else Construct(Converted(e, m.Normalize(e.value, e.unit).value, m.canonicalUnit)).error
  {
    hide StorageResult, AcceptsWindow, Construct, Meter.Normalize;
  }

  lemma OriginalOverflows(d: Decimal)
    requires DecimalValue(d) == Ok(d) && StorageResult(d).Err?
    ensures StorageResult(d).error == DecimalOverflow
  {
    hide Storable;
  }

  lemma ReconstructionFailsWith(e: Event, value: Decimal, unit: string)
    requires Constructed(e) && InDomain(value) && DecimalValue(Original(e)) == Ok(Original(e))
    ensures Construct(Converted(e, value, unit)).Err? ==>
              Construct(Converted(e, value, unit)).error == InvalidCorrection
  {
    hide SameNumber;
    ConstructsExactly(e);
    ConstructsExactly(Converted(e, value, unit));
  }

  lemma WindowIsNonempty(e: Event)
    requires Constructed(e)
    ensures e.start < e.end
  {
  }

  lemma ReconstructsWhen(e: Event, value: Decimal, unit: string)
    requires Constructed(e) && InDomain(value) && DecimalValue(Original(e)) == Ok(Original(e))
    ensures Construct(Converted(e, value, unit)).Ok? <==> (e.correctionOf.None? ==> Signed(value) >= 0)
  {
    hide SameNumber;
    ConstructsExactly(e);
    ConstructsExactly(Converted(e, value, unit));
  }

  lemma AcceptedOriginal(e: Event)
    requires Constructed(e)
    ensures DecimalValue(Original(e)) == Ok(Original(e))
  {
    hide Signed, InDomain;
  }

  lemma ReconstructsWith(n: Event, value: Decimal)
    requires Constructed(n) && DecimalValue(value) == Ok(n.value)
    ensures Construct(n.(value := value)) == Ok(n)
  {
    hide Signed, InDomain, DecimalValue;
  }

  /** Normalizing what was normalized, under the same meter, changes nothing: not even a text. */
  lemma NormalizedIsIdempotent(e: Event, m: Meter)
    requires m.Valid() && Constructed(e) && Normalized(e, m).Ok?
    ensures var n := Normalized(e, m).value;
            Constructed(n) && Normalized(n, m) == Ok(n)
  {
    hide StorageResult, Construct, DecimalValue, InDomain, AcceptsWindow, DimensionsFit;
    NormalizedFields(e, m);
    NormalizationIsIdempotent(m, e.value, e.unit);
    var n := Normalized(e, m).value;
    ReconstructsWith(n, m.Normalize(n.value, n.unit).value);
  }

  /** The same with the ambient correlation captured first, as recording does, if it is held constant. */
  lemma NormalizingAgainChangesNothing(e: Event, m: Meter, ambient: Labels)
    requires m.Valid() && Constructed(e) && NormalizeEvent(e, m, ambient).Ok?
    ensures var n := NormalizeEvent(e, m, ambient).value;
            Constructed(n) && NormalizeEvent(n, m, ambient) == Ok(n)
  {
    hide Normalized, Construct;
    var c := WithCapturedCorrelation(e, ambient);
    CapturedIsConstructed(e, ambient);
    NormalizedIsIdempotent(c, m);
    KeepsCorrelation(c, m);
  }

  /** Nothing in normalization looks at the correlation. */
  lemma CorrelationIsCarried(e: Event, m: Meter, correlation: Labels)
    requires Normalized(e, m).Ok?
    ensures Normalized(e.(correlation := correlation), m) == Ok(Normalized(e, m).value.(correlation := correlation))
  {
    hide StorageResult, DecimalValue, Signed, AcceptsWindow, DimensionsFit;
  }

  lemma CapturedIsConstructed(e: Event, ambient: Labels)
    requires Constructed(e)
    ensures Constructed(WithCapturedCorrelation(e, ambient))
  {
    hide DecimalValue, Signed;
  }

  lemma KeepsCorrelation(e: Event, m: Meter)
    requires m.Valid() && Constructed(e) && Normalized(e, m).Ok?
    ensures Normalized(e, m).value.correlation == e.correlation
  {
    hide Normalized, Construct;
    NormalizedFields(e, m);
  }

  lemma StoredOriginal(d: Decimal)
    requires StorageResult(d).Ok? && DecimalValue(d) == Ok(d)
    ensures Accepted(d) && Storable(d)
  {
    hide SameNumber;
    StorageKeeps(d);
    StorageKeepsText(d);
  }

  lemma OrdinaryIsNotNegative(n: Event)
    requires Constructed(n)
    ensures n.correctionOf.None? ==> Signed(n.value) >= 0
  {
  }

  lemma RecordableParts(n: Event, original: Decimal)
    requires Metered(n.value) && Accepted(original) && Storable(original)
    requires n.originalValue == Some(original) && n.originalUnit.Some?
    ensures Recordable(n)
  {
  }

  /** Every normalized event is recordable; ordinary ones never carry a negative value. */
  lemma NormalizedIsRecordable(e: Event, m: Meter)
    requires m.Valid() && Constructed(e) && Normalized(e, m).Ok?
    ensures Recordable(Normalized(e, m).value)
    ensures e.correctionOf.None? ==> Signed(Normalized(e, m).value.value) >= 0
  {
    hide *;
    NormalizedFields(e, m);
    OrdinaryIsNotNegative(Normalized(e, m).value);
    NormalizedMeets(m, e.value, e.unit);
    AcceptedOriginal(e);
    StoredOriginal(Original(e));
    RecordableParts(Normalized(e, m).value, Original(e));
  }

  lemma NormalizedIsMetered(e: Event)
    requires IsNormalized(e)
    ensures Metered(e.value)
  {
    hide Metered, Construct, Normalized;
    var raw, m: Meter, ambient :| m.Valid() && Constructed(raw) && NormalizeEvent(raw, m, ambient) == Ok(e);
    CapturedIsConstructed(raw, ambient);
    NormalizedIsRecordable(WithCapturedCorrelation(raw, ambient), m);
  }

  lemma StorageKeepsText(d: Decimal)
    requires StorageResult(d).Ok? && DecimalValue(d) == Ok(d)
    ensures StorageResult(d) == Ok(d)
  {
  }

  // ---- Content ----

  function LabelEntries(labels: Labels): seq<Entry> {
    seq(|labels|, i requires 0 <= i < |labels| => Entry(labels[i].name, Str(labels[i].text)))
  }

  function LabelsJson(labels: Labels): Json {
    Obj(LabelEntries(labels))
  }

  function Digest(v: Json, hash: Hash): string {
    hash(Print(v))
  }

  function DimensionDigest(e: Event, hash: Hash): string {
    Digest(LabelsJson(e.dimensions), hash)
  }

  function ScopeDigest(e: Event, hash: Hash): string {
    Digest(LabelsJson(e.scope), hash)
  }

  function IdempotencyKey(e: Event, hash: Hash): string {
    var scope := Entry("scopeFingerprint", Str(ScopeDigest(e, hash)));
    Digest(Obj([Entry("eventId", Str(e.eventId)), scope]), hash)
  }

  /** `to_dict` without the fingerprint, in key order; instants are microseconds. */
  function ToDict(e: Event, hash: Hash): Json {
    Obj([
      Entry("correctionOf", AsJson(e.correctionOf)),
      Entry("correctionReason", AsJson(e.correctionReason)),
      Entry("correlation", LabelsJson(e.correlation)),
      Entry("dimensionFingerprint", Str(DimensionDigest(e, hash))),
      Entry("dimensions", LabelsJson(e.dimensions)),
      Entry("eventId", Str(e.eventId)),
      Entry("idempotencyKey", Str(IdempotencyKey(e, hash))),
      Entry("meterId", Str(e.meterId)),
      Entry("meterVersion", Int(e.meterVersion)),
      Entry("originalUnit", AsJson(e.originalUnit)),
      Entry("originalValue", AsJson(StoredRecords.TextOf(e.originalValue))),
      Entry("provenance", LabelsJson(e.provenance)),
      Entry("recordedAt", Int(e.recordedAt)),
      Entry("schemaVersion", Str("1.0.0")),
      Entry("scope", LabelsJson(e.scope)),
      Entry("scopeFingerprint", Str(ScopeDigest(e, hash))),
      Entry("source", Str(e.source)),
      Entry("subjectId", Str(e.subjectId)),
      Entry("unit", Str(e.unit)),
      Entry("value", Str(DecimalText(e.value))),
      Entry("windowEnd", Int(e.end)),
      Entry("windowStart", Int(e.start))
    ])
  }

  function Fingerprint(e: Event, hash: Hash): string {
    Digest(ToDict(e, hash), hash)
  }

  lemma LabelsJsonInjective(a: Labels, b: Labels)
    requires LabelsJson(a) == LabelsJson(b)
    ensures a == b
  {
    var x, y := LabelEntries(a), LabelEntries(b);
    assert |a| == |x| == |y| == |b|;
    forall i | 0 <= i < |a| ensures a[i] == b[i] {
      assert x[i] == y[i];
    }
  }

  lemma DigestInjective(a: Json, b: Json, hash: Hash)
    requires Injective(hash) && Digest(a, hash) == Digest(b, hash)
    ensures a == b
  {
    PrintInjective(a, b);
  }

  lemma TextsFixMetered(a: Decimal, b: Decimal)
    requires Metered(a) && Metered(b) && DecimalText(a) == DecimalText(b)
    ensures a == b
  {
    StoredRecords.ParsePrinted(a);
    StoredRecords.ParsePrinted(b);
  }

  lemma AsJsonInjective(a: Option<string>, b: Option<string>)
    requires AsJson(a) == AsJson(b)
    ensures a == b
  {
  }

  lemma DictionaryFixesLabels(a: Event, b: Event, hash: Hash)
    requires ToDict(a, hash) == ToDict(b, hash)
    ensures a.scope == b.scope && a.dimensions == b.dimensions && a.correlation == b.correlation
            && a.provenance == b.provenance
  {
    hide LabelsJson, AsJson, Digest, DecimalText;
    var x, y := ToDict(a, hash).entries, ToDict(b, hash).entries;
    assert x[2].value == y[2].value && x[4].value == y[4].value && x[11].value == y[11].value
        && x[14].value == y[14].value;
    LabelsJsonInjective(a.correlation, b.correlation);
    LabelsJsonInjective(a.dimensions, b.dimensions);
    LabelsJsonInjective(a.provenance, b.provenance);
    LabelsJsonInjective(a.scope, b.scope);
  }

  lemma DictionaryFixesOptions(a: Event, b: Event, hash: Hash)
    requires ToDict(a, hash) == ToDict(b, hash)
    ensures a.correctionOf == b.correctionOf && a.correctionReason == b.correctionReason
            && a.originalUnit == b.originalUnit
    ensures StoredRecords.TextOf(a.originalValue) == StoredRecords.TextOf(b.originalValue)
  {
    hide LabelsJson, AsJson, Digest, DecimalText;
    var x, y := ToDict(a, hash).entries, ToDict(b, hash).entries;
    assert x[0].value == y[0].value && x[1].value == y[1].value && x[9].value == y[9].value
        && x[10].value == y[10].value;
    AsJsonInjective(a.correctionOf, b.correctionOf);
    AsJsonInjective(a.correctionReason, b.correctionReason);
    AsJsonInjective(a.originalUnit, b.originalUnit);
    AsJsonInjective(StoredRecords.TextOf(a.originalValue), StoredRecords.TextOf(b.originalValue));
  }

  lemma DictionaryFixesPlain(a: Event, b: Event, hash: Hash)
    requires ToDict(a, hash) == ToDict(b, hash)
    ensures a.eventId == b.eventId && a.meterId == b.meterId && a.meterVersion == b.meterVersion
            && a.recordedAt == b.recordedAt
    ensures a.source == b.source && a.subjectId == b.subjectId && a.unit == b.unit && a.start == b.start
            && a.end == b.end
    ensures DecimalText(a.value) == DecimalText(b.value)
  {
    hide LabelsJson, AsJson, Digest, DecimalText;
    var x, y := ToDict(a, hash).entries, ToDict(b, hash).entries;
    assert x[5].value == y[5].value && x[7].value == y[7].value && x[8].value == y[8].value
        && x[12].value == y[12].value;
    assert x[16].value == y[16].value && x[17].value == y[17].value && x[18].value == y[18].value;
    assert x[19].value == y[19].value && x[20].value == y[20].value && x[21].value == y[21].value;
  }

  /** A fingerprint fixes the event: every field, the value digit for digit, and the text of the original value. */
  lemma FingerprintFixesEvent(a: Event, b: Event, hash: Hash)
    requires Injective(hash) && Metered(a.value) && Metered(b.value)
    requires Fingerprint(a, hash) == Fingerprint(b, hash)
    ensures a == b.(originalValue := a.originalValue)
    ensures StoredRecords.TextOf(a.originalValue) == StoredRecords.TextOf(b.originalValue)
  {
    hide *;
    FingerprintFixesDict(a, b, hash);
    DictionaryFixesLabels(a, b, hash);
    DictionaryFixesOptions(a, b, hash);
    DictionaryFixesPlain(a, b, hash);
    TextsFixMetered(a.value, b.value);
  }

  lemma FingerprintFixesDict(a: Event, b: Event, hash: Hash)
    requires Injective(hash) && Fingerprint(a, hash) == Fingerprint(b, hash)
    ensures ToDict(a, hash) == ToDict(b, hash)
  {
    hide ToDict, Injective, Digest;
    DigestInjective(ToDict(a, hash), ToDict(b, hash), hash);
  }

  // ---- Storage ----

  /**
    A normalized event survives storage that re-pads its numbers: reading the padded row gives back its dictionary,
    digit for digit. `facts` are its other content fields.
   */
  lemma NormalizedSurvivesStorage(e: Event, m: Meter, facts: seq<Entry>, row: StoredRecords.StoredEvent, hash: Hash)
    requires Injective(hash) && m.Valid() && Constructed(e) && Normalized(e, m).Ok?
    requires StoredRecords.Facts(facts, {VALUE, ORIGINAL})
    requires StoredRecords.Repadded(row,
            StoredRecords.EventRecord(facts, Normalized(e, m).value.value, Normalized(e, m).value.originalValue), hash)
    ensures var n := Normalized(e, m).value;
            && StoredRecords.FromMapping(row, hash).Ok?
            && StoredRecords.Content(StoredRecords.FromMapping(row, hash).value)
               == StoredRecords.Content(StoredRecords.EventRecord(facts, n.value, n.originalValue))
  {
    hide *;
    NormalizedIsRecordable(e, m);
    var n := Normalized(e, m).value;
    RecordableRecord(n, facts);
    StoredRecords.RecoveryIsComplete(StoredRecords.EventRecord(facts, n.value, n.originalValue), row, hash);
  }

  lemma RecordableRecord(n: Event, facts: seq<Entry>)
    requires Recordable(n) && StoredRecords.Facts(facts, {VALUE, ORIGINAL})
    ensures StoredRecords.Recordable(StoredRecords.EventRecord(facts, n.value, n.originalValue))
  {
    hide Storable, InDomain;
  }
}
