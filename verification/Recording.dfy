/**
  Write-once recording. The event resource is the sequence of its rows in the order they were stored;
  a row is keyed by scope and event id.
 */
module Recording {
  import opened Prelude
  import opened Recovery
  import opened Meters
  import opened Events
  import opened Aggregation

  datatype Status = Recorded | Replayed

  datatype Receipt = Receipt(event: Event, status: Status)

  predicate SameKey(a: Event, b: Event) {
    a.scope == b.scope && a.eventId == b.eventId
  }

  /** `get_event`: at most one row has the key. */
  function Find(rows: seq<Event>, scope: Labels, eventId: string): (r: Option<Event>)
    ensures r.Some? ==> r.value in rows && r.value.scope == scope && r.value.eventId == eventId
    ensures r.None? ==> forall i :: 0 <= i < |rows| ==> rows[i].scope != scope || rows[i].eventId != eventId
  {
    if rows == [] then None
    else if rows[0].scope == scope && rows[0].eventId == eventId then Some(rows[0])
    else Find(rows[1..], scope, eventId)
  }

  /** A correction must stay in its target's subject, meter version, window and dimensions. */
  predicate SameDomain(a: Event, b: Event) {
    && a.subjectId == b.subjectId
    && a.meterId == b.meterId && a.meterVersion == b.meterVersion
    && a.start == b.start && a.end == b.end
    && a.dimensions == b.dimensions
  }

  /** `_validate_correction`. */
  predicate CorrectionHolds(rows: seq<Event>, e: Event) {
    e.correctionOf.None?
    || (var target := Find(rows, e.scope, e.correctionOf.value); target.Some? && SameDomain(e, target.value))
  }

  /** `record` of a normalized event on a store that nobody else is writing to. */
  function RecordNormalized(rows: seq<Event>, e: Event, hash: Hash): (seq<Event>, Result<Receipt>) {
    if !CorrectionHolds(rows, e) then (rows, Err(InvalidCorrection))
    else
      match Find(rows, e.scope, e.eventId)
      case Some(existing) =>
        if Fingerprint(existing, hash) != Fingerprint(e, hash) then (rows, Err(UsageConflict))
        else (rows, Ok(Receipt(existing, Replayed)))
      case None => (rows + [e], Ok(Receipt(e, Recorded)))
  }

  function Record(rows: seq<Event>, e: Event, m: Meter, ambient: Labels, hash: Hash): (seq<Event>, Result<Receipt>) {
    match NormalizeEvent(e, m, ambient)
    case Err(error) => (rows, Err(error))
    case Ok(n) => RecordNormalized(rows, n, hash)
  }

  // ---- What every store keeps ----

  ghost predicate UniqueKeys(rows: seq<Event>) {
    forall i, j :: 0 <= i < j < |rows| ==> !SameKey(rows[i], rows[j])
  }

  ghost predicate IsTarget(rows: seq<Event>, e: Event, j: int) {
    && 0 <= j < |rows|
    && e.correctionOf == Some(rows[j].eventId) && rows[j].scope == e.scope
    && SameDomain(e, rows[j])
  }

  ghost predicate HasTarget(rows: seq<Event>, e: Event) {
    e.correctionOf.Some? ==> exists j :: IsTarget(rows, e, j)
  }

  /** Every correction row follows a row that it corrects. */
  ghost predicate Forest(rows: seq<Event>) {
    forall i :: 0 <= i < |rows| ==> HasTarget(rows[..i], rows[i])
  }

  ghost predicate Sound(rows: seq<Event>) {
    UniqueKeys(rows) && Forest(rows)
  }

  lemma CorrectionHasTarget(rows: seq<Event>, e: Event)
    requires CorrectionHolds(rows, e)
    ensures HasTarget(rows, e)
  {
    if e.correctionOf.Some? {
      var target := Find(rows, e.scope, e.correctionOf.value).value;
      var j :| 0 <= j < |rows| && rows[j] == target;
      assert IsTarget(rows, e, j);
    }
  }

  lemma {:induction false} FindAt(rows: seq<Event>, j: nat)
    requires UniqueKeys(rows) && j < |rows|
    ensures Find(rows, rows[j].scope, rows[j].eventId) == Some(rows[j])
  {
    var found := Find(rows, rows[j].scope, rows[j].eventId);
    assert found.Some?;
    var k :| 0 <= k < |rows| && rows[k] == found.value;
    assert SameKey(rows[k], rows[j]) && SameKey(rows[j], rows[k]);
  }

  /**
    What a recording answers: a correction without a target is refused first; then a stored event under the key is
    replayed if it has the same fingerprint, and conflicts otherwise; then the event is appended.
   */
  lemma RecordAnswersExactly(rows: seq<Event>, e: Event, hash: Hash)
    requires UniqueKeys(rows)
    ensures var (after, r) := RecordNormalized(rows, e, hash);
            && (r == Err(InvalidCorrection) <==> !HasTarget(rows, e))
            && (r == Err(UsageConflict)
                <==> HasTarget(rows, e)
                     && exists x :: x in rows && SameKey(x, e) && Fingerprint(x, hash) != Fingerprint(e, hash))
            && (r.Ok? && r.value.status == Replayed
                <==> HasTarget(rows, e)
                     && exists x :: x in rows && SameKey(x, e) && Fingerprint(x, hash) == Fingerprint(e, hash))
            && (r.Ok? && r.value.status == Recorded
                <==> HasTarget(rows, e) && forall x :: x in rows ==> !SameKey(x, e))
            && (r.Ok? && r.value.status == Replayed ==> r.value.event in rows && SameKey(r.value.event, e))
            && (r.Ok? && r.value.status == Recorded ==> r.value.event == e && after == rows + [e])
            && (!(r.Ok? && r.value.status == Recorded) ==> after == rows)
  {
    hide Fingerprint, HasTarget, CorrectionHolds;
    TargetHolds(rows, e);
    if Find(rows, e.scope, e.eventId).Some? {
      var y := Find(rows, e.scope, e.eventId).value;
      forall x | x in rows && SameKey(x, e) ensures x == y {
        OneRow(rows, x, y);
      }
      assert SameKey(y, e);
    } else {
      forall x | x in rows ensures !SameKey(x, e) {
        var i :| 0 <= i < |rows| && rows[i] == x;
      }
    }
  }

  lemma OneRow(rows: seq<Event>, a: Event, b: Event)
    requires UniqueKeys(rows) && a in rows && b in rows && SameKey(a, b)
    ensures a == b
  {
    var i :| 0 <= i < |rows| && rows[i] == a;
    var j :| 0 <= j < |rows| && rows[j] == b;
    assert SameKey(rows[i], rows[j]) && SameKey(rows[j], rows[i]);
  }

  /** With unique keys, having a target is exactly what validation checks. */
  lemma TargetHolds(rows: seq<Event>, e: Event)
    requires UniqueKeys(rows)
    ensures CorrectionHolds(rows, e) <==> HasTarget(rows, e)
  {
    if CorrectionHolds(rows, e) {
      CorrectionHasTarget(rows, e);
    } else {
      if j :| IsTarget(rows, e, j) {
        FindAt(rows, j);
      }
    }
  }

  lemma HasTargetGrows(rows: seq<Event>, more: seq<Event>, e: Event)
    requires HasTarget(rows, e) && rows <= more
    ensures HasTarget(more, e)
  {
    if e.correctionOf.Some? {
      var j :| IsTarget(rows, e, j);
      assert IsTarget(more, e, j);
    }
  }

  lemma AppendKeepsSound(rows: seq<Event>, e: Event)
    requires Sound(rows) && HasTarget(rows, e) && Find(rows, e.scope, e.eventId).None?
    ensures Sound(rows + [e])
  {
    var more := rows + [e];
    forall i | 0 <= i < |more| ensures HasTarget(more[..i], more[i]) {
      assert more[..i] == rows[..i];
    }
  }

  /** One call: the store stays sound and append-only, and the receipt's event is stored under its own fingerprint. */
  lemma RecordKeeps(rows: seq<Event>, e: Event, hash: Hash)
    requires Sound(rows)
    ensures var (more, r) := RecordNormalized(rows, e, hash);
            && Sound(more) && rows <= more
            && (r.Err? ==> more == rows)
            && (r.Ok? ==> r.value.event in more && SameKey(r.value.event, e)
                          && Fingerprint(r.value.event, hash) == Fingerprint(e, hash))
  {
    hide Fingerprint;
    if CorrectionHolds(rows, e) {
      CorrectionHasTarget(rows, e);
      if Find(rows, e.scope, e.eventId).None? {
        AppendKeepsSound(rows, e);
      }
    }
  }

  // ---- Replays ----

  /** Two captures of one event have one fingerprint exactly when nothing was captured, or the same. */
  lemma CapturesAlike(n: Event, correlation: Labels, hash: Hash)
    requires Injective(hash) && Metered(n.value)
    ensures Fingerprint(n, hash) == Fingerprint(n.(correlation := correlation), hash) <==> correlation == n.correlation
  {
    hide Injective, Metered, Fingerprint;
    if Fingerprint(n, hash) == Fingerprint(n.(correlation := correlation), hash) {
      FingerprintFixesEvent(n, n.(correlation := correlation), hash);
    }
  }

  /**
    Recording an event again replays it exactly when it carries its own correlation or the ambient one is
    unchanged; otherwise it conflicts with itself. The store stays as it is either way.
   */
  lemma RerecordingReplays(rows: seq<Event>, e: Event, m: Meter, first: Labels, second: Labels, hash: Hash)
    requires Injective(hash) && m.Valid() && Constructed(e) && Sound(rows)
    requires Record(rows, e, m, first, hash).1.Ok? && Record(rows, e, m, first, hash).1.value.status == Recorded
    ensures var (stored, receipt) := Record(rows, e, m, first, hash);
            Record(stored, e, m, second, hash)
            == (stored, if e.correlation != [] || first == second then Ok(Receipt(receipt.value.event, Replayed))
                        else Err(UsageConflict))
  {
    hide Injective, Metered, Fingerprint, Events.Normalized, Sound, SameDomain, Construct;
    var a := WithCapturedCorrelation(e, first);
    CapturedIsConstructed(e, first);
    CorrelationIsCarried(a, m, if e.correlation != [] then e.correlation else second);
    KeepsCorrelation(a, m);
    var n := Events.Normalized(a, m).value;
    NormalizedIsRecordable(a, m);
    var again := WithCapturedCorrelation(e, second);
    assert NormalizeEvent(e, m, second) == Ok(n.(correlation := again.correlation));
    CapturesAlike(n, again.correlation, hash);
    StoredIsFound(rows, n, n.(correlation := again.correlation), hash);
  }

  lemma StoredIsFound(rows: seq<Event>, n: Event, again: Event, hash: Hash)
    requires Sound(rows) && RecordNormalized(rows, n, hash) == (rows + [n], Ok(Receipt(n, Recorded)))
    requires again == n.(correlation := again.correlation)
    ensures Find(rows + [n], n.scope, n.eventId) == Some(n) && CorrectionHolds(rows + [n], again)
  {
    hide Fingerprint, Forest;
    RecordKeeps(rows, n, hash);
    FindAt(rows + [n], |rows|);
    CorrectionHasTarget(rows, n);
    HasTargetGrows(rows, rows + [n], n);
    SameTarget(rows + [n], n, again);
    TargetHolds(rows + [n], again);
  }

  lemma SameTarget(rows: seq<Event>, n: Event, again: Event)
    requires HasTarget(rows, n) && again == n.(correlation := again.correlation)
    ensures HasTarget(rows, again)
  {
    if n.correctionOf.Some? {
      var j :| IsTarget(rows, n, j);
      assert IsTarget(rows, again, j);
    }
  }

  // ---- The correction forest ----

  /** The row that row `i` corrects. */
  ghost function Target(rows: seq<Event>, i: nat): (j: nat)
    requires Forest(rows) && i < |rows| && rows[i].correctionOf.Some?
    ensures j < i && IsTarget(rows, rows[i], j)
  {
    assert HasTarget(rows[..i], rows[i]);
    var j :| IsTarget(rows[..i], rows[i], j);
    assert IsTarget(rows, rows[i], j);
    j
  }

  /** Follow `correction_of` to its end; rows only ever point back in storage order. */
  ghost function Root(rows: seq<Event>, i: nat): (r: nat)
    requires Forest(rows) && i < |rows|
    ensures r <= i
    decreases i
  {
    if rows[i].correctionOf.None? then i else Root(rows, Target(rows, i))
  }

  /**
    Every correction chain ends at an ordinary event of the same scope, subject, meter version, window and dimensions.
   */
  lemma {:induction false} ChainsEnd(rows: seq<Event>, i: nat)
    requires Forest(rows) && i < |rows|
    ensures var r := Root(rows, i);
            && rows[r].correctionOf.None?
            && rows[r].scope == rows[i].scope && SameDomain(rows[i], rows[r])
            && rows[r].subjectId == rows[i].subjectId && rows[r].dimensions == rows[i].dimensions
            && rows[r].meterId == rows[i].meterId && rows[r].meterVersion == rows[i].meterVersion
            && rows[r].start == rows[i].start && rows[r].end == rows[i].end
    decreases i
  {
    if rows[i].correctionOf.Some? {
      ChainsEnd(rows, Target(rows, i));
    }
  }

  // ---- Concurrent writers ----

  datatype Call =
    | Validating(event: Event)
    | Checking(event: Event)
    | Putting(event: Event)
    | Rechecking(event: Event)
    | Done(event: Event, result: Result<Receipt>)

  /** The rows, and the calls so far by call number; a call that crashed just never moves again. */
  datatype Writers = Writers(rows: seq<Event>, calls: map<nat, Call>)

  function Compared(existing: Event, e: Event, hash: Hash): Result<Receipt> {
    if Fingerprint(existing, hash) != Fingerprint(e, hash) then Err(UsageConflict) else Ok(Receipt(existing, Replayed))
  }

  /** One atomic read or conditional put of one call: the rows after it and where the call goes next. */
  function Move(rows: seq<Event>, call: Call, hash: Hash): (seq<Event>, Call)
    requires !call.Done?
  {
    var e := call.event;
    match call
    case Validating(_) =>
      (rows, if CorrectionHolds(rows, e) then Checking(e) else Done(e, Err(InvalidCorrection)))
    case Checking(_) =>
      (rows, match Find(rows, e.scope, e.eventId)
             case Some(existing) => Done(e, Compared(existing, e, hash))
             case None => Putting(e))
    case Putting(_) =>
      if Find(rows, e.scope, e.eventId).Some? then (rows, Rechecking(e))
      else (rows + [e], Done(e, Ok(Receipt(e, Recorded))))
    case Rechecking(_) =>
      (rows, match Find(rows, e.scope, e.eventId)
             case Some(existing) => Done(e, Compared(existing, e, hash))
             case None => Done(e, Err(UsageConflict)))
  }

  ghost predicate AllNormalized(events: seq<Event>) {
    forall e :: e in events ==> IsNormalized(e)
  }

  /** A call normalizes its event before it looks at the store. */
  ghost predicate BeginStep(s: Writers, t: Writers, c: nat, e: Event) {
    c !in s.calls && IsNormalized(e) && t == s.(calls := s.calls[c := Validating(e)])
  }

  ghost predicate MoveStep(s: Writers, t: Writers, c: nat, hash: Hash) {
    && c in s.calls && !s.calls[c].Done?
    && var (rows, call) := Move(s.rows, s.calls[c], hash);
    && t == Writers(rows, s.calls[c := call])
  }

  /** An atomic batch commits the rows of all its events at once. */
  ghost predicate CommitStep(s: Writers, t: Writers, events: seq<Event>, hash: Hash) {
    && AllNormalized(events) && RecordAll(s.rows, events, hash).Ok?
    && t == s.(rows := RecordAll(s.rows, events, hash).value.0)
  }

  ghost predicate Next(s: Writers, t: Writers, hash: Hash) {
    || (exists c: nat, e: Event :: BeginStep(s, t, c, e))
    || (exists c: nat :: MoveStep(s, t, c, hash))
    || (exists events: seq<Event> :: CommitStep(s, t, events, hash))
  }

  ghost predicate Run(run: seq<Writers>, hash: Hash) {
    && run != [] && run[0] == Writers([], map[])
    && forall i :: 0 <= i < |run| - 1 ==> Next(run[i], run[i + 1], hash)
  }

  /** The transaction body of an atomic batch: stop at the first failure. */
  function RecordAll(rows: seq<Event>, events: seq<Event>, hash: Hash): Result<(seq<Event>, seq<Receipt>)>
    decreases |events|
  {
    if events == [] then Ok((rows, []))
    else
      var (more, first) := RecordNormalized(rows, events[0], hash);
      var receipt :- first;
      var rest :- RecordAll(more, events[1..], hash);
      Ok((rest.0, [receipt] + rest.1))
  }

  lemma {:induction false} RecordAllKeeps(rows: seq<Event>, events: seq<Event>, hash: Hash)
    requires Sound(rows) && RecordAll(rows, events, hash).Ok?
    ensures var (more, receipts) := RecordAll(rows, events, hash).value;
            && Sound(more) && rows <= more && |receipts| == |events|
            && forall i :: 0 <= i < |events| ==>
                 && receipts[i].event in more && SameKey(receipts[i].event, events[i])
                 && Fingerprint(receipts[i].event, hash) == Fingerprint(events[i], hash)
    decreases |events|
  {
    hide Fingerprint, RecordNormalized, Sound;
    if events != [] {
      RecordKeeps(rows, events[0], hash);
      RecordAllKeeps(RecordNormalized(rows, events[0], hash).0, events[1..], hash);
    }
  }

  /** What is known about one call. */
  ghost predicate CallHolds(rows: seq<Event>, call: Call, hash: Hash) {
    var e := call.event;
    match call
    case Validating(_) => true
    case Checking(_) => HasTarget(rows, e)
    case Putting(_) => HasTarget(rows, e)
    case Rechecking(_) => HasTarget(rows, e) && Find(rows, e.scope, e.eventId).Some?
    case Done(_, r) =>
      r.Ok? ==>
        && r.value.event in rows && SameKey(r.value.event, e)
        && Fingerprint(r.value.event, hash) == Fingerprint(e, hash)
        && (r.value.status == Recorded ==> r.value.event == e)
  }

  predicate Won(call: Call) {
    call.Done? && call.result.Ok? && call.result.value.status == Recorded
  }

  ghost predicate Invariant(s: Writers, hash: Hash) {
    && Sound(s.rows)
    && (forall c :: c in s.calls ==> CallHolds(s.rows, s.calls[c], hash))
    && forall c, d :: c in s.calls && d in s.calls && c != d && Won(s.calls[c]) && Won(s.calls[d]) ==>
                        !SameKey(s.calls[c].event, s.calls[d].event)
  }

  lemma FindGrows(rows: seq<Event>, more: seq<Event>, scope: Labels, eventId: string)
    requires rows <= more && Find(rows, scope, eventId).Some?
    ensures Find(more, scope, eventId).Some?
  {
    var x := Find(rows, scope, eventId).value;
    var i :| 0 <= i < |rows| && rows[i] == x;
    assert more[i] == x;
  }

  lemma CallHoldsGrows(rows: seq<Event>, more: seq<Event>, call: Call, hash: Hash)
    requires CallHolds(rows, call, hash) && rows <= more
    ensures CallHolds(more, call, hash)
  {
    hide Find, Fingerprint, HasTarget;
    if !call.Validating? && !call.Done? {
      HasTargetGrows(rows, more, call.event);
    }
    if call.Rechecking? {
      FindGrows(rows, more, call.event.scope, call.event.eventId);
    }
  }

  lemma MoveHolds(rows: seq<Event>, call: Call, hash: Hash)
    requires Sound(rows) && !call.Done? && CallHolds(rows, call, hash)
    ensures var (more, next) := Move(rows, call, hash);
            && rows <= more && Sound(more) && next.event == call.event
            && CallHolds(more, next, hash)
            && (Won(next) ==> Find(rows, call.event.scope, call.event.eventId).None?)
  {
    hide Fingerprint, HasTarget, Sound, Find;
    if call.Validating? && CorrectionHolds(rows, call.event) {
      CorrectionHasTarget(rows, call.event);
    }
    if call.Putting? && Find(rows, call.event.scope, call.event.eventId).None? {
      AppendKeepsSound(rows, call.event);
    }
  }

  /**
    Each call takes effect at one instant: the step that ends it does to the store, and returns to the caller,
    exactly what the whole call would do alone on the store of that moment.
   */
  lemma CallsAreAtomic(s: Writers, t: Writers, c: nat, hash: Hash)
    requires Invariant(s, hash) && MoveStep(s, t, c, hash) && t.calls[c].Done?
    ensures (t.rows, t.calls[c].result) == RecordNormalized(s.rows, s.calls[c].event, hash)
  {
    hide Fingerprint, Find, HasTarget, Forest;
    assert CallHolds(s.rows, s.calls[c], hash);
    TargetHolds(s.rows, s.calls[c].event);
  }

  lemma WinnerIsStored(rows: seq<Event>, call: Call, hash: Hash)
    requires CallHolds(rows, call, hash) && Won(call)
    ensures Find(rows, call.event.scope, call.event.eventId).Some?
  {
    hide Fingerprint;
  }

  lemma MoveKeepsInvariant(s: Writers, t: Writers, c: nat, hash: Hash)
    requires Invariant(s, hash) && MoveStep(s, t, c, hash)
    ensures Invariant(t, hash) && s.rows <= t.rows
  {
    hide Fingerprint, Find, HasTarget, Sound, CallHolds, Move;
    MoveHolds(s.rows, s.calls[c], hash);
    forall d | d in t.calls ensures CallHolds(t.rows, t.calls[d], hash) {
      if d != c {
        CallHoldsGrows(s.rows, t.rows, s.calls[d], hash);
      }
    }
    forall d | d in s.calls && d != c && Won(t.calls[c]) && Won(s.calls[d])
      ensures !SameKey(t.calls[c].event, s.calls[d].event)
    {
      WinnerIsStored(s.rows, s.calls[d], hash);
    }
  }

  lemma CommitKeepsInvariant(s: Writers, t: Writers, events: seq<Event>, hash: Hash)
    requires Invariant(s, hash) && CommitStep(s, t, events, hash)
    ensures Invariant(t, hash) && s.rows <= t.rows
  {
    hide Sound, CallHolds, RecordAll, AllNormalized;
    RecordAllKeeps(s.rows, events, hash);
    forall d | d in t.calls ensures CallHolds(t.rows, t.calls[d], hash) {
      CallHoldsGrows(s.rows, t.rows, s.calls[d], hash);
    }
  }

  lemma BeginKeepsInvariant(s: Writers, t: Writers, c: nat, e: Event, hash: Hash)
    requires Invariant(s, hash) && BeginStep(s, t, c, e)
    ensures Invariant(t, hash) && s.rows <= t.rows
  {
    hide Sound, IsNormalized, Fingerprint, Find, HasTarget;
  }

  lemma NextKeepsInvariant(s: Writers, t: Writers, hash: Hash)
    requires Invariant(s, hash) && Next(s, t, hash)
    ensures Invariant(t, hash) && s.rows <= t.rows
  {
    hide Invariant, MoveStep, CommitStep, BeginStep;
    if c: nat :| MoveStep(s, t, c, hash) {
      MoveKeepsInvariant(s, t, c, hash);
    } else if events: seq<Event> :| CommitStep(s, t, events, hash) {
      CommitKeepsInvariant(s, t, events, hash);
    } else {
      var c: nat, e: Event :| BeginStep(s, t, c, e);
      BeginKeepsInvariant(s, t, c, e, hash);
    }
  }

  /** Under any interleaving of any number of writers, batches and crashes: rows are unique, sound and never change. */
  lemma {:induction false} RecordingIsWriteOnce(run: seq<Writers>, hash: Hash, i: nat)
    requires Run(run, hash) && i < |run|
    ensures Invariant(run[i], hash)
    ensures forall j :: 0 <= j <= i ==> run[j].rows <= run[i].rows
  {
    hide Invariant, Next;
    if i > 0 {
      RecordingIsWriteOnce(run, hash, i - 1);
      NextKeepsInvariant(run[i - 1], run[i], hash);
    } else {
      EmptyStore(hash);
    }
  }

  lemma EmptyStore(hash: Hash)
    ensures Invariant(Writers([], map[]), hash)
  {
  }

  /** A call that ended keeps its answer. */
  lemma {:induction false} AnswersStay(run: seq<Writers>, hash: Hash, i: nat, j: nat, c: nat)
    requires Run(run, hash) && i <= j < |run|
    requires c in run[i].calls && run[i].calls[c].Done?
    ensures c in run[j].calls && run[j].calls[c] == run[i].calls[c]
    decreases j
  {
    hide Move, RecordAll, Sound;
    if i < j {
      AnswersStay(run, hash, i, j - 1, c);
      assert Next(run[j - 1], run[j], hash);
    }
  }

  /** Per scoped event id, at most one call ever reports that it recorded the event, and that event stays stored. */
  lemma AtMostOneRecorded(run: seq<Writers>, hash: Hash, i: nat, j: nat, c: nat, d: nat)
    requires Run(run, hash) && i <= j < |run|
    requires c in run[i].calls && Won(run[i].calls[c]) && d in run[j].calls && Won(run[j].calls[d])
    ensures run[i].calls[c].event in run[j].rows
    ensures c != d ==> !SameKey(run[i].calls[c].event, run[j].calls[d].event)
  {
    hide Fingerprint, Sound, Next;
    RecordingIsWriteOnce(run, hash, j);
    AnswersStay(run, hash, i, j, c);
    assert CallHolds(run[j].rows, run[j].calls[c], hash);
  }

  ghost predicate OnlyNormalized(s: Writers) {
    AllNormalized(s.rows) && forall c :: c in s.calls ==> IsNormalized(s.calls[c].event)
  }

  lemma {:induction false} RecordAllStores(rows: seq<Event>, events: seq<Event>, hash: Hash)
    requires RecordAll(rows, events, hash).Ok?
    ensures forall e :: e in RecordAll(rows, events, hash).value.0 ==> e in rows || e in events
    decreases |events|
  {
    hide Fingerprint, CorrectionHolds;
    if events != [] {
      RecordAllStores(RecordNormalized(rows, events[0], hash).0, events[1..], hash);
    }
  }

  lemma NextKeepsNormalized(s: Writers, t: Writers, hash: Hash)
    requires OnlyNormalized(s) && Next(s, t, hash)
    ensures OnlyNormalized(t)
  {
    hide Fingerprint, IsNormalized, RecordAll, Find, CorrectionHolds;
    if c: nat :| MoveStep(s, t, c, hash) {
      assert IsNormalized(s.calls[c].event);
    } else if events: seq<Event> :| CommitStep(s, t, events, hash) {
      RecordAllStores(s.rows, events, hash);
    } else {
      assert exists c: nat, e: Event :: BeginStep(s, t, c, e);
    }
  }

  /** Every reachable row was returned by normalization, so its value is one that a meter leaves. */
  lemma {:induction false} RecordedIsNormalized(run: seq<Writers>, hash: Hash, i: nat)
    requires Run(run, hash) && i < |run|
    ensures OnlyNormalized(run[i]) && AllMetered(run[i].rows)
  {
    hide Next, IsNormalized, Metered;
    if i > 0 {
      RecordedIsNormalized(run, hash, i - 1);
      NextKeepsNormalized(run[i - 1], run[i], hash);
    }
    forall k | 0 <= k < |run[i].rows| ensures Metered(run[i].rows[k].value) {
      NormalizedIsMetered(run[i].rows[k]);
    }
  }

  /** In every reachable store a correction is aggregated together with everything it corrects. */
  lemma CorrectionsShareTheirGroup(run: seq<Writers>, hash: Hash, s: nat, i: nat, spec: Spec)
    requires Run(run, hash) && s < |run| && i < |run[s].rows| && spec.windowSize > 0
    ensures Forest(run[s].rows)
    ensures var r := Root(run[s].rows, i);
            && run[s].rows[r].correctionOf.None?
            && KeyOf(run[s].rows[i], spec) == KeyOf(run[s].rows[r], spec)
            && (Matches(run[s].rows[i], spec) <==> Matches(run[s].rows[r], spec))
  {
    hide Next, Root, Forest, CallHolds, Select;
    RecordingIsWriteOnce(run, hash, s);
    ChainsEnd(run[s].rows, i);
  }
}
