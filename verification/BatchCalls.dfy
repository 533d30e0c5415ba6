/**
  Batch calls step by step, several at once: each looks for a manifest under its id, records its events, puts its
  manifest if absent, and rereads on conflict; other calls and single recordings may come between. One recording
  and one committed transaction are atomic here, as proved for interleaved recordings.
 */
module BatchCalls {
  import opened Prelude
  import opened Recovery
  import opened Events
  import opened Recording
  import opened Batches

  /** A normalized batch under its id. */
  datatype Batch = Batch(id: string, mode: Mode, events: seq<Event>, fingerprint: string)
  {
    ghost predicate Valid(hash: Hash) {
      && events != [] && OneScope(events)
      && BatchFingerprint(mode, events, hash) == Ok(fingerprint)
    }

    function Key(): (Labels, string)
      requires events != []
    {
      (events[0].scope, id)
    }
  }

  datatype Call =
    | Looking(batch: Batch, items: seq<Item>)
    | Storing(batch: Batch, items: seq<Item>)
    | Committing(batch: Batch, items: seq<Item>)
    | Manifesting(batch: Batch, items: seq<Item>)
    | Rereading(batch: Batch, items: seq<Item>)
    | Ended(batch: Batch, items: seq<Item>, result: Result<BatchReceipt>)

  function ItemsOf(events: seq<Event>, receipts: seq<Receipt>, hash: Hash): (items: seq<Item>)
    requires |events| == |receipts|
    ensures |items| == |events|
    ensures forall i :: 0 <= i < |items| ==> items[i] == ItemOf(events[i], Ok(receipts[i]), hash)
  {
    seq(|events|, i requires 0 <= i < |events| => ItemOf(events[i], Ok(receipts[i]), hash))
  }

  /** One step of one call. */
  function Move(store: Store, call: Call, hash: Hash): (Store, Call)
    requires call.batch.events != [] && !call.Ended?
  {
    var batch, items := call.batch, call.items;
    var key := batch.Key();
    match call
    case Looking(_, _) =>
      (store,
       if key in store.batches then Ended(batch, items, ReplayedBatch(store.batches[key], batch.fingerprint))
       else if batch.mode == Atomic then Committing(batch, items)
       else Storing(batch, items))
    case Storing(_, _) =>
      if |items| < |batch.events| then
        var (rows, r) := RecordNormalized(store.rows, batch.events[|items|], hash);
        (store.(rows := rows), Storing(batch, items + [ItemOf(batch.events[|items|], r, hash)]))
      else (store, Manifesting(batch, items))
    case Committing(_, _) => Committed(store, call, hash)
    case Manifesting(_, _) =>
      if key in store.batches then (store, Rereading(batch, items))
      else
        var manifest := Manifest(batch.id, key.0, batch.mode, batch.fingerprint, items);
        (store.(batches := store.batches[key := manifest]), Ended(batch, items, Ok(BatchReceipt(manifest, false))))
    case Rereading(_, _) =>
      var persisted := if key in store.batches then Some(store.batches[key]) else None;
      var r := if persisted.None? then Err(UsageConflict) else ReplayedBatch(persisted.value, batch.fingerprint);
      (store, Ended(batch, items, r))
  }

  function Committed(store: Store, call: Call, hash: Hash): (Store, Call)
    requires call.batch.events != []
  {
    var batch := call.batch;
    match RecordAll(store.rows, batch.events, hash)
    case Err(error) => (store, Ended(batch, call.items, Err(error)))
    case Ok((rows, receipts)) =>
      RecordAllLength(store.rows, batch.events, hash);
      (store.(rows := rows), Manifesting(batch, ItemsOf(batch.events, receipts, hash)))
  }

  lemma {:induction false} RecordAllLength(rows: seq<Event>, events: seq<Event>, hash: Hash)
    ensures RecordAll(rows, events, hash).Ok? ==> |RecordAll(rows, events, hash).value.1| == |events|
    decreases |events|
  {
    hide RecordNormalized;
    if events != [] {
      RecordAllLength(RecordNormalized(rows, events[0], hash).0, events[1..], hash);
    }
  }

  // ---- Interleavings ----

  datatype Calls = Calls(store: Store, calls: map<nat, Call>)

  ghost predicate BeginStep(s: Calls, t: Calls, c: nat, batch: Batch, hash: Hash) {
    c !in s.calls && batch.Valid(hash) && t == s.(calls := s.calls[c := Looking(batch, [])])
  }

  ghost predicate MoveStep(s: Calls, t: Calls, c: nat, hash: Hash) {
    && c in s.calls && !s.calls[c].Ended? && s.calls[c].batch.events != []
    && var (store, call) := Move(s.store, s.calls[c], hash);
    && t == Calls(store, s.calls[c := call])
  }

  /** Somebody records a single event. */
  ghost predicate OtherStep(s: Calls, t: Calls, e: Event, hash: Hash) {
    t == s.(store := s.store.(rows := RecordNormalized(s.store.rows, e, hash).0))
  }

  ghost predicate Next(s: Calls, t: Calls, hash: Hash) {
    || (exists c: nat, batch :: BeginStep(s, t, c, batch, hash))
    || (exists c: nat :: MoveStep(s, t, c, hash))
    || (exists e :: OtherStep(s, t, e, hash))
  }

  ghost predicate Run(run: seq<Calls>, hash: Hash) {
    && run != [] && run[0] == Calls(Store([], map[]), map[])
    && forall i :: 0 <= i < |run| - 1 ==> Next(run[i], run[i + 1], hash)
  }

  /** The events this call has stored so far. */
  function Added(call: Call): seq<Event>
    requires |call.items| <= |call.batch.events|
  {
    NewlyRecorded(call.batch.events[..|call.items|], call.items)
  }

  predicate Wrote(call: Call) {
    call.Ended? && call.result.Ok? && !call.result.value.replayed
  }

  /** What is known about one call. */
  ghost predicate CallHolds(store: Store, call: Call, hash: Hash) {
    var batch, items := call.batch, call.items;
    && batch.Valid(hash) && |items| <= |batch.events|
    && (forall i :: 0 <= i < |items| ==> Backed(store.rows, batch.Key().0, items[i], hash))
    && (forall e :: e in Added(call) ==> e in store.rows)
    && match call
       case Looking(_, _) => items == []
       case Storing(_, _) => true
       case Committing(_, _) => items == []
       case Manifesting(_, _) => |items| == |batch.events|
       case Rereading(_, _) => |items| == |batch.events| && batch.Key() in store.batches
       case Ended(_, _, r) =>
         && (items == [] || |items| == |batch.events|)
         && (r.Ok? ==> batch.Key() in store.batches && store.batches[batch.Key()] == r.value.manifest
                       && r.value.manifest.fingerprint == batch.fingerprint)
         && (r.Err? && items != [] ==>
               r == Err(UsageConflict) && batch.Key() in store.batches
               && store.batches[batch.Key()].fingerprint != batch.fingerprint)
  }

  ghost predicate ManifestsHold(store: Store, hash: Hash) {
    forall k :: k in store.batches ==>
      && store.batches[k].scope == k.0 && store.batches[k].batchId == k.1
      && forall i :: 0 <= i < |store.batches[k].items| ==> Backed(store.rows, k.0, store.batches[k].items[i], hash)
  }

  ghost predicate Invariant(s: Calls, hash: Hash) {
    && Sound(s.store.rows) && ManifestsHold(s.store, hash)
    && (forall c :: c in s.calls ==> CallHolds(s.store, s.calls[c], hash))
    && forall c, d :: c in s.calls && d in s.calls && c != d && Wrote(s.calls[c]) && Wrote(s.calls[d]) ==>
                        s.calls[c].batch.Key() != s.calls[d].batch.Key()
  }

  /** Later stores keep every row and every manifest. */
  ghost predicate Keeps(before: Store, after: Store) {
    && before.rows <= after.rows
    && forall k :: k in before.batches ==> k in after.batches && after.batches[k] == before.batches[k]
  }

  lemma CallHoldsGrows(before: Store, after: Store, call: Call, hash: Hash)
    requires CallHolds(before, call, hash) && Keeps(before, after)
    ensures CallHolds(after, call, hash)
  {
    hide Backed, Batch.Valid;
    assert call.batch.Valid(hash);
    ValidBatch(call.batch, hash);
    forall i | 0 <= i < |call.items| ensures Backed(after.rows, call.batch.Key().0, call.items[i], hash) {
      BackedGrows(before.rows, after.rows, call.batch.Key().0, call.items[i], hash);
    }
  }

  lemma ValidBatch(batch: Batch, hash: Hash)
    requires batch.Valid(hash)
    ensures batch.events != [] && OneScope(batch.events)
  {
  }

  lemma ManifestsGrow(before: Store, after: Store, hash: Hash)
    requires ManifestsHold(before, hash) && before.rows <= after.rows && after.batches == before.batches
    ensures ManifestsHold(after, hash)
  {
    hide Backed;
    forall k, i | k in after.batches && 0 <= i < |after.batches[k].items|
      ensures Backed(after.rows, k.0, after.batches[k].items[i], hash)
    {
      BackedGrows(before.rows, after.rows, k.0, after.batches[k].items[i], hash);
    }
  }

  lemma OneRecorded(rows: seq<Event>, e: Event, hash: Hash)
    requires Sound(rows)
    ensures var (more, r) := RecordNormalized(rows, e, hash);
            var item := ItemOf(e, r, hash);
            && Sound(more) && rows <= more && Backed(more, e.scope, item, hash)
            && more == rows + if item.outcome == Ok(Recorded) then [e] else []
  {
    hide Fingerprint, Sound, CorrectionHolds;
    RecordKeeps(rows, e, hash);
    assert rows + [] == rows;
  }

  lemma {:induction false} AddedOneMore(events: seq<Event>, items: seq<Item>, item: Item)
    requires |items| < |events|
    ensures NewlyRecorded(events[..|items| + 1], items + [item])
            == NewlyRecorded(events[..|items|], items) + if item.outcome == Ok(Recorded) then [events[|items|]] else []
  {
    if items == [] {
      assert events[..1] == [events[0]] && ([] + [item])[1..] == [];
    } else {
      AddedOneMore(events[1..], items[1..], item);
      assert events[..|items| + 1][1..] == events[1..][..|items[1..]| + 1];
      assert events[..|items|][1..] == events[1..][..|items[1..]|];
      assert (items + [item])[1..] == items[1..] + [item];
      assert items[0] == (items + [item])[0] && events[..|items| + 1][0] == events[0] == events[..|items|][0];
    }
  }

  lemma {:induction false} CommitAdds(rows: seq<Event>, events: seq<Event>, hash: Hash)
    requires Sound(rows) && RecordAll(rows, events, hash).Ok?
    ensures |RecordAll(rows, events, hash).value.1| == |events|
    ensures var (more, receipts) := RecordAll(rows, events, hash).value;
            more == rows + NewlyRecorded(events, ItemsOf(events, receipts, hash))
    decreases |events|
  {
    hide RecordNormalized, Fingerprint, Sound;
    RecordAllLength(rows, events, hash);
    var (more, receipts) := RecordAll(rows, events, hash).value;
    if events == [] {
      assert rows + [] == rows;
    } else {
      var next := RecordNormalized(rows, events[0], hash).0;
      OneRecorded(rows, events[0], hash);
      CommitAdds(next, events[1..], hash);
      var items := ItemsOf(events, receipts, hash);
      assert items[1..] == ItemsOf(events[1..], receipts[1..], hash);
    }
  }

  /** A step appends to the rows exactly what its call then counts as stored. */
  lemma MoveAppendsAdded(store: Store, call: Call, hash: Hash)
    requires Sound(store.rows) && call.batch.events != [] && !call.Ended? && |call.items| <= |call.batch.events|
    requires call.Committing? ==> call.items == []
    ensures var (after, next) := Move(store, call, hash);
            && |next.items| <= |next.batch.events| && next.batch == call.batch
            && Added(call) <= Added(next)
            && after.rows == store.rows + Added(next)[|Added(call)|..]
            && Sound(after.rows) && Keeps(store, after)
  {
    hide RecordNormalized, Fingerprint, Sound, RecordAll, NewlyRecorded;
    var (after, next) := Move(store, call, hash);
    if call.Storing? && |call.items| < |call.batch.events| {
      var e := call.batch.events[|call.items|];
      OneRecorded(store.rows, e, hash);
      AddedOneMore(call.batch.events, call.items, ItemOf(e, RecordNormalized(store.rows, e, hash).1, hash));
    } else if call.Committing? && next.Manifesting? {
      NothingAdded(call);
      CommitAdds(store.rows, call.batch.events, hash);
      RecordAllKeeps(store.rows, call.batch.events, hash);
      assert call.batch.events[..|next.items|] == call.batch.events;
      assert Added(next)[0..] == Added(next);
    } else {
      assert store.rows + [] == store.rows;
    }
  }

  lemma NothingAdded(call: Call)
    requires call.items == []
    ensures Added(call) == []
  {
  }

  lemma ScopeOfItem(batch: Batch, i: nat, hash: Hash)
    requires batch.Valid(hash) && i < |batch.events|
    ensures batch.events[i].scope == batch.Key().0
  {
    hide Fingerprint;
  }

  lemma AddedIsStored(store: Store, call: Call, after: Store, next: Call)
    requires |call.items| <= |call.batch.events| && |next.items| <= |next.batch.events|
    requires forall e :: e in Added(call) ==> e in store.rows
    requires Added(call) <= Added(next) && after.rows == store.rows + Added(next)[|Added(call)|..]
    ensures forall e :: e in Added(next) ==> e in after.rows
  {
    hide Added;
    var delta := Added(next)[|Added(call)|..];
    assert Added(next) == Added(call) + delta;
  }

  lemma StoringBacks(store: Store, call: Call, hash: Hash)
    requires Sound(store.rows) && CallHolds(store, call, hash) && call.Storing? && |call.items| < |call.batch.events|
    ensures var (after, next) := Move(store, call, hash);
            forall i :: 0 <= i < |next.items| ==> Backed(after.rows, next.batch.Key().0, next.items[i], hash)
  {
    hide Backed, Fingerprint, Sound, RecordNormalized, NewlyRecorded, Batch.Valid;
    assert call.batch.Valid(hash);
    ValidBatch(call.batch, hash);
    var (after, next) := Move(store, call, hash);
    var e := call.batch.events[|call.items|];
    OneRecorded(store.rows, e, hash);
    ScopeOfItem(call.batch, |call.items|, hash);
    forall i | 0 <= i < |next.items| ensures Backed(after.rows, next.batch.Key().0, next.items[i], hash) {
      if i < |call.items| {
        BackedGrows(store.rows, after.rows, next.batch.Key().0, call.items[i], hash);
      }
    }
  }

  lemma CommitBacks(store: Store, call: Call, hash: Hash)
    requires Sound(store.rows) && CallHolds(store, call, hash) && call.Committing?
    requires RecordAll(store.rows, call.batch.events, hash).Ok?
    ensures var (after, next) := Move(store, call, hash);
            forall i :: 0 <= i < |next.items| ==> Backed(after.rows, next.batch.Key().0, next.items[i], hash)
  {
    hide Fingerprint, Sound, RecordAll, NewlyRecorded, Batch.Valid;
    assert call.batch.Valid(hash);
    ValidBatch(call.batch, hash);
    RecordAllKeeps(store.rows, call.batch.events, hash);
    var (more, receipts) := RecordAll(store.rows, call.batch.events, hash).value;
    var (after, next) := Move(store, call, hash);
    forall i | 0 <= i < |next.items| ensures Backed(after.rows, next.batch.Key().0, next.items[i], hash) {
      ScopeOfItem(call.batch, i, hash);
      assert receipts[i].event in more;
    }
  }

  lemma MoveHolds(store: Store, call: Call, hash: Hash)
    requires Sound(store.rows) && ManifestsHold(store, hash) && CallHolds(store, call, hash) && !call.Ended?
    ensures var (after, next) := Move(store, call, hash);
            && Sound(after.rows) && Keeps(store, after) && ManifestsHold(after, hash) && CallHolds(after, next, hash)
            && next.batch == call.batch && (Wrote(next) ==> call.batch.Key() !in store.batches)
  {
    hide Fingerprint, Sound, RecordNormalized, RecordAll, NewlyRecorded, Backed, Batch.Valid;
    assert call.batch.Valid(hash);
    ValidBatch(call.batch, hash);
    MoveAppendsAdded(store, call, hash);
    var (after, next) := Move(store, call, hash);
    AddedIsStored(store, call, after, next);
    if call.Storing? && |call.items| < |call.batch.events| {
      StoringBacks(store, call, hash);
      ManifestsGrow(store, after, hash);
    } else if call.Committing? && RecordAll(store.rows, call.batch.events, hash).Ok? {
      CommitBacks(store, call, hash);
      ManifestsGrow(store, after, hash);
    }
  }

  lemma MoveKeepsInvariant(s: Calls, t: Calls, c: nat, hash: Hash)
    requires Invariant(s, hash) && MoveStep(s, t, c, hash)
    ensures Invariant(t, hash) && Keeps(s.store, t.store)
  {
    hide Sound, ManifestsHold, Move, CallHolds;
    MoveHolds(s.store, s.calls[c], hash);
    forall d | d in t.calls ensures CallHolds(t.store, t.calls[d], hash) && t.calls[d].batch.events != [] {
      if d != c {
        CallHoldsGrows(s.store, t.store, s.calls[d], hash);
      }
      HeldIsCalled(t.store, t.calls[d], hash);
    }
    assert c in t.calls;
    forall d | d in t.calls && d != c && Wrote(t.calls[d]) && Wrote(t.calls[c])
      ensures t.calls[d].batch.Key() != t.calls[c].batch.Key()
    {
      WriterIsStored(s.store, s.calls[d], hash);
    }
  }

  lemma HeldIsCalled(store: Store, call: Call, hash: Hash)
    requires CallHolds(store, call, hash)
    ensures call.batch.events != []
  {
  }

  lemma WriterIsStored(store: Store, call: Call, hash: Hash)
    requires CallHolds(store, call, hash) && Wrote(call)
    ensures call.batch.events != [] && call.batch.Key() in store.batches
  {
    hide Backed;
  }

  lemma OtherKeepsInvariant(s: Calls, t: Calls, e: Event, hash: Hash)
    requires Invariant(s, hash) && OtherStep(s, t, e, hash)
    ensures Invariant(t, hash) && Keeps(s.store, t.store)
  {
    hide Sound, CallHolds, RecordNormalized, ManifestsHold;
    RecordKeeps(s.store.rows, e, hash);
    ManifestsGrow(s.store, t.store, hash);
    forall d | d in t.calls ensures CallHolds(t.store, t.calls[d], hash) {
      CallHoldsGrows(s.store, t.store, s.calls[d], hash);
    }
  }

  lemma BeginHolds(store: Store, batch: Batch, hash: Hash)
    requires batch.Valid(hash)
    ensures CallHolds(store, Looking(batch, []), hash)
  {
  }

  lemma NextKeepsInvariant(s: Calls, t: Calls, hash: Hash)
    requires Invariant(s, hash) && Next(s, t, hash)
    ensures Invariant(t, hash) && Keeps(s.store, t.store)
  {
    hide Sound, ManifestsHold, Move, CallHolds, RecordNormalized, Batch.Valid;
    if c: nat :| MoveStep(s, t, c, hash) {
      MoveKeepsInvariant(s, t, c, hash);
    } else if e :| OtherStep(s, t, e, hash) {
      OtherKeepsInvariant(s, t, e, hash);
    } else {
      var c: nat, batch :| BeginStep(s, t, c, batch, hash);
      BeginHolds(s.store, batch, hash);
    }
  }

  /**
    Under any interleaving rows and manifests never change once stored, and every manifest is backed by stored events.
   */
  lemma {:induction false} ManifestsAreWriteOnce(run: seq<Calls>, hash: Hash, i: nat)
    requires Run(run, hash) && i < |run|
    ensures Invariant(run[i], hash)
    ensures forall j :: 0 <= j <= i ==> Keeps(run[j].store, run[i].store)
  {
    hide Invariant, Next;
    if i > 0 {
      ManifestsAreWriteOnce(run, hash, i - 1);
      NextKeepsInvariant(run[i - 1], run[i], hash);
    } else {
      EmptyHolds(hash);
    }
  }

  lemma EmptyHolds(hash: Hash)
    ensures Invariant(Calls(Store([], map[]), map[]), hash)
  {
  }

  /** Per scoped batch id at most one call ever returns a receipt of its own. */
  lemma AtMostOneManifest(run: seq<Calls>, hash: Hash, i: nat, c: nat, d: nat)
    requires Run(run, hash) && i < |run| && c in run[i].calls && d in run[i].calls && c != d
    requires Wrote(run[i].calls[c]) && Wrote(run[i].calls[d])
    ensures run[i].calls[c].batch.events != [] && run[i].calls[d].batch.events != []
    ensures run[i].calls[c].batch.Key() != run[i].calls[d].batch.Key()
  {
    hide Sound, ManifestsHold, CallHolds, Next;
    ManifestsAreWriteOnce(run, hash, i);
    WriterIsStored(run[i].store, run[i].calls[c], hash);
    WriterIsStored(run[i].store, run[i].calls[d], hash);
  }

  /**
    When a failed call leaves rows behind: the events that it counted as newly recorded stay stored, and it counted any
    only if it failed with a conflict, another batch's manifest being stored under its id.
   */
  lemma FailedCallLeavesRows(run: seq<Calls>, hash: Hash, i: nat, c: nat)
    requires Run(run, hash) && i < |run| && c in run[i].calls
    requires run[i].calls[c].Ended? && run[i].calls[c].result.Err?
    ensures var call := run[i].calls[c];
            && call.batch.events != [] && |call.items| <= |call.batch.events|
            && (forall e :: e in Added(call) ==> e in run[i].store.rows)
            && (Added(call) != [] ==>
                  && call.result == Err(UsageConflict)
                  && call.batch.Key() in run[i].store.batches
                  && run[i].store.batches[call.batch.Key()].fingerprint != call.batch.fingerprint)
  {
    hide Sound, ManifestsHold, Next, Backed;
    ManifestsAreWriteOnce(run, hash, i);
    var call := run[i].calls[c];
    assert CallHolds(run[i].store, call, hash);
    if call.items == [] {
      NothingAdded(call);
    }
  }

  /**
    At the put itself: a call that has recorded its events fails exactly if another batch's manifest is there by then,
    and returns its own receipt exactly if none is.
   */
  lemma ManifestDecides(store: Store, call: Call, hash: Hash)
    requires call.batch.events != [] && call.Manifesting? && |call.items| == |call.batch.events|
    ensures var (put, next) := Move(store, call, hash);
            var end := if next.Ended? then next else Move(put, next, hash).1;
            && end.Ended? && end.items == call.items
            && (end.result.Err? <==> call.batch.Key() in store.batches
                                     && store.batches[call.batch.Key()].fingerprint != call.batch.fingerprint)
            && (end.result.Ok? && !end.result.value.replayed <==> call.batch.Key() !in store.batches)
  {
  }

  // ---- A call alone ----

  function StepsLeft(call: Call): nat
    requires |call.items| <= |call.batch.events|
  {
    match call
    case Looking(batch, items) => |batch.events| + 4
    case Storing(batch, items) => |batch.events| - |items| + 3
    case Committing(_, _) => 3
    case Manifesting(_, _) => 2
    case Rereading(_, _) => 1
    case Ended(_, _, _) => 0
  }

  /** The remaining steps of a call that nobody disturbs. */
  ghost function AllMoves(store: Store, call: Call, hash: Hash): (Store, Call)
    requires call.batch.events != [] && |call.items| <= |call.batch.events|
    decreases StepsLeft(call)
  {
    if call.Ended? then (store, call)
    else
      var (after, next) := Move(store, call, hash);
      AllMoves(after, next, hash)
  }

  lemma StoresNext(store: Store, call: Call, setting: Setting)
    requires call.Storing? && |call.items| < |call.batch.events| && AllSettled(call.batch.events, setting)
    ensures var e := call.batch.events[|call.items|];
            var (rows, r) := RecordAgain(store.rows, e, setting);
            Move(store, call, setting.hash)
            == (store.(rows := rows), Storing(call.batch, call.items + [ItemOf(e, r, setting.hash)]))
  {
    hide RecordNormalized, Settled, Fingerprint, RecordAgain;
    SettledRecords(store.rows, call.batch.events[|call.items|], setting);
  }

  lemma PartitionedTakesFirst(rows: seq<Event>, events: seq<Event>, items: seq<Item>, k: nat, setting: Setting)
    requires k < |events|
    ensures var (more, r) := RecordAgain(rows, events[k], setting);
            var item := ItemOf(events[k], r, setting.hash);
            var whole, rest := PartitionedItems(rows, events[k..], setting),
                PartitionedItems(more, events[k + 1..], setting);
            whole.0 == rest.0 && items + whole.1 == (items + [item]) + rest.1
  {
    hide RecordAgain, ItemOf;
    assert events[k..][0] == events[k] && events[k..][1..] == events[k + 1..];
  }

  lemma StoringEnds(store: Store, call: Call, setting: Setting)
    requires call.Storing? && call.batch.events != [] && |call.items| == |call.batch.events|
    ensures Move(store, call, setting.hash) == (store, Manifesting(call.batch, call.items))
    ensures PartitionedItems(store.rows, call.batch.events[|call.items|..], setting) == (store.rows, [])
  {
  }

  lemma {:induction false} StoringAlone(store: Store, call: Call, setting: Setting)
    requires call.Storing? && call.batch.events != [] && |call.items| <= |call.batch.events|
    requires AllSettled(call.batch.events, setting)
    ensures var (rows, items) := PartitionedItems(store.rows, call.batch.events[|call.items|..], setting);
            AllMoves(store, call, setting.hash)
            == AllMoves(store.(rows := rows), Manifesting(call.batch, call.items + items), setting.hash)
    decreases |call.batch.events| - |call.items|
  {
    hide *;
    OneMove(store, call, setting.hash);
    if |call.items| == |call.batch.events| {
      StoringEnds(store, call, setting);
      assert call.items + [] == call.items;
      assert store.(rows := store.rows) == store;
    } else {
      StoresNext(store, call, setting);
      var (after, next) := Move(store, call, setting.hash);
      StoringAlone(after, next, setting);
      PartitionedTakesFirst(store.rows, call.batch.events, call.items, |call.items|, setting);
    }
  }

  lemma OneMove(store: Store, call: Call, hash: Hash)
    requires call.batch.events != [] && |call.items| <= |call.batch.events| && !call.Ended?
    ensures var (after, next) := Move(store, call, hash);
            && next.batch == call.batch && |next.items| <= |next.batch.events|
            && AllMoves(store, call, hash) == AllMoves(after, next, hash)
  {
    hide RecordNormalized, RecordAll, Fingerprint;
  }

  lemma CommittingAlone(store: Store, call: Call, setting: Setting)
    requires call.Committing? && call.items == [] && call.batch.events != []
    requires AllSettled(call.batch.events, setting)
    ensures Move(store, call, setting.hash)
            == match AtomicItems(store.rows, call.batch.events, setting)
               case Err(error) => (store, Ended(call.batch, [], Err(error)))
               case Ok((rows, items)) => (store.(rows := rows), Manifesting(call.batch, items))
  {
    hide RecordNormalized, Settled, Fingerprint, RecordAgain, RecordAll, AtomicItems, AllSettled, ItemOf;
    var events, hash := call.batch.events, setting.hash;
    AtomicIsRecordAll(store.rows, events, setting);
    if RecordAll(store.rows, events, hash).Ok? {
      SameItems(events, RecordAll(store.rows, events, hash).value.1, AtomicItems(store.rows, events, setting).value.1,
          hash);
    }
  }

  lemma SameItems(events: seq<Event>, receipts: seq<Receipt>, items: seq<Item>, hash: Hash)
    requires |receipts| == |items| == |events|
    requires forall i :: 0 <= i < |events| ==> items[i] == ItemOf(events[i], Ok(receipts[i]), hash)
    ensures ItemsOf(events, receipts, hash) == items
  {
    hide ItemOf;
  }

  lemma ManifestingAlone(store: Store, call: Call, hash: Hash)
    requires call.Manifesting? && call.batch.events != [] && |call.items| <= |call.batch.events|
    requires call.batch.Key() !in store.batches
    ensures var batch := call.batch;
            var manifest := Manifest(batch.id, batch.Key().0, batch.mode, batch.fingerprint, call.items);
            AllMoves(store, call, hash)
            == (store.(batches := store.batches[batch.Key() := manifest]),
                Ended(batch, call.items, Ok(BatchReceipt(manifest, false))))
  {
  }

  lemma LookingAlone(store: Store, batch: Batch, hash: Hash)
    requires batch.events != []
    ensures Move(store, Looking(batch, []), hash)
            == (store,
                if batch.Key() in store.batches then
                  Ended(batch, [], ReplayedBatch(store.batches[batch.Key()], batch.fingerprint))
                else if batch.mode == Atomic then Committing(batch, [])
                else Storing(batch, []))
  {
  }

  lemma EndedAlone(store: Store, call: Call, hash: Hash)
    requires call.Ended? && call.batch.events != [] && |call.items| <= |call.batch.events|
    ensures AllMoves(store, call, hash) == (store, call)
  {
  }

  /** What a batch call does once its batch is normalized. */
  function Outcome(store: Store, batch: Batch, setting: Setting): (Store, Result<BatchReceipt>)
    requires batch.events != []
  {
    if batch.Key() in store.batches then (store, ReplayedBatch(store.batches[batch.Key()], batch.fingerprint))
    else
      match BatchItems(store.rows, batch.events, batch.mode, setting)
      case Err(error) => (store, Err(error))
      case Ok((rows, items)) =>
        var manifest := Manifest(batch.id, batch.Key().0, batch.mode, batch.fingerprint, items);
        (Store(rows, store.batches[batch.Key() := manifest]), Ok(BatchReceipt(manifest, false)))
  }

  lemma AloneIsOutcome(store: Store, batch: Batch, setting: Setting)
    requires batch.events != [] && AllSettled(batch.events, setting)
    ensures var (after, end) := AllMoves(store, Looking(batch, []), setting.hash);
            end.Ended? && (after, end.result) == Outcome(store, batch, setting)
  {
    hide AllMoves, Move, AllSettled, PartitionedItems, AtomicItems, ReplayedBatch, Batch.Key;
    var hash := setting.hash;
    OneMove(store, Looking(batch, []), hash);
    LookingAlone(store, batch, hash);
    var (_, next) := Move(store, Looking(batch, []), hash);
    if batch.Key() in store.batches {
      EndedAlone(store, next, hash);
    } else if batch.mode == Atomic {
      OneMove(store, next, hash);
      CommittingAlone(store, next, setting);
      var (after, last) := Move(store, next, hash);
      if last.Ended? {
        EndedAlone(after, last, hash);
      } else {
        ManifestingAlone(after, last, hash);
      }
    } else {
      StoringAlone(store, next, setting);
      var (rows, items) := PartitionedItems(store.rows, batch.events, setting);
      assert batch.events[0..] == batch.events && [] + items == items;
      ManifestingAlone(store.(rows := rows), Manifesting(batch, items), hash);
    }
  }

  /** Undisturbed, the steps of a call are the batch recording of a store that nobody else is writing to. */
  lemma AloneIsRecordBatch(store: Store, events: seq<Event>, batchId: Option<string>, mode: Mode, setting: Setting)
    requires setting.Valid() && forall i :: 0 <= i < |events| ==> Constructed(events[i])
    requires NormalizeBatch(events, setting).Ok?
    requires BatchFingerprint(mode, NormalizeBatch(events, setting).value, setting.hash).Ok?
    ensures var normalized := NormalizeBatch(events, setting).value;
            var fingerprint := BatchFingerprint(mode, normalized, setting.hash).value;
            var id := if batchId.Some? then batchId.value else "batch-" + fingerprint;
            var batch := Batch(id, mode, normalized, fingerprint);
            && batch.Valid(setting.hash)
            && var (after, end) := AllMoves(store, Looking(batch, []), setting.hash);
            && end.Ended? && RecordBatch(store, events, batchId, mode, setting) == (after, end.result)
  {
    hide BatchFingerprint, Construct, AllSettled, NormalizeEach, BatchItems, UniqueIds, AllMoves, Setting.Valid;
    var normalized := NormalizeBatch(events, setting).value;
    NormalizeEachSettles(events, setting);
    var fingerprint := BatchFingerprint(mode, normalized, setting.hash).value;
    var id := if batchId.Some? then batchId.value else "batch-" + fingerprint;
    AloneIsOutcome(store, Batch(id, mode, normalized, fingerprint), setting);
  }

  // ---- A loser that leaves a row ----

  lemma DifferentFingerprints(a: Event, b: Event, hash: Hash)
    requires Injective(hash) && a.eventId != b.eventId
    ensures BatchFingerprint(Partitioned, [a], hash).Ok? && BatchFingerprint(Partitioned, [b], hash).Ok?
    ensures BatchFingerprint(Partitioned, [a], hash) != BatchFingerprint(Partitioned, [b], hash)
  {
    hide Injective, Digest, ToDict, Fingerprint;
    if BatchFingerprint(Partitioned, [a], hash) == BatchFingerprint(Partitioned, [b], hash) {
      BatchFingerprintFixesBatch(Partitioned, [a], Partitioned, [b], hash);
      FingerprintFixesDict([a][0], [b][0], hash);
      DictionaryFixesPlain(a, b, hash);
    }
  }

  lemma FirstRow(rows: seq<Event>, e: Event, hash: Hash)
    requires e.correctionOf.None? && Find(rows, e.scope, e.eventId).None?
    ensures RecordNormalized(rows, e, hash) == (rows + [e], Ok(Receipt(e, Recorded)))
  {
    hide Fingerprint;
  }

  lemma StoresOnly(store: Store, batch: Batch, e: Event, hash: Hash)
    requires batch.events == [e] && e.correctionOf.None? && Find(store.rows, e.scope, e.eventId).None?
    ensures var item := Item(e.eventId, Ok(Recorded), Fingerprint(e, hash));
            && Move(store, Storing(batch, []), hash) == (store.(rows := store.rows + [e]), Storing(batch, [item]))
            && Move(store, Storing(batch, [item]), hash) == (store, Manifesting(batch, [item]))
            && Added(Storing(batch, [item])) == [e]
  {
    hide RecordNormalized, Fingerprint;
    FirstRow(store.rows, e, hash);
    var item := Item(e.eventId, Ok(Recorded), Fingerprint(e, hash));
    assert [] + [item] == [item] && [e][..1] == [e] && [e][1..] == [] && [item][1..] == [];
    assert NewlyRecorded([], []) == [];
  }

  lemma Steps(s: Calls, c: nat, call: Call, hash: Hash)
    requires c in s.calls && s.calls[c] == call && !call.Ended? && call.batch.events != []
    ensures var (store, next) := Move(s.store, call, hash);
            Next(s, Calls(store, s.calls[c := next]), hash)
  {
    hide Move;
    var (store, next) := Move(s.store, call, hash);
    assert MoveStep(s, Calls(store, s.calls[c := next]), c, hash);
  }

  lemma Begins(s: Calls, c: nat, batch: Batch, hash: Hash)
    requires c !in s.calls && batch.Valid(hash)
    ensures Next(s, s.(calls := s.calls[c := Looking(batch, [])]), hash)
  {
    hide Batch.Valid;
    assert BeginStep(s, s.(calls := s.calls[c := Looking(batch, [])]), c, batch, hash);
  }

  lemma Extend(run: seq<Calls>, t: Calls, hash: Hash)
    requires run != [] && Run(run, hash) && Next(run[|run| - 1], t, hash)
    ensures Run(run + [t], hash)
  {
    hide Next;
  }

  /** One more step of one call at the end of a run. */
  lemma Extended(run: seq<Calls>, c: nat, call: Call, hash: Hash) returns (longer: seq<Calls>)
    requires run != [] && Run(run, hash)
    requires var s := run[|run| - 1]; c in s.calls && s.calls[c] == call && !call.Ended? && call.batch.events != []
    ensures longer != [] && Run(longer, hash)
    ensures var s := run[|run| - 1];
            var (store, next) := Move(s.store, call, hash);
            longer[|longer| - 1] == Calls(store, s.calls[c := next])
  {
    hide Run, Next, Move;
    var s := run[|run| - 1];
    var (store, next) := Move(s.store, call, hash);
    Steps(s, c, call, hash);
    Extend(run, Calls(store, s.calls[c := next]), hash);
    longer := run + [Calls(store, s.calls[c := next])];
  }

  lemma BothLook(first: Batch, second: Batch, hash: Hash) returns (run: seq<Calls>)
    requires first.Valid(hash) && second.Valid(hash) && first.mode == second.mode == Partitioned
    ensures run != [] && Run(run, hash)
    ensures run[|run| - 1] == Calls(Store([], map[]), map[0 := Storing(first, []), 1 := Storing(second, [])])
  {
    hide Batch.Valid, Next, BatchFingerprint;
    var s0 := Calls(Store([], map[]), map[]);
    var s1 := s0.(calls := map[0 := Looking(first, [])]);
    ValidBatch(first, hash);
    ValidBatch(second, hash);
    Begins(s0, 0, first, hash);
    Begins(s1, 1, second, hash);
    run := [s0];
    Extend(run, s1, hash);
    run := run + [s1];
    var s2 := s1.(calls := s1.calls[1 := Looking(second, [])]);
    Extend(run, s2, hash);
    run := run + [s2];
    run := Extended(run, 0, Looking(first, []), hash);
    run := Extended(run, 1, Looking(second, []), hash);
    assert run[|run| - 1].calls == map[0 := Storing(first, []), 1 := Storing(second, [])];
  }

  lemma BothStore(first: Batch, second: Batch, a: Event, b: Event, hash: Hash) returns (run: seq<Calls>)
    requires first.Valid(hash) && second.Valid(hash) && first.mode == second.mode == Partitioned
    requires first.events == [a] && second.events == [b] && a.eventId != b.eventId
    requires a.correctionOf.None? && b.correctionOf.None?
    ensures run != [] && Run(run, hash)
    ensures var x, y := Item(a.eventId, Ok(Recorded), Fingerprint(a, hash)),
            Item(b.eventId, Ok(Recorded), Fingerprint(b, hash));
            && run[|run| - 1] == Calls(Store([a, b], map[]),
                map[0 := Manifesting(first, [x]), 1 := Manifesting(second, [y])])
            && Added(Manifesting(second, [y])) == [b]
  {
    hide Batch.Valid, Run, Move, Fingerprint, BatchFingerprint;
    run := BothLook(first, second, hash);
    var x, y := Item(a.eventId, Ok(Recorded), Fingerprint(a, hash)),
        Item(b.eventId, Ok(Recorded), Fingerprint(b, hash));
    StoresOnly(Store([], map[]), first, a, hash);
    StoresOnly(Store([a], map[]), second, b, hash);
    assert [] + [a] == [a] && [a] + [b] == [a, b];
    run := Extended(run, 0, Storing(first, []), hash);
    run := Extended(run, 1, Storing(second, []), hash);
    StoresOnly(Store([], map[]), first, a, hash);
    EndsStoring(Store([a, b], map[]), first, [x], hash);
    EndsStoring(Store([a, b], map[]), second, [y], hash);
    run := Extended(run, 0, Storing(first, [x]), hash);
    run := Extended(run, 1, Storing(second, [y]), hash);
    assert run[|run| - 1].calls == map[0 := Manifesting(first, [x]), 1 := Manifesting(second, [y])];
  }

  lemma EndsStoring(store: Store, batch: Batch, items: seq<Item>, hash: Hash)
    requires batch.events != [] && |items| == |batch.events|
    ensures Move(store, Storing(batch, items), hash) == (store, Manifesting(batch, items))
  {
  }

  lemma OneWins(store: Store, first: Batch, second: Batch, xs: seq<Item>, ys: seq<Item>, hash: Hash)
    requires first.events != [] && second.events != [] && first.Key() == second.Key() && first.Key() !in store.batches
    requires first.fingerprint != second.fingerprint
    ensures var manifest := Manifest(first.id, first.Key().0, first.mode, first.fingerprint, xs);
            var after := store.(batches := store.batches[first.Key() := manifest]);
            && Move(store, Manifesting(first, xs), hash) == (after, Ended(first, xs, Ok(BatchReceipt(manifest, false))))
            && Move(after, Manifesting(second, ys), hash) == (after, Rereading(second, ys))
            && Move(after, Rereading(second, ys), hash) == (after, Ended(second, ys, Err(UsageConflict)))
  {
  }

  /**
    Two partitioned batches of one new event each, submitted at once under one explicit id, with different events:
    there is a run in which both find no manifest, the first puts its own, and the second fails with a conflict
    while its event stays stored under no manifest.
   */
  lemma LoserLeavesItsRow(a: Event, b: Event, id: string, hash: Hash) returns (run: seq<Calls>)
    requires Injective(hash) && a.scope == b.scope && a.eventId != b.eventId
    requires a.correctionOf.None? && b.correctionOf.None?
    ensures run != [] && Run(run, hash)
    ensures var t := run[|run| - 1];
            && t.store.rows == [a, b] && t.store.batches.Keys == {(a.scope, id)}
            && 0 in t.calls && Wrote(t.calls[0]) && t.calls[0].batch.events == [a]
            && t.store.batches[(a.scope, id)] == t.calls[0].result.value.manifest
            && 1 in t.calls && t.calls[1].batch.events == [b] && t.calls[1].batch.id == id
            && |t.calls[1].items| == 1 && Added(t.calls[1]) == [b]
            && t.calls[1].Ended? && t.calls[1].result == Err(UsageConflict)
  {
    hide Run, Move, Fingerprint, BatchFingerprint, Injective, NewlyRecorded;
    DifferentFingerprints(a, b, hash);
    var first := Batch(id, Partitioned, [a], BatchFingerprint(Partitioned, [a], hash).value);
    var second := Batch(id, Partitioned, [b], BatchFingerprint(Partitioned, [b], hash).value);
    run := BothStore(first, second, a, b, hash);
    var xs, ys := run[|run| - 1].calls[0].items, run[|run| - 1].calls[1].items;
    OneWins(run[|run| - 1].store, first, second, xs, ys, hash);
    run := Extended(run, 0, Manifesting(first, xs), hash);
    run := Extended(run, 1, Manifesting(second, ys), hash);
    run := Extended(run, 1, Rereading(second, ys), hash);
  }
}
