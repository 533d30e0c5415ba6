/** Leased aggregation claims. */
module Claims {
  import opened Prelude
  import opened Cells

  datatype Claim = Claim(owner: string, expiresAt: int, revision: nat, updatedAt: int)

  datatype ClaimOp =
    | Acquire(owner: string, expiresAt: int, now: int)
    | Release(token: Claim, now: int)

  /** The successor claim that an operation writes, or its refusal. */
  function Decide(op: ClaimOp, current: Option<Claim>): Result<Claim> {
    match op
    case Acquire(owner, expiresAt, now) =>
      if expiresAt <= now then Err(InvalidUsage)
      else if current.Some? && current.value.expiresAt > now && current.value.owner != owner then Err(ClaimUnavailable)
      else Ok(Claim(owner, expiresAt, if current.None? then 1 else current.value.revision + 1, now))
    case Release(token, now) =>
      if current.None? || current.value.revision != token.revision || current.value.owner != token.owner
      then Err(ClaimUnavailable)
      else Ok(Claim(token.owner, now, token.revision + 1, now))
  }

  /** Claim i is its owner's latest one and has not expired at `now`. */
  ghost predicate Holds(log: seq<Write<ClaimOp, Claim>>, i: nat, now: int) {
    && i < |log|
    && log[i].record.expiresAt > now
    && forall j :: i < j < |log| ==> log[j].record.owner != log[i].record.owner
  }

  /**
    Revisions count the stored claims, each written at its operation's time: an acquisition for its owner until its
    expiry, a release for the last owner and expired at once. The owner changes only once the old lease has run out.
   */
  lemma {:induction false} ClaimHistory(log: seq<Write<ClaimOp, Claim>>, i: nat)
    requires Serial(Decide, log) && i < |log|
    ensures log[i].record.revision == i + 1 && log[i].record.updatedAt == log[i].op.now
    ensures log[i].op.Acquire? ==> log[i].record.owner == log[i].op.owner
                                   && log[i].record.expiresAt == log[i].op.expiresAt > log[i].op.now
    ensures log[i].op.Release? ==> i > 0 && log[i].record.owner == log[i - 1].record.owner
                                   && log[i].record.expiresAt == log[i].op.now
    ensures i > 0 && log[i].record.owner != log[i - 1].record.owner ==>
              log[i - 1].record.expiresAt <= log[i].record.updatedAt
  {
    if i > 0 {
      ClaimHistory(log, i - 1);
    }
    assert Decide(log[i].op, RecordBefore(log, i)) == Ok(log[i].record);
  }

  /**
    Mutual exclusion in every interleaving: if no stored claim was taken at a time later than `now`,
    at most one owner holds an unexpired lease at `now`, and that lease is the stored claim.
   */
  lemma AtMostOneLiveOwner(run: seq<System<ClaimOp, Claim>>, s: nat, i: nat, j: nat, now: int)
    requires Run(Decide, run) && s < |run|
    requires forall k :: 0 <= k < |run[s].log| ==> run[s].log[k].record.updatedAt <= now
    requires Holds(run[s].log, i, now) && Holds(run[s].log, j, now)
    ensures i == j == |run[s].log| - 1
    ensures RecordOf(run[s].cell) == Some(run[s].log[i].record)
  {
    RunsAreSerial(Decide, run, s);
    var log := run[s].log;
    if i + 1 < |log| {
      ClaimHistory(log, i + 1);
    }
    if j + 1 < |log| {
      ClaimHistory(log, j + 1);
    }
  }

  /**
    A claim token is released at most once, and only as the direct successor of the claim it names:
    once anything newer has been stored the token releases nothing, in any later state.
   */
  lemma SupersededTokenNeverReleases(run: seq<System<ClaimOp, Claim>>, s: nat, t: nat, i: nat)
    requires Run(Decide, run) && s <= t < |run|
    requires i < |run[t].log| && run[t].log[i].op.Release?
    ensures var token := run[t].log[i].op.token;
            && token.revision == i > 0
            && run[t].log[i - 1].record.revision == token.revision
            && run[t].log[i - 1].record.owner == token.owner
            && (|run[s].log| > token.revision ==> i < |run[s].log|)
  {
    RunsAreSerial(Decide, run, t);
    var log := run[t].log;
    assert Decide(log[i].op, RecordBefore(log, i)) == Ok(log[i].record);
    if i > 0 {
      ClaimHistory(log, i - 1);
    }
  }

  // ---- Whom a lease keeps out ----

  /** A claim can be acquired exactly when it expires later than now and no other owner's lease is unexpired. */
  lemma AcquiresExactly(owner: string, expiresAt: int, now: int, current: Option<Claim>)
    ensures Decide(Acquire(owner, expiresAt, now), current).Ok?
            <==> && expiresAt > now
                 && (current.None? || current.value.expiresAt <= now || current.value.owner == owner)
    ensures Decide(Acquire(owner, expiresAt, now), current).Err? ==>
              Decide(Acquire(owner, expiresAt, now), current).error
              == if expiresAt <= now then InvalidUsage else ClaimUnavailable
  {
  }

  /** A token releases exactly while the stored claim is the one it names, by revision and owner. */
  lemma ReleasesExactly(token: Claim, now: int, current: Option<Claim>)
    ensures Decide(Release(token, now), current).Ok?
            <==> current.Some? && current.value.revision == token.revision && current.value.owner == token.owner
    ensures Decide(Release(token, now), current).Err? ==>
              Decide(Release(token, now), current).error == ClaimUnavailable
  {
  }

  /** In every history, an acquisition under an unexpired lease is by the lease's own owner. */
  lemma OverlapIsBySameOwner(log: seq<Write<ClaimOp, Claim>>, i: nat)
    requires Serial(Decide, log) && 0 < i < |log| && log[i].op.Acquire? && log[i].op.now < log[i - 1].record.expiresAt
    ensures log[i].record.owner == log[i - 1].record.owner == log[i].op.owner
  {
    assert Decide(log[i].op, RecordBefore(log, i)) == Ok(log[i].record);
  }

  /** One owner does not exclude itself: a run in which it acquires again under its own unexpired lease. */
  lemma SameOwnerOverlaps(owner: string, first: int, second: int, expiresAt: int, initial: nat)
    returns (run: seq<System<ClaimOp, Claim>>)
    requires first <= second < expiresAt
    ensures Run(Decide, run)
    ensures var log := run[|run| - 1].log;
            && |log| == 2 && log[0].op.Acquire? && log[1].op.Acquire?
            && log[0].record.owner == log[1].record.owner == owner
            && log[1].op.now == second && second < log[0].record.expiresAt && second < log[1].record.expiresAt
  {
    var a, b := Acquire(owner, expiresAt, first), Acquire(owner, expiresAt, second);
    var x, y := Claim(owner, expiresAt, 1, first), Claim(owner, expiresAt, 2, second);
    var s0 := System(None, map[], [], initial);
    var s1 := System(None, map[0 := Pending(a, None)], [], initial);
    var s2 := System(Some(Row(x, initial)), map[], [Write(a, x)], initial);
    var s3 := System(s2.cell, map[1 := Pending(b, s2.cell)], s2.log, initial);
    var s4 := System(Some(Row(y, initial + 1)), map[], [Write(a, x), Write(b, y)], initial);
    assert ReadStep(s0, s1, 0, a);
    assert s1.pending - {0} == map[] && [] + [Write(a, x)] == [Write(a, x)];
    assert WriteStep(Decide, s1, s2, 0);
    assert ReadStep(s2, s3, 1, b);
    assert s3.pending - {1} == map[] && s3.log + [Write(b, y)] == s4.log;
    assert WriteStep(Decide, s3, s4, 1);
    run := [s0, s1, s2, s3, s4];
  }
}
