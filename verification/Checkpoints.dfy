/** Watermark checkpoints advanced by compare-and-set on their revision. */
module Checkpoints {
  import opened Prelude
  import opened Cells

  datatype Checkpoint = Checkpoint(watermark: int, revision: nat, updatedAt: int)

  datatype Advance = Advance(watermark: int, expectedRevision: int, now: int)

  function Decide(op: Advance, current: Option<Checkpoint>): Result<Checkpoint> {
    var revision := if current.None? then 0 else current.value.revision;
    if op.expectedRevision < 0 then Err(InvalidUsage)
    else if revision != op.expectedRevision then Err(CheckpointConflict)
    else if current.Some? && op.watermark < current.value.watermark then Err(InvalidUsage)
    else Ok(Checkpoint(op.watermark, revision + 1, op.now))
  }

  /**
    An advance succeeds exactly with the stored revision, 0 if there is none, and a watermark not behind the stored one;
    what fails first names the error.
   */
  lemma AdvancesExactly(watermark: int, expectedRevision: int, now: int, current: Option<Checkpoint>)
    ensures var r := Decide(Advance(watermark, expectedRevision, now), current);
            var revision := if current.None? then 0 else current.value.revision;
            var behind := current.Some? && watermark < current.value.watermark;
            && (r.Ok? <==> expectedRevision == revision && !behind)
            && (r == Err(CheckpointConflict) <==> 0 <= expectedRevision != revision)
            && (r == Err(InvalidUsage) <==> expectedRevision < 0 || (expectedRevision == revision && behind))
  {
  }

  /** Write i stores revision i+1, had expected revision i, and never moves the watermark back. */
  lemma {:induction false} CheckpointHistory(log: seq<Write<Advance, Checkpoint>>, j: nat, i: nat)
    requires Serial(Decide, log) && j <= i < |log|
    ensures log[i].record.revision == i + 1 && log[i].op.expectedRevision == i
    ensures log[i].record.watermark == log[i].op.watermark && log[i].record.updatedAt == log[i].op.now
    ensures log[j].record.watermark <= log[i].record.watermark
    decreases i
  {
    if i > 0 {
      CheckpointHistory(log, Min(j, i - 1), i - 1);
    }
    assert Decide(log[i].op, RecordBefore(log, i)) == Ok(log[i].record);
  }

  /**
    In every interleaving: the stored revision counts the successful advances, each expected revision
    has at most one winner, a stale initializer wins only on an empty cell, and between any two states
    of a run the watermark does not move back.
   */
  lemma CheckpointProtocol(run: seq<System<Advance, Checkpoint>>, s: nat, t: nat)
    requires Run(Decide, run) && s <= t < |run|
    ensures run[t].cell.Some? ==> run[t].cell.value.record.revision == |run[t].log|
    ensures forall i, j ::
              0 <= i < |run[t].log| && 0 <= j < |run[t].log|
              && run[t].log[i].op.expectedRevision == run[t].log[j].op.expectedRevision ==>
                i == j
    ensures forall i :: 0 <= i < |run[t].log| && run[t].log[i].op.expectedRevision == 0 ==> i == 0
    ensures run[s].cell.Some? ==> run[t].cell.Some?
                                  && run[s].cell.value.record.watermark <= run[t].cell.value.record.watermark
                                  && run[s].cell.value.record.revision <= run[t].cell.value.record.revision
  {
    RunsAreSerial(Decide, run, s);
    RunsAreSerial(Decide, run, t);
    var log := run[t].log;
    forall i | 0 <= i < |log| ensures log[i].op.expectedRevision == i && log[i].record.revision == i + 1 {
      CheckpointHistory(log, i, i);
    }
    if run[s].cell.Some? {
      CheckpointHistory(log, |run[s].log| - 1, |log| - 1);
    }
  }
}
