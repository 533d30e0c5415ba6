/**
  Conditional state records. Every coordinator reads a record with its storage version, decides on
  a successor from what it read, and writes it conditionally; reads and writes of any number of
  clients interleave, and a client may stop between them.
 */
module Cells {
  import opened Prelude

  /** A stored record and its storage version, a counter separate from any revision inside the record. */
  datatype Row<+T> = Row(record: T, version: nat)

  /**
    `_write_state`: initialize if absent, otherwise patch only the storage version that was read.
    `initial` is the version the store gives to a new row. None means a conflict.
   */
  function WriteState<T>(cell: Option<Row<T>>, data: T, read: Option<Row<T>>, initial: nat): Option<Row<T>> {
    match read
    case None => if cell.Some? then None else Some(Row(data, initial))
    case Some(r) =>
      if cell.None? || cell.value.version != r.version then None else Some(Row(data, r.version + 1))
  }

  function RecordOf<T>(cell: Option<Row<T>>): Option<T> {
    match cell
    case None => None
    case Some(row) => Some(row.record)
  }

  // ---- All interleavings ----

  datatype Pending<Op, T> = Pending(op: Op, read: Option<Row<T>>)

  datatype Write<Op, T> = Write(op: Op, record: T)

  /** One cell, the operations in flight on it, and the history of successful writes. */
  datatype System<Op, T> = System(
    cell: Option<Row<T>>, pending: map<nat, Pending<Op, T>>, log: seq<Write<Op, T>>, initial: nat)

  type Decision<!Op, !T> = (Op, Option<T>) -> Result<T>

  ghost predicate Init<Op, T>(s: System<Op, T>) {
    s.cell == None && s.pending == map[] && s.log == []
  }

  /** A client reads the record for an operation. */
  ghost predicate ReadStep<Op, T>(s: System<Op, T>, t: System<Op, T>, client: nat, op: Op) {
    t == s.(pending := s.pending[client := Pending(op, s.cell)])
  }

  /** A client stops, or its decision fails, or its conditional write conflicts: nothing is stored. */
  ghost predicate DropStep<Op, T>(s: System<Op, T>, t: System<Op, T>, client: nat) {
    t == s.(pending := s.pending - {client})
  }

  /** A client's conditional write succeeds. */
  ghost predicate WriteStep<Op, T>(decide: Decision<Op, T>, s: System<Op, T>, t: System<Op, T>, client: nat) {
    && client in s.pending
    && var p := s.pending[client];
    && var d := decide(p.op, RecordOf(p.read));
    && d.Ok?
    && var cell := WriteState(s.cell, d.value, p.read, s.initial);
    && cell.Some?
    && t == System(cell, s.pending - {client}, s.log + [Write(p.op, d.value)], s.initial)
  }

  ghost predicate Next<Op(!new), T(!new)>(decide: Decision<Op, T>, s: System<Op, T>, t: System<Op, T>) {
    || (exists client: nat, op: Op :: ReadStep(s, t, client, op))
    || (exists client: nat :: DropStep(s, t, client))
    || (exists client: nat :: WriteStep(decide, s, t, client))
  }

  /** A finite run of the system. */
  ghost predicate Run<Op(!new), T(!new)>(decide: Decision<Op, T>, run: seq<System<Op, T>>) {
    && run != []
    && Init(run[0])
    && forall i :: 0 <= i < |run| - 1 ==> Next(decide, run[i], run[i + 1])
  }

  /** The cell after the first `k` writes of a log. */
  function CellAfter<Op, T>(log: seq<Write<Op, T>>, k: nat, initial: nat): Option<Row<T>>
    requires k <= |log|
  {
    if k == 0 then None else Some(Row(log[k - 1].record, initial + k - 1))
  }

  function RecordBefore<Op, T>(log: seq<Write<Op, T>>, k: nat): Option<T>
    requires k <= |log|
  {
    if k == 0 then None else Some(log[k - 1].record)
  }

  /** Each write was decided from exactly the record before it: the log is a sequential execution. */
  ghost predicate Serial<Op, T>(decide: Decision<Op, T>, log: seq<Write<Op, T>>) {
    forall i {:trigger RecordBefore(log, i)} :: 0 <= i < |log| ==>
      decide(log[i].op, RecordBefore(log, i)) == Ok(log[i].record)
  }

  ghost predicate ReadFrom<Op, T>(p: Pending<Op, T>, log: seq<Write<Op, T>>, k: nat, initial: nat) {
    k <= |log| && p.read == CellAfter(log, k, initial)
  }

  ghost predicate Invariant<Op, T>(decide: Decision<Op, T>, s: System<Op, T>) {
    && s.cell == CellAfter(s.log, |s.log|, s.initial)
    && Serial(decide, s.log)
    && forall c :: c in s.pending ==> exists k: nat :: ReadFrom(s.pending[c], s.log, k, s.initial)
  }

  lemma WriteKeepsInvariant<Op(!new), T(!new)>(decide: Decision<Op, T>, s: System<Op, T>, t: System<Op, T>, client: nat)
    requires Invariant(decide, s) && WriteStep(decide, s, t, client)
    ensures Invariant(decide, t) && s.log <= t.log && t.initial == s.initial
  {
    var p := s.pending[client];
    var k: nat :| ReadFrom(p, s.log, k, s.initial);
    assert k == |s.log|;
    forall i | 0 <= i < |t.log| ensures decide(t.log[i].op, RecordBefore(t.log, i)) == Ok(t.log[i].record) {
      assert i < |s.log| ==> RecordBefore(t.log, i) == RecordBefore(s.log, i);
    }
    forall c | c in t.pending ensures exists k: nat :: ReadFrom(t.pending[c], t.log, k, t.initial) {
      var j: nat :| ReadFrom(s.pending[c], s.log, j, s.initial);
      assert ReadFrom(t.pending[c], t.log, j, t.initial);
    }
  }

  lemma StepKeepsInvariant<Op(!new), T(!new)>(decide: Decision<Op, T>, s: System<Op, T>, t: System<Op, T>)
    requires Invariant(decide, s) && Next(decide, s, t)
    ensures Invariant(decide, t) && s.log <= t.log && t.initial == s.initial
  {
    hide WriteStep, Serial;
    if client: nat, op: Op :| ReadStep(s, t, client, op) {
      assert ReadFrom(t.pending[client], t.log, |t.log|, t.initial);
    } else if client: nat :| WriteStep(decide, s, t, client) {
      WriteKeepsInvariant(decide, s, t, client);
    }
  }

  /**
    Interleaved reads and conditional writes behave as if every successful operation had been atomic,
    whatever version the store starts from: in every reachable state the stored record is the last of a
    sequential execution, and every other operation left no trace.
   */
  lemma {:induction false} RunsAreSerial<Op(!new), T(!new)>(decide: Decision<Op, T>, run: seq<System<Op, T>>, i: nat)
    requires Run(decide, run) && i < |run|
    ensures Invariant(decide, run[i])
    ensures forall j :: 0 <= j <= i ==> run[j].log <= run[i].log
  {
    if i > 0 {
      RunsAreSerial(decide, run, i - 1);
      StepKeepsInvariant(decide, run[i - 1], run[i]);
    }
  }
}
