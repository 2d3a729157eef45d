/** The ingest pipeline as a step system. A state is what is on disk, what is in
    the database and what one process holds in RAM, plus a few observer fields
    that no step reads. Every fault of the store and the checkpoint is a step of its
    own, so a list of steps is one interleaving of handlers, flusher, faults, crashes
    and restarts. Appends that fail come on top, in `PipelineFaults`. */
module Pipeline {
  import opened Ingest
  import opened Buffer
  import opened Spool
  import Store

  /** The flusher between draining a batch and being done with it. */
  datatype Flight = Idle | Drained(batch: seq<Record>) | Committed(batch: seq<Record>, maxSeq: nat)

  datatype State = State(
    up: bool,
    spool: SpoolState,
    tables: Store.Tables,
    buffer: BufferState,
    flight: Flight,
    recovering: seq<Record>,     // replayed at startup, not yet enqueued
    pending: seq<seq<Record>>,   // appended by a request handler, not yet enqueued
    // Observers.
    issued: set<Record>,         // everything ever appended
    acked: set<Record>,          // everything a client was told is safe
    written: set<Record>,        // everything that went through a committed insert
    accepted: seq<Record>,       // what this life let into the queue, in order
    flushed: seq<Record>)        // what this life is finished with, in order

  /** What a failed checkpoint write leaves in the file. */
  datatype Residue = Unchanged | Tear | Land

  datatype Step =
    | Append(points: seq<Point>)
    | Enqueue(i: nat)
    | Drain
    | CommitOk
    | CommitFail
    | CheckpointOk
    | CheckpointFail(residue: Residue)
    | Compact(bound: nat)
    | Crash
    | Restart(first: nat)   // the number its first record will get; 1 in the program
    | Reload(n: nat)

  const INIT := State(true, FRESH, Store.NO_ROWS, EMPTY, Idle, [], [], {}, {}, {}, [], [])

  function BatchOf(f: Flight): seq<Record> {
    if f.Idle? then [] else f.batch
  }

  /** The records of a batch that are inserted rather than only checkpointed. */
  function Writes(rs: seq<Record>): seq<Record> {
    if rs == [] then []
    else
      var before := Writes(rs[..|rs| - 1]);
      if rs[|rs| - 1].checkpointOnly then before else before + [rs[|rs| - 1]]
  }

  ghost predicate Enabled(cfg: Config, s: State, step: Step) {
    match step
    case Append(_) => s.up && s.recovering == []
    case Enqueue(i) => s.up && i < |s.pending|
    case Drain => s.up && s.flight.Idle? && s.buffer.queue != [] && cfg.batchSize > 0
    case CommitOk => s.flight.Drained? && Store.Insertable(s.tables, Writes(s.flight.batch))
    case CommitFail => s.flight.Drained? && Writes(s.flight.batch) != []
    case CheckpointOk => s.flight.Committed? && (s.flight.maxSeq == 0 || !s.spool.checkpoint.Torn?)
    case CheckpointFail(residue) =>
      && s.flight.Committed? && s.flight.maxSeq > 0
      && (residue.Unchanged? || (!s.spool.checkpoint.Torn? && s.flight.maxSeq > LastGood(s.spool.checkpoint)))
    case Compact(_) => s.up && !s.spool.checkpoint.Torn?
    case Crash => s.up
    case Restart(_) => !s.up && NextReplay(s.spool).Some?
    case Reload(n) =>
      && s.up && 0 < n <= |s.recovering|
      && EnqueueDecision(cfg, s.buffer, s.recovering[..n]).Accepted?
  }

  function Without<T>(xs: seq<T>, i: nat): seq<T>
    requires i < |xs|
  {
    xs[..i] + xs[i + 1..]
  }

  function Members(rs: seq<Record>): set<Record> {
    set r | r in rs
  }

  /** A batch enters the queue; it is acknowledged if `ack`. */
  function Admit(cfg: Config, s: State, batch: seq<Record>, ack: bool): State {
    s.(buffer := Enqueued(cfg, s.buffer, batch),
       accepted := s.accepted + Filter(cfg, batch, s.buffer.last).out,
       acked := if ack then s.acked + Members(batch) else s.acked)
  }

  function Requeue(s: State): State {
    s.(buffer := s.buffer.(queue := BatchOf(s.flight) + s.buffer.queue), flight := Idle)
  }

  function Leave(c: CheckpointFile, residue: Residue, n: nat): CheckpointFile {
    match residue
    case Unchanged => c
    case Tear => Torn(LastGood(c))
    case Land => Holds(n)
  }

  ghost function Apply(cfg: Config, s: State, step: Step): State
    requires Enabled(cfg, s, step)
  {
    match step
    case Append(points) =>
      var rs := NewRecords(cfg, s.spool.nextSeq, points);
      s.(spool := AppendAll(cfg, s.spool, points), pending := s.pending + [rs], issued := s.issued + Members(rs))
    case Enqueue(i) =>
      var batch := s.pending[i];
      var rest := s.(pending := Without(s.pending, i));
      if EnqueueDecision(cfg, s.buffer, batch).Accepted? then Admit(cfg, rest, batch, true) else rest
    case Drain =>
      var n := DrainCount(s.buffer, cfg.batchSize);
      s.(flight := Drained(s.buffer.queue[..n]), buffer := s.buffer.(queue := s.buffer.queue[n..]))
    case CommitOk =>
      var batch := s.flight.batch;
      s.(flight := Committed(batch, MaxSeqNo(batch)),
         tables := Store.InsertAll(s.tables, Writes(batch)),
         written := s.written + Members(Writes(batch)))
    case CommitFail => Requeue(s)
    case CheckpointOk =>
      s.(flight := Idle,
         spool := s.spool.(checkpoint := Advanced(s.spool.checkpoint, s.flight.maxSeq)),
         flushed := s.flushed + s.flight.batch)
    case CheckpointFail(residue) =>
      Requeue(s).(spool := s.spool.(checkpoint := Leave(s.spool.checkpoint, residue, s.flight.maxSeq)))
    case Compact(bound) => s.(spool := Compacted(s.spool, bound))
    case Crash =>
      s.(up := false, buffer := EMPTY, flight := Idle, recovering := [], pending := [],
         accepted := [], flushed := [], spool := s.spool.(active := Closed))
    case Restart(first) =>
      s.(up := true, spool := s.spool.(nextSeq := first), recovering := NextReplay(s.spool).value)
    case Reload(n) =>
      Admit(cfg, s, s.recovering[..n], false).(recovering := s.recovering[n..])
  }

  /** The state a list of steps leads to, if each is enabled when its turn comes. */
  ghost function Exec(cfg: Config, s: State, steps: seq<Step>): Option<State>
    decreases |steps|
  {
    if steps == [] then Some(s)
    else if Enabled(cfg, s, steps[0]) then Exec(cfg, Apply(cfg, s, steps[0]), steps[1..])
    else None
  }

  lemma {:induction false} ExecConcat(cfg: Config, s: State, a: seq<Step>, b: seq<Step>)
    requires Exec(cfg, s, a).Some?
    ensures Exec(cfg, s, a + b) == Exec(cfg, Exec(cfg, s, a).value, b)
    decreases |a|
  {
    if a == [] {
      assert a + b == b;
    } else {
      assert (a + b)[1..] == a[1..] + b;
      ExecConcat(cfg, Apply(cfg, s, a[0]), a[1..], b);
    }
  }

  lemma ExecOne(cfg: Config, s: State, step: Step)
    requires Enabled(cfg, s, step)
    ensures Exec(cfg, s, [step]) == Some(Apply(cfg, s, step))
  {
    assert [step][1..] == [];
    assert Exec(cfg, Apply(cfg, s, step), []) == Some(Apply(cfg, s, step));
  }

  lemma ExecSnoc(cfg: Config, s: State, steps: seq<Step>, mid: State, step: Step)
    requires Exec(cfg, s, steps) == Some(mid) && Enabled(cfg, mid, step)
    ensures Exec(cfg, s, steps + [step]) == Some(Apply(cfg, mid, step))
  {
    ExecOne(cfg, mid, step);
    ExecConcat(cfg, s, steps, [step]);
  }

  lemma Exec2(cfg: Config, s: State, a: Step, b: Step)
    requires Enabled(cfg, s, a) && Enabled(cfg, Apply(cfg, s, a), b)
    ensures Exec(cfg, s, [a, b]) == Some(Apply(cfg, Apply(cfg, s, a), b))
  {
    ExecOne(cfg, s, a);
    ExecSnoc(cfg, s, [a], Apply(cfg, s, a), b);
    assert [a] + [b] == [a, b];
  }

  lemma ExecCons(cfg: Config, s: State, step: Step, steps: seq<Step>)
    requires Enabled(cfg, s, step)
    ensures Exec(cfg, s, [step] + steps) == Exec(cfg, Apply(cfg, s, step), steps)
  {
    ExecOne(cfg, s, step);
    ExecConcat(cfg, s, [step], steps);
  }

  /* ------------------------------- safety ------------------------------- */

  /** The record's hash is in the database, or an earlier retained record that
      makes it redundant is. */
  ghost predicate Covered(cfg: Config, s: State, r: Record) {
    || r.point.hash in Store.Hashes(s.tables.raw)
    || exists w :: w in s.written && Suppresses(cfg, w, r) && w.point.hash in Store.Hashes(s.tables.raw)
  }

  /** No acknowledged record is lost: it is durable already, or still on disk above
      the checkpoint, where a replay looks for it. */
  ghost predicate Safe(cfg: Config, s: State) {
    forall r :: r in s.acked ==>
      Covered(cfg, s, r) || (r.seqNo > LastGood(s.spool.checkpoint) && OnDisk(s.spool.dir, r))
  }

  /** The two things the program assumes without enforcing: sequence numbers are
      never reused, and handlers enqueue in the order they appended. */
  ghost predicate Orderly(s: State, step: Step) {
    match step
    case Append(_) => SeqFresh(s.spool)
    case Enqueue(i) => i == 0
    case _ => true
  }

  ghost predicate OrderlyRun(cfg: Config, s: State, steps: seq<Step>)
    decreases |steps|
  {
    steps == [] ||
    (Enabled(cfg, s, steps[0]) && Orderly(s, steps[0]) && OrderlyRun(cfg, Apply(cfg, s, steps[0]), steps[1..]))
  }

  /* ----------------------------- the invariant --------------------------- */

  function InRam(s: State): seq<Record> {
    BatchOf(s.flight) + s.buffer.queue
  }

  function Waiting(s: State): seq<Record> {
    s.recovering + Flatten(s.pending)
  }

  /** First in, first out, whatever fails: nothing lost, doubled or reordered. */
  ghost predicate Conserved(s: State) {
    s.accepted == s.flushed + InRam(s)
  }

  ghost predicate InSequence(s: State) {
    Increasing(s.accepted + Waiting(s))
  }

  ghost predicate Deduped(cfg: Config, s: State) {
    WellFiltered(cfg, s.accepted) && s.buffer.last == LastRetained(cfg, s.accepted)
  }

  ghost predicate DiskOk(s: State) {
    && SpoolOk(s.spool)
    && (forall r :: OnDisk(s.spool.dir, r) ==> r in s.issued)
    && (forall r :: r in s.issued ==> r.seqNo <= LastGood(s.spool.checkpoint) || OnDisk(s.spool.dir, r))
  }

  /** A queued record is an issued one, or the marker of one. */
  ghost predicate FromIssued(s: State, e: Record) {
    exists r :: r in s.issued && (e == r || e == Marker(r))
  }

  ghost predicate IssuedOk(s: State) {
    && (forall r :: r in s.issued ==> !r.checkpointOnly && r.seqNo >= 1)
    && (forall a, b :: a in s.issued && b in s.issued && a.seqNo == b.seqNo ==> a == b)
    && s.acked <= s.issued && s.written <= s.issued
    && (forall e :: e in s.accepted ==> FromIssued(s, e))
  }

  ghost predicate WaitingOk(s: State) {
    forall r :: r in Waiting(s) ==> OnDisk(s.spool.dir, r) && r.seqNo > LastGood(s.spool.checkpoint)
  }

  ghost predicate RowFromWritten(s: State, row: Store.RawRow) {
    exists w :: w in s.written && w.seqNo == row.seqNo && w.point.hash == row.hash && Store.OwnerOf(w) == row.userId
  }

  ghost predicate TablesOk(s: State) {
    && Store.Consistent(s.tables)
    && (forall w :: w in s.written ==> w.point.hash in Store.Hashes(s.tables.raw))
    && (forall i :: 0 <= i < |s.tables.raw| ==> RowFromWritten(s, s.tables.raw[i]))
  }

  ghost predicate KeptAreWritten(s: State, rs: seq<Record>) {
    forall r :: r in rs && !r.checkpointOnly ==> r in s.written
  }

  ghost predicate FlightOk(s: State) {
    && KeptAreWritten(s, s.flushed)
    && (forall r :: r in s.flushed ==> r.seqNo <= LastGood(s.spool.checkpoint))
    && (s.flight.Committed? ==> KeptAreWritten(s, s.flight.batch) && s.flight.maxSeq == MaxSeqNo(s.flight.batch))
    && (!s.flight.Idle? ==> s.flight.batch != [])
  }

  /** While the process is up, an acknowledged record above the checkpoint is in
      RAM on its way to the database. */
  ghost predicate Tracked(s: State) {
    s.up ==> forall r :: r in s.acked && r.seqNo > LastGood(s.spool.checkpoint) ==>
      r in InRam(s) || Marker(r) in InRam(s) || r in s.recovering
  }

  /** Handlers start only once recovery is through, and a dead process holds nothing. */
  ghost predicate PhaseOk(s: State) {
    && (s.pending == [] || s.recovering == [])
    && (!s.up ==> InRam(s) == [] && s.flushed == [] && s.recovering == [] && s.pending == [] && s.spool.active.Closed?
                  && s.buffer == EMPTY)
  }

  ghost predicate Inv(cfg: Config, s: State) {
    && Conserved(s) && InSequence(s) && Deduped(cfg, s)
    && DiskOk(s) && IssuedOk(s) && WaitingOk(s) && TablesOk(s) && FlightOk(s)
    && Safe(cfg, s) && Tracked(s) && PhaseOk(s)
  }
}
