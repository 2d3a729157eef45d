/** What holds of every run of the pipeline, orderly or not: first-in-first-out
    conservation, the buffer's true capacity, and the soundness of suppression. */
module PipelineBounds {
  import opened Ingest
  import opened Buffer
  import opened Spool
  import opened Pipeline
  import Store

  /* ------------------------------ capacity ------------------------------- */

  function Least(a: nat, b: nat): nat {
    if a < b then a else b
  }

  /** The queue minus a possible requeued batch respects both limits; while a
      batch is out, so does the queue itself. */
  ghost predicate WithinCapacity(cfg: Config, s: State) {
    var extra := if s.flight.Idle? then Least(cfg.batchSize, |s.buffer.queue|) else 0;
    && |s.buffer.queue| - extra <= cfg.maxPoints
    && TotalBytes(cfg.lineBytes, s.buffer.queue[extra..]) <= cfg.maxBytes
    && |BatchOf(s.flight)| <= cfg.batchSize
  }

  lemma AdmitWithinCapacity(cfg: Config, s: State, s': State, batch: seq<Record>)
    requires WithinCapacity(cfg, s) && EnqueueDecision(cfg, s.buffer, batch).Accepted?
    requires s'.flight == s.flight && s'.buffer == Enqueued(cfg, s.buffer, batch)
    ensures WithinCapacity(cfg, s')
  {
    var out := Filter(cfg, batch, s.buffer.last).out;
    FilterShape(cfg, batch, s.buffer.last);
    if batch == [] {
      assert s.buffer.queue + out == s.buffer.queue;
    } else {
      TotalBytesConcat(cfg.lineBytes, s.buffer.queue, out);
      var extra := if s.flight.Idle? then Least(cfg.batchSize, |s'.buffer.queue|) else 0;
      TotalBytesSplit(cfg.lineBytes, s'.buffer.queue, extra);
    }
  }

  lemma DrainWithinCapacity(cfg: Config, s: State)
    requires WithinCapacity(cfg, s) && Enabled(cfg, s, Drain)
    ensures WithinCapacity(cfg, Apply(cfg, s, Drain))
  {
    var rest := Apply(cfg, s, Drain).buffer.queue;
    assert rest[0..] == rest;
  }

  lemma RequeueWithinCapacity(cfg: Config, s: State, s': State)
    requires WithinCapacity(cfg, s) && !s.flight.Idle?
    requires s'.flight.Idle? && s'.buffer.queue == s.flight.batch + s.buffer.queue
    ensures WithinCapacity(cfg, s')
  {
    var extra := Least(cfg.batchSize, |s'.buffer.queue|);
    var n := |s.flight.batch|;
    assert s'.buffer.queue[extra..] == s.buffer.queue[extra - n..];
    assert s.buffer.queue[0..] == s.buffer.queue;
    TotalBytesSplit(cfg.lineBytes, s.buffer.queue, extra - n);
  }

  lemma DoneWithinCapacity(cfg: Config, s: State, s': State)
    requires WithinCapacity(cfg, s) && !s.flight.Idle?
    requires s'.buffer == s.buffer && |BatchOf(s'.flight)| <= cfg.batchSize
    ensures WithinCapacity(cfg, s')
  {
    var queue := s.buffer.queue;
    var extra := if s'.flight.Idle? then Least(cfg.batchSize, |queue|) else 0;
    assert queue[0..] == queue;
    TotalBytesSplit(cfg.lineBytes, queue, extra);
  }

  lemma StepWithinCapacity(cfg: Config, s: State, step: Step)
    requires WithinCapacity(cfg, s) && Enabled(cfg, s, step)
    ensures WithinCapacity(cfg, Apply(cfg, s, step))
  {
    var s' := Apply(cfg, s, step);
    match step
    case Enqueue(i) =>
      if EnqueueDecision(cfg, s.buffer, s.pending[i]).Accepted? {
        AdmitWithinCapacity(cfg, s, s', s.pending[i]);
      }
    case Reload(n) => AdmitWithinCapacity(cfg, s, s', s.recovering[..n]);
    case Drain => DrainWithinCapacity(cfg, s);
    case CommitFail => RequeueWithinCapacity(cfg, s, s');
    case CheckpointFail(_) => RequeueWithinCapacity(cfg, s, s');
    case CommitOk => DoneWithinCapacity(cfg, s, s');
    case CheckpointOk => DoneWithinCapacity(cfg, s, s');
    case Append(_) =>
    case Compact(_) =>
    case Crash =>
    case Restart(_) =>
  }

  /* ----------------------------- conservation ---------------------------- */

  lemma StepConserves(cfg: Config, s: State, step: Step)
    requires Conserved(s) && Enabled(cfg, s, step)
    ensures Conserved(Apply(cfg, s, step))
  {
    var s' := Apply(cfg, s, step);
    match step
    case Enqueue(i) =>
      if EnqueueDecision(cfg, s.buffer, s.pending[i]).Accepted? {
        AdmitConserves(cfg, s, s', s.pending[i]);
      }
    case Reload(n) => AdmitConserves(cfg, s, s', s.recovering[..n]);
    case Drain => assert InRam(s') == InRam(s);
    case CommitFail => assert InRam(s') == InRam(s);
    case CheckpointFail(_) => assert InRam(s') == InRam(s);
    case CheckpointOk =>
      assert s.flushed + (s.flight.batch + s.buffer.queue) == s.flushed + s.flight.batch + ([] + s.buffer.queue);
    case CommitOk =>
    case Append(_) =>
    case Compact(_) =>
    case Crash =>
    case Restart(_) =>
  }

  lemma AdmitConserves(cfg: Config, s: State, s': State, batch: seq<Record>)
    requires Conserved(s) && s'.flight == s.flight && s'.flushed == s.flushed
    requires s'.buffer == Enqueued(cfg, s.buffer, batch)
    requires s'.accepted == s.accepted + Filter(cfg, batch, s.buffer.last).out
    ensures Conserved(s')
  {
    var out := Filter(cfg, batch, s.buffer.last).out;
    assert InRam(s') == InRam(s) + out;
    assert s.flushed + InRam(s) + out == s.flushed + (InRam(s) + out);
  }

  /* -------------------------------- dedupe ------------------------------- */

  ghost predicate Plain(rs: seq<Record>) {
    forall r :: r in rs ==> !r.checkpointOnly
  }

  /** Markers are made by the buffer only: none on disk, none waiting. */
  ghost predicate MarkersOnlyInRam(s: State) {
    && (forall r :: OnDisk(s.spool.dir, r) ==> !r.checkpointOnly)
    && Plain(s.recovering)
    && (forall i :: 0 <= i < |s.pending| ==> Plain(s.pending[i]))
  }

  lemma StepKeepsMarkers(cfg: Config, s: State, step: Step)
    requires MarkersOnlyInRam(s) && Enabled(cfg, s, step)
    ensures MarkersOnlyInRam(Apply(cfg, s, step))
  {
    hide EnqueueDecision, Enqueued, Filter, Replay, AppendAll, Compacted, Store.Insertable, Store.InsertAll;
    var s' := Apply(cfg, s, step);
    match step
    case Append(points) =>
      AppendAllOnDisk(cfg, s.spool, points);
      assert Plain(NewRecords(cfg, s.spool.nextSeq, points));
    case Restart(_) => ReplayMembers(s.spool.dir, LastGood(s.spool.checkpoint));
    case Compact(bound) => CompactionOnlyRemoves(s.spool, bound);
    case Enqueue(i) => assert forall k :: 0 <= k < |s'.pending| ==> s'.pending[k] in s.pending;
    case Reload(n) =>
    case Drain =>
    case CommitOk =>
    case CommitFail =>
    case CheckpointOk =>
    case CheckpointFail(_) =>
    case Crash =>
  }

  lemma StepKeepsDedupe(cfg: Config, s: State, step: Step)
    requires Deduped(cfg, s) && MarkersOnlyInRam(s) && Enabled(cfg, s, step)
    ensures Deduped(cfg, Apply(cfg, s, step))
  {
    match step
    case Enqueue(i) => FilterExtendsHistory(cfg, s.accepted, s.pending[i]);
    case Reload(n) => FilterExtendsHistory(cfg, s.accepted, s.recovering[..n]);
    case Append(_) =>
    case Drain =>
    case CommitOk =>
    case CommitFail =>
    case CheckpointOk =>
    case CheckpointFail(_) =>
    case Compact(_) =>
    case Crash =>
    case Restart(_) =>
  }

  ghost predicate AlwaysInv(cfg: Config, s: State) {
    WithinCapacity(cfg, s) && Conserved(s) && MarkersOnlyInRam(s) && Deduped(cfg, s)
  }

  lemma {:induction false} EveryRunKeeps(cfg: Config, s: State, steps: seq<Step>)
    requires AlwaysInv(cfg, s) && Exec(cfg, s, steps).Some?
    ensures AlwaysInv(cfg, Exec(cfg, s, steps).value)
    decreases |steps|
  {
    if steps != [] {
      StepWithinCapacity(cfg, s, steps[0]);
      StepConserves(cfg, s, steps[0]);
      StepKeepsMarkers(cfg, s, steps[0]);
      StepKeepsDedupe(cfg, s, steps[0]);
      EveryRunKeeps(cfg, Apply(cfg, s, steps[0]), steps[1..]);
    }
  }

  lemma InitAlways(cfg: Config)
    ensures AlwaysInv(cfg, INIT)
  {
  }

  /* ------------------------------- theorems ------------------------------ */

  /** FIFO conservation under every pattern of faults: what a life has finished,
      what the flusher holds and what is queued, put end to end, is exactly what
      that life accepted, in order. */
  lemma FifoConservation(cfg: Config, steps: seq<Step>)
    requires Exec(cfg, INIT, steps).Some?
    ensures var s := Exec(cfg, INIT, steps).value;
      s.flushed + BatchOf(s.flight) + s.buffer.queue == s.accepted
  {
    InitAlways(cfg);
    EveryRunKeeps(cfg, INIT, steps);
    var s := Exec(cfg, INIT, steps).value;
    assert s.flushed + BatchOf(s.flight) + s.buffer.queue == s.flushed + InRam(s);
  }

  /** The buffer's true capacity: within both limits while a batch is out, and
      otherwise above them by at most one requeued batch. */
  lemma TrueCapacity(cfg: Config, steps: seq<Step>)
    requires Exec(cfg, INIT, steps).Some?
    ensures var s := Exec(cfg, INIT, steps).value; var bytes := TotalBytes(cfg.lineBytes, s.buffer.queue);
      && |s.buffer.queue| <= cfg.maxPoints + cfg.batchSize
      && (!s.flight.Idle? ==> |s.buffer.queue| <= cfg.maxPoints && bytes <= cfg.maxBytes)
      && bytes <= cfg.maxBytes
           + TotalBytes(cfg.lineBytes, s.buffer.queue[..Least(cfg.batchSize, |s.buffer.queue|)])
  {
    InitAlways(cfg);
    EveryRunKeeps(cfg, INIT, steps);
    var queue := Exec(cfg, INIT, steps).value.buffer.queue;
    assert queue[0..] == queue;
    TotalBytesSplit(cfg.lineBytes, queue, Least(cfg.batchSize, |queue|));
  }

  /** `k` is the latest retained record of `i`'s device before `i`. */
  ghost predicate PreviousRetained(acc: seq<Record>, k: int, i: int) {
    && 0 <= k < i < |acc|
    && !acc[k].checkpointOnly && acc[k].deviceId == acc[i].deviceId
    && forall m :: k < m < i && acc[m].deviceId == acc[i].deviceId ==> acc[m].checkpointOnly
  }

  /** Both points have a time, these are at most the time threshold apart, whichever is
      earlier, and the places are within the distance threshold. */
  ghost predicate WithinThresholds(cfg: Config, p: Point, q: Point) {
    && p.timestamp != 0 && q.timestamp != 0
    && p.timestamp - q.timestamp <= cfg.dedupeTime && q.timestamp - p.timestamp <= cfg.dedupeTime
    && cfg.distance(p.lat, p.lon, q.lat, q.lon) <= cfg.dedupeDistance
  }

  lemma CloseIff(cfg: Config, w: Record, r: Record)
    ensures CloseTo(cfg, StateOf(w), r) <==> WithinThresholds(cfg, w.point, r.point)
  {
  }

  /** The latest retained record of its device makes record `i` redundant. */
  ghost predicate Redundant(cfg: Config, acc: seq<Record>, i: nat) {
    && (cfg.dedupeTime > 0 || cfg.dedupeDistance != 0.0)
    && exists k :: PreviousRetained(acc, k, i) && WithinThresholds(cfg, acc[k].point, acc[i].point)
  }

  lemma SuppressionExactAt(cfg: Config, acc: seq<Record>, i: nat)
    requires WellFiltered(cfg, acc) && i < |acc|
    ensures acc[i].checkpointOnly <==> Redundant(cfg, acc, i)
  {
    if acc[i].checkpointOnly {
      var k := LastRetainedWitness(cfg, acc[..i], acc[i].deviceId);
      CloseIff(cfg, acc[k], acc[i]);
      assert PreviousRetained(acc, k, i);
    } else if DedupeOn(cfg) {
      forall k | PreviousRetained(acc, k, i) ensures !WithinThresholds(cfg, acc[k].point, acc[i].point) {
        RetainedAreApart(cfg, acc, k, i);
        CloseIff(cfg, acc[k], acc[i]);
      }
    }
  }

  /** Suppression is exact in every run: a record a life accepted is a marker if and
      only if some threshold is set and the latest retained record of its device lies
      within both thresholds. */
  lemma SuppressionIsExact(cfg: Config, steps: seq<Step>, i: nat)
    requires Exec(cfg, INIT, steps).Some?
    requires i < |Exec(cfg, INIT, steps).value.accepted|
    ensures var acc := Exec(cfg, INIT, steps).value.accepted;
      acc[i].checkpointOnly <==> Redundant(cfg, acc, i)
  {
    InitAlways(cfg);
    EveryRunKeeps(cfg, INIT, steps);
    SuppressionExactAt(cfg, Exec(cfg, INIT, steps).value.accepted, i);
  }
}
