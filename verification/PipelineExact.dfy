/** When exactly a run keeps every acknowledgement, for every run whatever: any
    order of enqueues, any numbering, any faults. Two moments decide it, and at
    both the program could look before it leaps. */
module PipelineExact {
  import opened Ingest
  import opened Buffer
  import opened Spool
  import opened Pipeline
  import opened PipelineBounds
  import opened PipelineSafety
  import Store

  /** `w` was kept and is a near duplicate of `r`, whichever was numbered first. */
  predicate Resembles(cfg: Config, w: Record, r: Record) {
    !w.checkpointOnly && w.deviceId == r.deviceId && CloseTo(cfg, StateOf(w), r)
  }

  /** The record's hash is in the database, or that of a kept near duplicate is. */
  ghost predicate Represented(cfg: Config, s: State, r: Record) {
    || r.point.hash in Store.Hashes(s.tables.raw)
    || exists w :: w in s.written && Resembles(cfg, w, r) && w.point.hash in Store.Hashes(s.tables.raw)
  }

  /** No acknowledged record is lost, when handlers may overtake each other and
      "earlier" can only mean "let into the queue earlier". */
  ghost predicate Secure(cfg: Config, s: State) {
    forall r :: r in s.acked ==>
      Represented(cfg, s, r) || (r.seqNo > LastGood(s.spool.checkpoint) && OnDisk(s.spool.dir, r))
  }

  lemma SafeIsSecure(cfg: Config, s: State)
    requires Safe(cfg, s)
    ensures Secure(cfg, s)
  {
    forall r | r in s.acked && Covered(cfg, s, r) ensures Represented(cfg, s, r) {
      if r.point.hash !in Store.Hashes(s.tables.raw) {
        var w :| w in s.written && Suppresses(cfg, w, r) && w.point.hash in Store.Hashes(s.tables.raw);
        assert Resembles(cfg, w, r);
      }
    }
  }

  lemma RepresentedMonotone(cfg: Config, s: State, s': State, r: Record)
    requires Represented(cfg, s, r)
    requires s.written <= s'.written && Store.Hashes(s.tables.raw) <= Store.Hashes(s'.tables.raw)
    ensures Represented(cfg, s', r)
  {
    if r.point.hash !in Store.Hashes(s.tables.raw) {
      var w :| w in s.written && Resembles(cfg, w, r) && w.point.hash in Store.Hashes(s.tables.raw);
      assert w in s'.written;
    }
  }

  /* --------------------- what every run keeps, orderly or not --------------- */

  /** Issued records stay on disk until the checkpoint passes them. */
  ghost predicate DiskHolds(s: State) {
    && (forall r :: r in s.issued ==> r.seqNo <= LastGood(s.spool.checkpoint) || OnDisk(s.spool.dir, r))
    && (forall r :: r in s.issued ==> !r.checkpointOnly)
    && s.acked <= s.issued
    && (forall i, r :: 0 <= i < |s.pending| && r in s.pending[i] ==> r in s.issued)
  }

  ghost predicate WrittenStored(s: State) {
    forall w :: w in s.written ==> w.point.hash in Store.Hashes(s.tables.raw)
  }

  ghost predicate DownIsEmpty(s: State) {
    !s.up ==> s.flight.Idle? && s.buffer.queue == [] && s.flushed == []
  }

  ghost predicate Core(cfg: Config, s: State) {
    && Conserved(s) && Deduped(cfg, s) && MarkersOnlyInRam(s)
    && DiskHolds(s) && WrittenStored(s) && FlightOk(s) && Tracked(s) && DownIsEmpty(s)
  }

  lemma InitCore(cfg: Config)
    ensures Core(cfg, INIT) && Secure(cfg, INIT)
  {
  }

  lemma InvIsCore(cfg: Config, s: State)
    requires Inv(cfg, s)
    ensures Core(cfg, s) && Secure(cfg, s)
  {
    SafeIsSecure(cfg, s);
    forall i, r | 0 <= i < |s.pending| && r in s.pending[i] ensures r in Waiting(s) {
      FlattenMember(s.pending, i, r);
    }
  }

  lemma {:induction false} FlattenMember(xss: seq<seq<Record>>, i: nat, r: Record)
    requires i < |xss| && r in xss[i]
    ensures r in Flatten(xss)
  {
    if i > 0 { FlattenMember(xss[1..], i - 1, r); }
  }

  lemma AppendHoldsDisk(cfg: Config, s: State, points: seq<Point>)
    requires DiskHolds(s) && Enabled(cfg, s, Append(points))
    ensures DiskHolds(Apply(cfg, s, Append(points)))
  {
    var s' := Apply(cfg, s, Append(points));
    var rs := NewRecords(cfg, s.spool.nextSeq, points);
    AppendAllOnDisk(cfg, s.spool, points);
    forall i, r | 0 <= i < |s'.pending| && r in s'.pending[i] ensures r in s'.issued {
      if i < |s.pending| { assert r in s.pending[i]; } else { assert r in rs; }
    }
  }

  lemma CompactHoldsDisk(cfg: Config, s: State, bound: nat)
    requires DiskHolds(s) && Enabled(cfg, s, Compact(bound))
    ensures DiskHolds(Apply(cfg, s, Compact(bound)))
  {
    var s' := Apply(cfg, s, Compact(bound));
    forall r: Record | OnDisk(s.spool.dir, r) && r.seqNo > LastGood(s.spool.checkpoint)
      ensures OnDisk(s'.spool.dir, r)
    {
      CompactionKeepsUncommitted(s.spool, bound, r);
    }
  }

  lemma EnqueueHoldsDisk(cfg: Config, s: State, i: nat)
    requires DiskHolds(s) && Enabled(cfg, s, Enqueue(i))
    ensures DiskHolds(Apply(cfg, s, Enqueue(i)))
  {
    var s' := Apply(cfg, s, Enqueue(i));
    forall k, r | 0 <= k < |s'.pending| && r in s'.pending[k] ensures r in s'.issued {
      assert s'.pending[k] == s.pending[if k < i then k else k + 1];
    }
  }

  lemma StepKeepsDisk(cfg: Config, s: State, step: Step)
    requires DiskHolds(s) && Enabled(cfg, s, step)
    ensures DiskHolds(Apply(cfg, s, step))
  {
    match step
    case Append(points) => AppendHoldsDisk(cfg, s, points);
    case Compact(bound) => CompactHoldsDisk(cfg, s, bound);
    case Enqueue(i) => EnqueueHoldsDisk(cfg, s, i);
    case _ =>
  }

  lemma StepKeepsFlight(cfg: Config, s: State, step: Step)
    requires FlightOk(s) && DownIsEmpty(s) && Enabled(cfg, s, step)
    ensures FlightOk(Apply(cfg, s, step)) && DownIsEmpty(Apply(cfg, s, step))
  {
    match step
    case CommitOk => WritesMembers(s.flight.batch);
    case CheckpointOk => MaxSeqNoBounds(s.flight.batch);
    case Append(points) => AppendAllOnDisk(cfg, s.spool, points);
    case _ =>
  }

  lemma StepKeepsStored(cfg: Config, s: State, step: Step)
    requires WrittenStored(s) && Enabled(cfg, s, step)
    ensures WrittenStored(Apply(cfg, s, step))
    ensures s.written <= Apply(cfg, s, step).written
    ensures Store.Hashes(s.tables.raw) <= Store.Hashes(Apply(cfg, s, step).tables.raw)
  {
    if step.CommitOk? {
      Store.InsertAllEffect(s.tables, Writes(s.flight.batch));
    }
  }

  /** `r` is in the queue, itself or as a marker, or has yet to be reloaded. */
  ghost predicate StillQueued(s: State, r: Record) {
    r in s.buffer.queue || Marker(r) in s.buffer.queue || r in s.recovering
  }

  lemma AdmitTracks(cfg: Config, s: State, s': State, batch: seq<Record>)
    requires Tracked(s) && s.up == s'.up && s'.spool == s.spool && s'.flight == s.flight
    requires s'.buffer == Enqueued(cfg, s.buffer, batch)
    requires forall r :: r in s'.acked ==> r in s.acked || r in batch
    requires forall r :: r in s.recovering ==> r in s'.recovering || r in batch
    ensures Tracked(s')
  {
    FilterShape(cfg, batch, s.buffer.last);
    var out := Filter(cfg, batch, s.buffer.last).out;
    assert InRam(s') == InRam(s) + out;
    forall r | r in batch ensures r in InRam(s') || Marker(r) in InRam(s') {
      var i :| 0 <= i < |batch| && batch[i] == r;
      assert out[i] in out;
    }
  }

  lemma CheckpointTracks(cfg: Config, s: State)
    requires Tracked(s) && FlightOk(s) && Enabled(cfg, s, CheckpointOk)
    ensures Tracked(Apply(cfg, s, CheckpointOk))
  {
    var s' := Apply(cfg, s, CheckpointOk);
    MaxSeqNoBounds(s.flight.batch);
    assert InRam(s') == s.buffer.queue;
    forall r | s.up && r in s'.acked && r.seqNo > LastGood(s'.spool.checkpoint)
      ensures r in InRam(s') || Marker(r) in InRam(s') || r in s'.recovering
    {
      assert r !in s.flight.batch && Marker(r) !in s.flight.batch;
    }
  }

  lemma StepKeepsTracked(cfg: Config, s: State, step: Step)
    requires Tracked(s) && DiskHolds(s) && FlightOk(s) && DownIsEmpty(s) && Enabled(cfg, s, step)
    ensures Tracked(Apply(cfg, s, step))
  {
    var s' := Apply(cfg, s, step);
    match step
    case Enqueue(i) =>
      if EnqueueDecision(cfg, s.buffer, s.pending[i]).Accepted? {
        AdmitTracks(cfg, s, s', s.pending[i]);
      }
    case Reload(n) =>
      assert s.recovering == s.recovering[..n] + s.recovering[n..];
      AdmitTracks(cfg, s, s', s.recovering[..n]);
    case CheckpointOk => CheckpointTracks(cfg, s);
    case Restart(_) => ReplayMembers(s.spool.dir, LastGood(s.spool.checkpoint));
    case Append(points) => AppendAllOnDisk(cfg, s.spool, points);
    case Drain => assert InRam(s') == InRam(s);
    case CommitFail => assert InRam(s') == InRam(s);
    case CheckpointFail(_) => assert InRam(s') == InRam(s);
    case CommitOk =>
    case Compact(_) =>
    case Crash =>
  }

  lemma StepKeepsCore(cfg: Config, s: State, step: Step)
    requires Core(cfg, s) && Enabled(cfg, s, step)
    ensures Core(cfg, Apply(cfg, s, step))
  {
    hide Conserved, Deduped, MarkersOnlyInRam, DiskHolds, WrittenStored, FlightOk, Tracked, DownIsEmpty, Apply, Enabled;
    StepConserves(cfg, s, step);
    StepKeepsMarkers(cfg, s, step);
    StepKeepsDedupe(cfg, s, step);
    StepKeepsDisk(cfg, s, step);
    StepKeepsFlight(cfg, s, step);
    StepKeepsStored(cfg, s, step);
    StepKeepsTracked(cfg, s, step);
  }

  /* --------------------------- the two moments ------------------------------ */

  /** No acknowledged record numbered up to the committed batch's maximum is still
      waiting behind that batch, unless the database accounts for it already. */
  ghost predicate NothingOvertaken(cfg: Config, s: State)
    requires s.flight.Committed?
  {
    forall r :: r in s.acked && r.seqNo <= s.flight.maxSeq && StillQueued(s, r) ==> Represented(cfg, s, r)
  }

  /** What would have to be checked before a step. Only two kinds of step need a
      check: an acknowledgement must not be behind the checkpoint, and the
      checkpoint must not pass a record that has been overtaken. */
  ghost predicate Guard(cfg: Config, s: State, step: Step)
    requires Enabled(cfg, s, step)
  {
    match step
    case Enqueue(i) =>
      EnqueueDecision(cfg, s.buffer, s.pending[i]).Accepted? ==>
        forall r :: r in s.pending[i] ==> r.seqNo > LastGood(s.spool.checkpoint) || Represented(cfg, s, r)
    case CheckpointOk => NothingOvertaken(cfg, s)
    case CheckpointFail(residue) => residue.Land? ==> NothingOvertaken(cfg, s)
    case _ => true
  }

  /** What this life has committed is represented, itself or by the record that
      suppressed it. */
  lemma CommittedIsRepresented(cfg: Config, s: State, r: Record)
    requires Conserved(s) && Deduped(cfg, s) && WrittenStored(s) && FlightOk(s) && s.flight.Committed?
    requires !r.checkpointOnly && (r in s.flight.batch || Marker(r) in s.flight.batch)
    ensures Represented(cfg, s, r)
  {
    if r !in s.flight.batch {
      var w := KeptDuplicate(cfg, s, r);
      assert w in s.written;
    }
  }

  lemma KeptDuplicate(cfg: Config, s: State, r: Record) returns (w: Record)
    requires Conserved(s) && Deduped(cfg, s) && s.flight.Committed? && Marker(r) in s.flight.batch
    ensures (w in s.flushed || w in s.flight.batch) && Resembles(cfg, w, r)
  {
    var done := s.flushed + s.flight.batch;
    assert s.accepted == done + s.buffer.queue;
    assert Marker(r) in done;
    var p :| 0 <= p < |done| && done[p] == Marker(r);
    assert s.accepted[p] == Marker(r);
    var k := LastRetainedWitness(cfg, s.accepted[..p], r.deviceId);
    w := done[k];
  }

  /** The checkpoint moves up to a committed batch's maximum. */
  lemma PassingIff(cfg: Config, s: State, s': State)
    requires Core(cfg, s) && Secure(cfg, s) && s.flight.Committed?
    requires s'.acked == s.acked && s'.written == s.written && s'.tables == s.tables
    requires s'.spool.dir == s.spool.dir
    requires LastGood(s'.spool.checkpoint) ==
      if s.flight.maxSeq > LastGood(s.spool.checkpoint) then s.flight.maxSeq else LastGood(s.spool.checkpoint)
    ensures Secure(cfg, s') <==> NothingOvertaken(cfg, s)
  {
    hide Conserved, Deduped, MarkersOnlyInRam, FlightOk, WrittenStored;
    forall r: Record ensures Represented(cfg, s', r) <==> Represented(cfg, s, r) {
      if Represented(cfg, s, r) { RepresentedMonotone(cfg, s, s', r); }
      if Represented(cfg, s', r) { RepresentedMonotone(cfg, s', s, r); }
    }
    hide Represented;
    forall r | r in s.acked && r.seqNo <= s.flight.maxSeq && !StillQueued(s, r) ensures Represented(cfg, s, r) {
      if r.seqNo > LastGood(s.spool.checkpoint) {
        assert r in InRam(s) || Marker(r) in InRam(s);
        CommittedIsRepresented(cfg, s, r);
      }
    }
  }

  lemma AckingIff(cfg: Config, s: State, i: nat)
    requires Core(cfg, s) && Secure(cfg, s) && Enabled(cfg, s, Enqueue(i))
    ensures Secure(cfg, Apply(cfg, s, Enqueue(i))) <==> Guard(cfg, s, Enqueue(i))
  {
    var s' := Apply(cfg, s, Enqueue(i));
    forall r: Record ensures Represented(cfg, s', r) <==> Represented(cfg, s, r) {
      if Represented(cfg, s, r) { RepresentedMonotone(cfg, s, s', r); }
      if Represented(cfg, s', r) { RepresentedMonotone(cfg, s', s, r); }
    }
    hide Represented;
    if EnqueueDecision(cfg, s.buffer, s.pending[i]).Accepted? {
      forall r | r in s.pending[i] ensures r in s'.acked && r in s.issued {
      }
    }
  }

  /** Every other step keeps what it finds. */
  lemma OtherStepsKeep(cfg: Config, s: State, step: Step)
    requires Core(cfg, s) && Secure(cfg, s) && Enabled(cfg, s, step)
    requires !step.Enqueue? && !step.CheckpointOk? && step != CheckpointFail(Land)
    ensures Secure(cfg, Apply(cfg, s, step))
  {
    var s' := Apply(cfg, s, step);
    StepKeepsStored(cfg, s, step);
    StepKeepsDisk(cfg, s, step);
    forall r | r in s'.acked
      ensures Represented(cfg, s', r) || (r.seqNo > LastGood(s'.spool.checkpoint) && OnDisk(s'.spool.dir, r))
    {
      if Represented(cfg, s, r) { RepresentedMonotone(cfg, s, s', r); }
      if step.Append? { AppendAllOnDisk(cfg, s.spool, step.points); }
    }
  }

  /** One step: from a secure state it leads to a secure one if and only if its
      guard holds. */
  lemma StepSecureIff(cfg: Config, s: State, step: Step)
    requires Core(cfg, s) && Secure(cfg, s) && Enabled(cfg, s, step)
    ensures Secure(cfg, Apply(cfg, s, step)) <==> Guard(cfg, s, step)
  {
    if step.Enqueue? {
      AckingIff(cfg, s, step.i);
    } else if step.CheckpointOk? || step == CheckpointFail(Land) {
      PassingIff(cfg, s, Apply(cfg, s, step));
    } else {
      OtherStepsKeep(cfg, s, step);
    }
  }

  /* --------------------------------- runs ----------------------------------- */

  ghost predicate SecureThroughout(cfg: Config, s: State, steps: seq<Step>)
    decreases |steps|
  {
    && Secure(cfg, s)
    && (steps != [] ==>
          Enabled(cfg, s, steps[0]) && SecureThroughout(cfg, Apply(cfg, s, steps[0]), steps[1..]))
  }

  ghost predicate GuardedRun(cfg: Config, s: State, steps: seq<Step>)
    decreases |steps|
  {
    steps == [] ||
    (Enabled(cfg, s, steps[0]) && Guard(cfg, s, steps[0]) && GuardedRun(cfg, Apply(cfg, s, steps[0]), steps[1..]))
  }

  lemma {:induction false} SecureFromIff(cfg: Config, s: State, steps: seq<Step>)
    requires Core(cfg, s) && Secure(cfg, s) && Exec(cfg, s, steps).Some?
    ensures SecureThroughout(cfg, s, steps) <==> GuardedRun(cfg, s, steps)
    decreases |steps|
  {
    hide Core, Secure, Guard, Apply, Enabled;
    if steps != [] {
      StepSecureIff(cfg, s, steps[0]);
      StepKeepsCore(cfg, s, steps[0]);
      var s' := Apply(cfg, s, steps[0]);
      if Secure(cfg, s') {
        SecureFromIff(cfg, s', steps[1..]);
      } else {
        assert !SecureThroughout(cfg, s', steps[1..]);
      }
    }
  }

  /** The exact law of acknowledgements. A run from an empty spool, whatever its
      interleaving, numbering, faults, crashes and restarts, keeps every
      acknowledged record at every moment if and only if each acknowledgement was
      given above the checkpoint (or for records already represented) and each
      checkpoint passed nothing acknowledged that was still queued and not
      represented. */
  lemma AckLawIff(cfg: Config, steps: seq<Step>)
    requires Exec(cfg, INIT, steps).Some?
    ensures SecureThroughout(cfg, INIT, steps) <==> GuardedRun(cfg, INIT, steps)
  {
    InitCore(cfg);
    SecureFromIff(cfg, INIT, steps);
  }
}
