/** Where crash safety ends. Two things the program takes for granted decide it:
    that handlers enqueue in the order they appended, and that a new process
    numbers its records above what the old one left. For each this module proves
    that all continuations are safe if and only if it holds. */
module PipelineLimits {
  import opened Ingest
  import opened Buffer
  import opened Spool
  import opened Pipeline
  import opened PipelineBounds
  import opened PipelineSafety
  import opened PipelineExact
  import opened PipelineProgress
  import Store

  /* ------------------------- append against enqueue ----------------------- */

  /** Nothing durable, and nothing kept among `rs`, accounts for `r`. */
  ghost predicate Unechoed(cfg: Config, s: State, rs: seq<Record>, r: Record) {
    && !Represented(cfg, s, r)
    && forall w :: w in rs && !w.checkpointOnly ==> w.point.hash != r.point.hash && !Resembles(cfg, w, r)
  }

  lemma StillUnrepresented(cfg: Config, s: State, s': State, r: Record)
    requires Unechoed(cfg, s, InRam(s), r) && FlushedTo(s, s') && TablesOk(s)
    ensures !Represented(cfg, s', r)
  {
  }

  /** Acknowledging a record the checkpoint has passed loses it. */
  lemma LateAckIsLost(cfg: Config, s: State, i: nat, r: Record)
    requires Enabled(cfg, s, Enqueue(i)) && EnqueueDecision(cfg, s.buffer, s.pending[i]).Accepted?
    requires r in s.pending[i] && r.seqNo <= LastGood(s.spool.checkpoint) && !Represented(cfg, s, r)
    ensures !Secure(cfg, Apply(cfg, s, Enqueue(i)))
  {
    var s' := Apply(cfg, s, Enqueue(i));
    assert r in Members(s.pending[i]);
    assert r in s'.acked;
    if Represented(cfg, s', r) { RepresentedMonotone(cfg, s', s, r); }
  }

  /** All ways to go on without new requests keep every acknowledgement. */
  ghost predicate SecureWhateverNext(cfg: Config, s: State) {
    forall steps :: ContinuesInOrder(cfg, s, steps) ==> Secure(cfg, Exec(cfg, s, steps).value)
  }

  ghost predicate ContinuesInOrder(cfg: Config, s: State, steps: seq<Step>) {
    && Exec(cfg, s, steps).Some? && EnqueuesInOrder(steps)
    && forall k :: 0 <= k < |steps| ==> !steps[k].Append?
  }

  /** An accepted batch overtakes: what is known of the state it leaves. */
  lemma OvertakenState(cfg: Config, s: State, i: nat, r: Record)
    requires Inv(cfg, s) && Enabled(cfg, s, Enqueue(i)) && 0 < i && s.pending[i] != [] && r in s.pending[0]
    requires cfg.batchSize > 0 && !s.spool.checkpoint.Torn?
    requires EnqueueDecision(cfg, s.buffer, s.pending[i]).Accepted?
    requires Unechoed(cfg, s, InRam(s) + s.pending[i], r)
    ensures var t := Apply(cfg, s, Enqueue(i));
      && Flushable(cfg, t) && Unechoed(cfg, t, InRam(t), r)
      && t.pending != [] && t.pending[0] == s.pending[0]
      && HigherInRam(t, r)
  {
    OvertakerIsFlushable(cfg, s, i);
    LaterBatchIsHigher(s, i, r);
    hide Inv, Flushable;
    OvertakerEchoes(cfg, s, i, r);
  }

  ghost predicate HigherInRam(s: State, r: Record) {
    exists e :: e in InRam(s) && e.seqNo > r.seqNo
  }

  lemma OvertakerEchoes(cfg: Config, s: State, i: nat, r: Record)
    requires Enabled(cfg, s, Enqueue(i)) && s.pending[i] != [] && r.seqNo < s.pending[i][0].seqNo
    requires EnqueueDecision(cfg, s.buffer, s.pending[i]).Accepted?
    requires Unechoed(cfg, s, InRam(s) + s.pending[i], r)
    ensures Unechoed(cfg, Apply(cfg, s, Enqueue(i)), InRam(Apply(cfg, s, Enqueue(i))), r)
    ensures HigherInRam(Apply(cfg, s, Enqueue(i)), r)
  {
    var t := Apply(cfg, s, Enqueue(i));
    FilterShape(cfg, s.pending[i], s.buffer.last);
    var out := Filter(cfg, s.pending[i], s.buffer.last).out;
    assert InRam(t) == InRam(s) + out;
    forall w | w in InRam(t) && !w.checkpointOnly ensures w in InRam(s) + s.pending[i] {
      if w !in InRam(s) {
        var k :| 0 <= k < |out| && out[k] == w;
        assert s.pending[i][k] == w;
      }
    }
    if Represented(cfg, t, r) { RepresentedMonotone(cfg, t, s, r); }
    assert out[0] in InRam(t);
  }

  lemma OvertakerIsFlushable(cfg: Config, s: State, i: nat)
    requires Inv(cfg, s) && Enabled(cfg, s, Enqueue(i))
    requires cfg.batchSize > 0 && !s.spool.checkpoint.Torn?
    requires EnqueueDecision(cfg, s.buffer, s.pending[i]).Accepted?
    ensures Flushable(cfg, Apply(cfg, s, Enqueue(i)))
  {
    var t := Apply(cfg, s, Enqueue(i));
    AdmitConserves(cfg, s, t, s.pending[i]);
    TablesUnchanged(s, t);
    InvIsCore(cfg, s);
    OvertakerIsIssued(cfg, s, i);
    hide Conserved, TablesOk, IssuedOk;
  }

  lemma OvertakerIsIssued(cfg: Config, s: State, i: nat)
    requires IssuedOk(s) && DiskHolds(s) && Enabled(cfg, s, Enqueue(i))
    requires EnqueueDecision(cfg, s.buffer, s.pending[i]).Accepted?
    ensures IssuedOk(Apply(cfg, s, Enqueue(i)))
  {
    var t := Apply(cfg, s, Enqueue(i));
    var out := Filter(cfg, s.pending[i], s.buffer.last).out;
    FilterShape(cfg, s.pending[i], s.buffer.last);
    forall e | e in t.accepted ensures FromIssued(t, e) {
      if e in s.accepted {
        FromIssuedStays(s, t, e);
      } else {
        var k :| 0 <= k < |out| && out[k] == e;
        assert s.pending[i][k] in s.issued;
      }
    }
  }

  lemma LaterBatchIsHigher(s: State, i: nat, r: Record)
    requires InSequence(s) && 0 < i < |s.pending| && s.pending[i] != [] && r in s.pending[0]
    ensures r.seqNo < s.pending[i][0].seqNo
  {
    var first, rest := s.pending[0], Flatten(s.pending[1..]);
    assert s.pending[1..][i - 1] == s.pending[i];
    FlattenMember(s.pending[1..], i - 1, s.pending[i][0]);
    var a :| 0 <= a < |first| && first[a] == r;
    var b :| 0 <= b < |rest| && rest[b] == s.pending[i][0];
    var all, base := s.accepted + Waiting(s), |s.accepted| + |s.recovering|;
    assert all == s.accepted + s.recovering + first + rest;
    assert all[base + a] == r && all[base + |first| + b] == s.pending[i][0];
  }

  /** An overtaken handler can lose its record: flush, then acknowledge it. */
  lemma OvertakingHasLoss(cfg: Config, s: State, i: nat, r: Record) returns (steps: seq<Step>)
    requires Inv(cfg, s) && Enabled(cfg, s, Enqueue(i)) && 0 < i && s.pending[i] != [] && r in s.pending[0]
    requires cfg.batchSize > 0 && !s.spool.checkpoint.Torn?
    requires EnqueueDecision(cfg, s.buffer, s.pending[i]).Accepted?
    requires Unechoed(cfg, s, InRam(s) + s.pending[i], r)
    requires EnqueueDecision(cfg, Apply(cfg, s, Enqueue(i)).buffer.(queue := []), s.pending[0]).Accepted?
    ensures var t := Apply(cfg, s, Enqueue(i));
      ContinuesInOrder(cfg, t, steps) && !Secure(cfg, Exec(cfg, t, steps).value)
  {
    var t := Apply(cfg, s, Enqueue(i));
    OvertakenState(cfg, s, i, r);
    steps := FlushThenAck(cfg, t, r);
  }

  lemma FlushThenAck(cfg: Config, t: State, r: Record) returns (steps: seq<Step>)
    requires Flushable(cfg, t) && Unechoed(cfg, t, InRam(t), r) && t.pending != [] && r in t.pending[0]
    requires HigherInRam(t, r)
    requires EnqueueDecision(cfg, t.buffer.(queue := []), t.pending[0]).Accepted?
    ensures ContinuesInOrder(cfg, t, steps) && !Secure(cfg, Exec(cfg, t, steps).value)
  {
    hide Exec, Represented, Secure;
    var flush, u := FlushAll(cfg, t);
    StillUnrepresented(cfg, t, u, r);
    LateAckIsLost(cfg, u, 0, r);
    ExecSnoc(cfg, t, flush, u, Enqueue(0));
    steps := flush + [Enqueue(0)];
  }

  /** Enqueueing in append order is exactly what safety needs. Whenever one of
      several waiting handlers enqueues, all continuations without new requests keep
      every acknowledgement if and only if it was the first one's turn, given that
      the first one's batch has a record nothing else accounts for and will be
      accepted once the buffer is empty. */
  lemma EnqueueOrderIff(cfg: Config, s: State, i: nat, r: Record)
    requires Inv(cfg, s) && Enabled(cfg, s, Enqueue(i)) && s.pending[i] != [] && r in s.pending[0]
    requires cfg.batchSize > 0 && !s.spool.checkpoint.Torn?
    requires EnqueueDecision(cfg, s.buffer, s.pending[i]).Accepted?
    requires i > 0 ==> Unechoed(cfg, s, InRam(s) + s.pending[i], r)
    requires i > 0 ==>
      EnqueueDecision(cfg, Apply(cfg, s, Enqueue(i)).buffer.(queue := []), s.pending[0]).Accepted?
    ensures SecureWhateverNext(cfg, Apply(cfg, s, Enqueue(i))) <==> i == 0
  {
    var t := Apply(cfg, s, Enqueue(i));
    if i == 0 {
      EnqueueKeeps(cfg, s);
      forall steps | ContinuesInOrder(cfg, t, steps) ensures Secure(cfg, Exec(cfg, t, steps).value) {
        OneLifeIsOrderly(cfg, t, steps);
        RunKeeps(cfg, t, steps);
        SafeIsSecure(cfg, Exec(cfg, t, steps).value);
      }
    } else {
      var steps := OvertakingHasLoss(cfg, s, i, r);
    }
  }

  /* ---------------------------- reused numbers ---------------------------- */

  /** A reused number also stops the flusher: a batch that writes a new hash under a
      sequence number already in the table can never be committed. */
  lemma ReusedNumberBlocksCommit(cfg: Config, s: State, i: nat)
    requires s.flight.Drained? && i < |Writes(s.flight.batch)|
    requires var ws := Writes(s.flight.batch);
      && ws[i].seqNo in Store.SeqNos(s.tables.raw)
      && ws[i].point.hash !in Store.Hashes(s.tables.raw)
      && forall j :: 0 <= j < i ==> ws[j].point.hash != ws[i].point.hash
    ensures !Enabled(cfg, s, CommitOk)
  {
    var ws := Writes(s.flight.batch);
    var t := Store.InsertAll(s.tables, ws[..i]);
    Store.InsertAllHashes(s.tables, ws[..i], ws[i].point.hash);
    Store.InsertAllExtends(s.tables, ws[..i]);
    var k :| 0 <= k < |s.tables.raw| && s.tables.raw[k].seqNo == ws[i].seqNo;
    assert t.raw[k].seqNo == ws[i].seqNo;
    if Store.Insertable(s.tables, ws) {
      Store.InsertablePrefix(s.tables, ws, i);
    }
  }

  /** A batch that cannot be committed is stuck at the front of the process. */
  ghost predicate StuckBehind(cfg: Config, s: State, front: seq<Record>) {
    && |front| <= cfg.batchSize && front != []
    && (if s.flight.Idle? then front <= s.buffer.queue else s.flight.Drained? && front <= s.flight.batch)
  }

  /** `front` writes a new hash under a sequence number the table already has. */
  ghost predicate Clashes(t: Store.Tables, front: seq<Record>) {
    exists i :: ClashesAt(t, Writes(front), i)
  }

  ghost predicate ClashesAt(t: Store.Tables, ws: seq<Record>, i: int) {
    && 0 <= i < |ws|
    && ws[i].seqNo in Store.SeqNos(t.raw) && ws[i].point.hash !in Store.Hashes(t.raw)
    && forall j :: 0 <= j < i ==> ws[j].point.hash != ws[i].point.hash
  }

  lemma {:induction false} WritesPrefix(a: seq<Record>, b: seq<Record>)
    requires a <= b
    ensures Writes(a) <= Writes(b)
    decreases |b|
  {
    if a == b {
    } else {
      var init := b[..|b| - 1];
      WritesPrefix(a, init);
    }
  }

  lemma ClashBlocks(cfg: Config, s: State, front: seq<Record>)
    requires StuckBehind(cfg, s, front) && Clashes(s.tables, front)
    ensures !Enabled(cfg, s, CommitOk)
  {
    if s.flight.Drained? {
      var i :| ClashesAt(s.tables, Writes(front), i);
      WritesPrefix(front, s.flight.batch);
      assert ClashesAt(s.tables, Writes(s.flight.batch), i);
      ReusedNumberBlocksCommit(cfg, s, i);
    }
  }

  lemma StuckStep(cfg: Config, s: State, front: seq<Record>, step: Step)
    requires StuckBehind(cfg, s, front) && Clashes(s.tables, front)
    requires Enabled(cfg, s, step) && !step.Crash?
    ensures var s' := Apply(cfg, s, step);
      StuckBehind(cfg, s', front) && s'.tables == s.tables && s'.flushed == s.flushed
      && s'.spool.checkpoint == s.spool.checkpoint
  {
    ClashBlocks(cfg, s, front);
    if step.Append? { AppendAllOnDisk(cfg, s.spool, step.points); }
  }

  /** A reused number stops the flusher for good: until the process dies, no step
      ever commits anything again, and the checkpoint stands still. */
  lemma {:induction false} ReusedNumberBlocksFlusher(cfg: Config, s: State, front: seq<Record>, steps: seq<Step>)
    requires StuckBehind(cfg, s, front) && Clashes(s.tables, front)
    requires Exec(cfg, s, steps).Some? && forall k :: 0 <= k < |steps| ==> !steps[k].Crash?
    ensures var s' := Exec(cfg, s, steps).value;
      && s'.tables == s.tables && s'.flushed == s.flushed && s'.spool.checkpoint == s.spool.checkpoint
      && !Enabled(cfg, s', CommitOk)
    decreases |steps|
  {
    if steps == [] {
      ClashBlocks(cfg, s, front);
    } else {
      StuckStep(cfg, s, front, steps[0]);
      assert forall k :: 0 <= k < |steps[1..]| ==> steps[1..][k] == steps[k + 1];
      ReusedNumberBlocksFlusher(cfg, Apply(cfg, s, steps[0]), front, steps[1..]);
    }
  }

  /* ------------------------ the sequence counter ------------------------- */

  /** A process that is through with recovery: what the disk holds above the
      checkpoint is in RAM. */
  ghost predicate ThroughRecovery(s: State) {
    && s.up && s.recovering == [] && s.pending == [] && !s.spool.checkpoint.Torn?
    && forall r :: OnDisk(s.spool.dir, r) && r.seqNo > LastGood(s.spool.checkpoint) ==>
         r in InRam(s) || Marker(r) in InRam(s)
  }

  /** All that this life may yet do, and all recoveries after it, keep every
      acknowledgement. */
  ghost predicate LifeIsSecure(cfg: Config, s: State) {
    forall steps :: OneLife(cfg, s, steps) ==> Secure(cfg, Exec(cfg, s, steps).value)
  }

  ghost predicate OneLife(cfg: Config, s: State, steps: seq<Step>) {
    Exec(cfg, s, steps).Some? && EnqueuesInOrder(steps) && NoAppendAfterRestart(steps)
  }

  lemma FreshLifeIsSecure(cfg: Config, s: State)
    requires Inv(cfg, s) && SeqFresh(s.spool)
    ensures LifeIsSecure(cfg, s)
  {
    forall steps | OneLife(cfg, s, steps) ensures Secure(cfg, Exec(cfg, s, steps).value) {
      OneLifeIsOrderly(cfg, s, steps);
      RunKeeps(cfg, s, steps);
      SafeIsSecure(cfg, Exec(cfg, s, steps).value);
    }
  }

  /** The point of a request that nothing known to the process accounts for, and
      that an empty buffer would take. */
  ghost predicate NewPoint(cfg: Config, s: State, p: Point) {
    var r := RecordFor(cfg, s.spool.nextSeq, p);
    Unechoed(cfg, s, InRam(s), r) && Fits(cfg, r)
  }

  lemma FlushReachesNext(s: State, s': State)
    requires ThroughRecovery(s) && FlushedTo(s, s') && InRam(s') == [] && !SeqFresh(s.spool)
    ensures s.spool.nextSeq <= LastGood(s'.spool.checkpoint)
  {
    if s.spool.nextSeq > LastGood(s.spool.checkpoint) {
      var r := HighOnDisk(s.spool);
      assert r in InRam(s) || Marker(r) in InRam(s);
    }
  }

  lemma HighOnDisk(sp: SpoolState) returns (r: Record)
    requires !DiskBelowNext(sp)
    ensures OnDisk(sp.dir, r) && r.seqNo >= sp.nextSeq
  {
    var k :| k in sp.dir && !AllBelow(sp.dir[k], sp.nextSeq);
    var i :| 0 <= i < |sp.dir[k]| && sp.dir[k][i].seqNo >= sp.nextSeq;
    r := sp.dir[k][i];
  }

  /** A counter at or below the checkpoint after a flush: the next ingest is lost. */
  lemma IngestBehindCheckpoint(cfg: Config, s: State, p: Point)
    requires s.up && s.recovering == [] && s.pending == [] && s.buffer.queue == []
    requires s.spool.nextSeq <= LastGood(s.spool.checkpoint) && Fits(cfg, RecordFor(cfg, s.spool.nextSeq, p))
    requires !Represented(cfg, s, RecordFor(cfg, s.spool.nextSeq, p))
    ensures Exec(cfg, s, [Append([p]), Enqueue(0)]).Some?
    ensures !Secure(cfg, Exec(cfg, s, [Append([p]), Enqueue(0)]).value)
  {
    var r := RecordFor(cfg, s.spool.nextSeq, p);
    AppendSingle(cfg, s, p);
    AppendAllOnDisk(cfg, s.spool, [p]);
    var t := Apply(cfg, s, Append([p]));
    assert t.pending == [[r]];
    if Represented(cfg, t, r) { RepresentedMonotone(cfg, t, s, r); }
    SingleIsAccepted(cfg, t.buffer, r);
    LateAckIsLost(cfg, t, 0, r);
    Exec2(cfg, s, Append([p]), Enqueue(0));
  }

  lemma StaleLifeHasLoss(cfg: Config, s: State, p: Point) returns (steps: seq<Step>)
    requires Inv(cfg, s) && ThroughRecovery(s) && cfg.batchSize > 0 && NewPoint(cfg, s, p) && !SeqFresh(s.spool)
    ensures OneLife(cfg, s, steps) && !Secure(cfg, Exec(cfg, s, steps).value)
  {
    var flush, u := FlushAll(cfg, s);
    StillUnrepresented(cfg, s, u, RecordFor(cfg, s.spool.nextSeq, p));
    hide Exec, Represented, Secure, Fits, Inv, Flushable, OnDisk, Conserved, Unechoed, SeqFresh;
    FlushReachesNext(s, u);
    IngestBehindCheckpoint(cfg, u, p);
    ExecConcat(cfg, s, flush, [Append([p]), Enqueue(0)]);
    FlushThenIngestIsOneLife(flush, p);
    steps := flush + [Append([p]), Enqueue(0)];
  }

  lemma FlushThenIngestIsOneLife(flush: seq<Step>, p: Point)
    requires AllFlush(flush)
    ensures EnqueuesInOrder(flush + [Append([p]), Enqueue(0)])
    ensures NoAppendAfterRestart(flush + [Append([p]), Enqueue(0)])
  {
    var steps := flush + [Append([p]), Enqueue(0)];
    forall k | 0 <= k < |steps| ensures steps[k].Enqueue? ==> steps[k].i == 0
      ensures !steps[k].Restart?
    {
      if k < |flush| { assert steps[k] == flush[k]; }
    }
  }

  /** Numbering above the checkpoint and the disk is exactly what a new process
      needs. Once its recovery is through, everything it may yet do keeps every
      acknowledgement if and only if its counter is fresh, as long as there is any
      new point to ingest. */
  lemma LifeSecureIff(cfg: Config, s: State, p: Point)
    requires Inv(cfg, s) && ThroughRecovery(s) && cfg.batchSize > 0 && NewPoint(cfg, s, p)
    ensures LifeIsSecure(cfg, s) <==> SeqFresh(s.spool)
  {
    if SeqFresh(s.spool) {
      FreshLifeIsSecure(cfg, s);
    } else {
      var steps := StaleLifeHasLoss(cfg, s, p);
    }
  }

  /** The program's counter starts at 1 in every process. That is harmless if and
      only if nothing was ever checkpointed and nothing was recovered. */
  lemma FirstIngestAfterRestart(cfg: Config, s: State, p: Point)
    requires Inv(cfg, s) && ThroughRecovery(s) && cfg.batchSize > 0 && NewPoint(cfg, s, p) && s.spool.nextSeq == 1
    ensures LifeIsSecure(cfg, s) <==> LastGood(s.spool.checkpoint) == 0 && InRam(s) == []
  {
    LifeSecureIff(cfg, s, p);
    if LastGood(s.spool.checkpoint) == 0 {
      NothingBelowOne(s);
    }
  }

  lemma NothingBelowOne(s: State)
    requires DiskOk(s) && IssuedOk(s) && Conserved(s) && ThroughRecovery(s)
    requires s.spool.nextSeq == 1 && LastGood(s.spool.checkpoint) == 0
    ensures SeqFresh(s.spool) <==> InRam(s) == []
  {
    if InRam(s) != [] {
      var e := InRam(s)[0];
      assert e in InRam(s) && e in s.accepted;
      assert FromIssued(s, e);
      var r :| r in s.issued && (e == r || e == Marker(r));
      var k :| k in s.spool.dir && r in s.spool.dir[k];
      assert !AllBelow(s.spool.dir[k], 1);
    } else if !DiskBelowNext(s.spool) {
      var r := HighOnDisk(s.spool);
      assert false;
    }
  }

  /** Draining, committing and checkpointing a queue of one retained record. */
  const FLUSH_STEPS := [Drain, CommitOk, CheckpointOk]

  lemma FlushSingle(cfg: Config, s: State, r: Record)
    requires s.up && s.flight.Idle? && s.buffer.queue == [r] && !r.checkpointOnly && cfg.batchSize >= 1
    requires !s.spool.checkpoint.Torn? && r.seqNo > LastGood(s.spool.checkpoint)
    requires !Store.Conflicts(s.tables, r)
    ensures var e := Exec(cfg, s, FLUSH_STEPS);
      && e.Some?
      && e.value == s.(
           flight := Idle,
           buffer := s.buffer.(queue := []),
           tables := Store.InsertOne(s.tables, r),
           written := s.written + {r},
           flushed := s.flushed + [r],
           spool := s.spool.(checkpoint := Holds(r.seqNo)))
  {
    hide Exec;
    DrainSingle(cfg, s, r);
    var s1 := Apply(cfg, s, Drain);
    CommitSingle(cfg, s1, r);
    var s2 := Apply(cfg, s1, CommitOk);
    CheckpointSingle(cfg, s2, r);
    Exec2(cfg, s1, CommitOk, CheckpointOk);
    assert FLUSH_STEPS == [Drain] + [CommitOk, CheckpointOk];
    ExecCons(cfg, s, Drain, [CommitOk, CheckpointOk]);
  }

  lemma CheckpointSingle(cfg: Config, s: State, r: Record)
    requires s.flight == Committed([r], r.seqNo)
    requires !s.spool.checkpoint.Torn? && r.seqNo > LastGood(s.spool.checkpoint)
    ensures Enabled(cfg, s, CheckpointOk)
    ensures Apply(cfg, s, CheckpointOk) ==
      s.(flight := Idle, flushed := s.flushed + [r], spool := s.spool.(checkpoint := Holds(r.seqNo)))
  {
  }

  /** What one record ingested, flushed and checkpointed looks like. */
  ghost predicate OneCommitted(s: State, r: Record) {
    && s.up && s.flight.Idle? && s.buffer.queue == [] && s.recovering == [] && s.pending == []
    && s.spool.checkpoint == Holds(r.seqNo) && s.spool.nextSeq == r.seqNo + 1
    && s.spool.dir.Keys == {r.seqNo} && s.spool.dir[r.seqNo] == [r]
    && s.tables == Store.InsertOne(Store.NO_ROWS, r) && s.written == {r} && s.acked == {r}
  }

  lemma {:induction false} IngestAndFlush(cfg: Config, p: Point)
    requires Fits(cfg, RecordFor(cfg, 1, p))
    ensures var e := Exec(cfg, INIT, [Append([p]), Enqueue(0)] + FLUSH_STEPS);
      e.Some? && OneCommitted(e.value, RecordFor(cfg, 1, p))
  {
    hide Exec;
    var r := RecordFor(cfg, 1, p);
    var s := IngestOne(cfg, INIT, p);
    FlushSingle(cfg, s, r);
    ExecConcat(cfg, INIT, [Append([p]), Enqueue(0)], FLUSH_STEPS);
    assert s.spool.dir == map[1 := [r]] by { assert [] + [r] == [r]; }
  }

  lemma CrashAndRecover(cfg: Config, s: State, r: Record, first: nat)
    requires OneCommitted(s, r)
    ensures var e := Exec(cfg, s, [Crash, Restart(first)]);
      && e.Some?
      && e.value.up && e.value.recovering == [] && e.value.pending == [] && e.value.buffer.queue == []
      && e.value.spool == SpoolState(s.spool.dir, Holds(r.seqNo), first, Closed)
      && e.value.tables == s.tables && e.value.written == s.written && e.value.acked == {r}
  {
    Exec2(cfg, s, Crash, Restart(first));
    ReplayUnfold(s.spool.dir, r.seqNo, r.seqNo);
    assert (s.spool.dir - {r.seqNo}).Keys == {};
    assert MaxSeqNo([r]) == r.seqNo by { assert [r][..0] == []; }
    AfterNone([r], r.seqNo);
  }

  /** Such a checkpoint is what any life that flushed anything leaves behind. */
  lemma RestartAfterCommit(cfg: Config, p: Point, first: nat) returns (s: State)
    requires Fits(cfg, RecordFor(cfg, 1, p))
    ensures Exec(cfg, INIT, [Append([p]), Enqueue(0)] + FLUSH_STEPS + [Crash, Restart(first)]) == Some(s)
    ensures var r := RecordFor(cfg, 1, p);
      && s.up && s.recovering == [] && s.pending == [] && s.buffer.queue == []
      && s.spool == SpoolState(map[1 := [r]], Holds(1), first, Closed)
      && s.tables == Store.InsertOne(Store.NO_ROWS, r) && s.written == {r} && s.acked == {r}
  {
    hide Exec;
    var life := [Append([p]), Enqueue(0)] + FLUSH_STEPS;
    IngestAndFlush(cfg, p);
    var t := Exec(cfg, INIT, life).value;
    CrashAndRecover(cfg, t, RecordFor(cfg, 1, p), first);
    s := Exec(cfg, t, [Crash, Restart(first)]).value;
    ExecConcat(cfg, INIT, life, [Crash, Restart(first)]);
    assert t.spool.dir == map[1 := [RecordFor(cfg, 1, p)]];
  }

  function TwoLives(p: Point, q: Point, first: nat): seq<Step> {
    ([Append([p]), Enqueue(0)] + FLUSH_STEPS + [Crash, Restart(first)]) + [Append([q]), Enqueue(0)]
  }

  /** The program's two lives: `p` is ingested and flushed, the process dies and comes
      back at number 1, and `q` is acknowledged under that number. It is behind the
      checkpoint, and a further start does not read it back. */
  lemma RestartLosesAcked(cfg: Config, p: Point, q: Point) returns (s: State)
    requires Fits(cfg, RecordFor(cfg, 1, p)) && Fits(cfg, RecordFor(cfg, 1, q))
    requires RecordFor(cfg, 1, p).point.hash != RecordFor(cfg, 1, q).point.hash
    requires !Resembles(cfg, RecordFor(cfg, 1, p), RecordFor(cfg, 1, q))
    ensures Exec(cfg, INIT, TwoLives(p, q, 1)) == Some(s)
    ensures RecordFor(cfg, 1, q) in s.acked && !Represented(cfg, s, RecordFor(cfg, 1, q)) && !Secure(cfg, s)
    ensures NextReplay(s.spool) == Some([])
  {
    var r := RecordFor(cfg, 1, q);
    var t := RestartAfterCommit(cfg, p, 1);
    Store.InsertOneHashes(Store.NO_ROWS, RecordFor(cfg, 1, p));
    assert Store.Hashes(Store.NO_ROWS.raw) == {};
    hide Exec, Fits, Store.InsertOne, Store.Hashes;
    s := IngestOne(cfg, t, q);
    assert !Represented(cfg, s, r);
    ExecConcat(cfg, INIT, [Append([p]), Enqueue(0)] + FLUSH_STEPS + [Crash, Restart(1)], [Append([q]), Enqueue(0)]);
    OnlyFirstNumber(cfg, t, q);
  }

  lemma HasMember(rs: seq<Record>)
    ensures rs != [] ==> exists r :: r in rs
  {
    if rs != [] { assert rs[0] in rs; }
  }

  lemma OnlyFirstNumber(cfg: Config, s: State, q: Point)
    requires s.spool.dir.Keys == {1} && s.spool.nextSeq == 1 && AllBelow(s.spool.dir[1], 2)
    ensures Replay(AppendOne(cfg, s.spool, q).dir, 1) == []
  {
    var dir := AppendOne(cfg, s.spool, q).dir;
    AppendOneOnDisk(cfg, s.spool, q);
    ReplayMembers(dir, 1);
    HasMember(Replay(dir, 1));
  }

  lemma {:induction false} FreshLivesConcat(cfg: Config, s: State, a: seq<Step>, b: seq<Step>)
    requires FreshLives(cfg, s, a) && Exec(cfg, s, a).Some? && FreshLives(cfg, Exec(cfg, s, a).value, b)
    ensures FreshLives(cfg, s, a + b)
    decreases |a|
  {
    hide Enabled, Apply, SeqFresh;
    if a == [] {
      assert a + b == b;
    } else {
      assert (a + b)[1..] == a[1..] + b;
      FreshLivesConcat(cfg, Apply(cfg, s, a[0]), a[1..], b);
    }
  }

  lemma {:induction false} NoRestartIsFresh(cfg: Config, s: State, steps: seq<Step>)
    requires Exec(cfg, s, steps).Some? && EnqueuesInOrder(steps)
    requires forall k :: 0 <= k < |steps| ==> !steps[k].Restart?
    ensures FreshLives(cfg, s, steps)
    decreases |steps|
  {
    if steps != [] {
      assert forall k :: 0 <= k < |steps[1..]| ==> steps[1..][k] == steps[k + 1];
      NoRestartIsFresh(cfg, Apply(cfg, s, steps[0]), steps[1..]);
    }
  }

  lemma RestartAboveIsFresh(cfg: Config, s: State, r: Record)
    requires OneCommitted(s, r) && Exec(cfg, s, [Crash, Restart(r.seqNo + 1)]).Some?
    ensures FreshLives(cfg, s, [Crash, Restart(r.seqNo + 1)])
  {
    var t := Apply(cfg, s, Crash);
    var steps := [Crash, Restart(r.seqNo + 1)];
    assert steps[1..] == [Restart(r.seqNo + 1)] && steps[1..][1..] == [];
    assert SeqFresh(Apply(cfg, t, Restart(r.seqNo + 1)).spool);
    assert FreshLives(cfg, Apply(cfg, t, Restart(r.seqNo + 1)), []);
    assert FreshLives(cfg, t, steps[1..]);
  }

  /** Two lives that both ingest, the second numbering on from the first: a run of
      the kind `LivesCrashSafety` speaks of. */
  lemma TwoLivesIngest(cfg: Config, p: Point, q: Point)
    requires Fits(cfg, RecordFor(cfg, 1, p)) && Fits(cfg, RecordFor(cfg, 2, q))
    ensures FreshLives(cfg, INIT, TwoLives(p, q, 2)) && Exec(cfg, INIT, TwoLives(p, q, 2)).Some?
    ensures Exec(cfg, INIT, TwoLives(p, q, 2)).value.acked == {RecordFor(cfg, 1, p), RecordFor(cfg, 2, q)}
  {
    hide Exec, FreshLives, Fits, Apply;
    var life, turn, ingest := [Append([p]), Enqueue(0)] + FLUSH_STEPS, [Crash, Restart(2)], [Append([q]), Enqueue(0)];
    IngestAndFlush(cfg, p);
    var s := Exec(cfg, INIT, life).value;
    var t := RestartAfterCommit(cfg, p, 2);
    var u := IngestOne(cfg, t, q);
    assert life == [Append([p]), Enqueue(0), Drain, CommitOk, CheckpointOk];
    NoRestartIsFresh(cfg, INIT, life);
    ExecConcat(cfg, INIT, life, turn);
    RestartAboveIsFresh(cfg, s, RecordFor(cfg, 1, p));
    FreshLivesConcat(cfg, INIT, life, turn);
    NoRestartIsFresh(cfg, t, ingest);
    FreshLivesConcat(cfg, INIT, life + turn, ingest);
    ExecConcat(cfg, INIT, life + turn, ingest);
  }

  /* ------------------------- two handlers, from the start ------------------ */

  /** Two handlers have appended 1 and 2; the second enqueued and was flushed. */
  lemma {:induction false} SecondFlushedFirst(cfg: Config, p: Point, q: Point) returns (s: State)
    requires Fits(cfg, RecordFor(cfg, 2, q))
    requires RecordFor(cfg, 1, p).point.hash != RecordFor(cfg, 2, q).point.hash
    ensures Exec(cfg, INIT, [Append([p]), Append([q])] + ([Enqueue(1)] + FLUSH_STEPS)) == Some(s)
    ensures s.up && s.pending == [[RecordFor(cfg, 1, p)]] && s.buffer.queue == []
    ensures LastGood(s.spool.checkpoint) == 2 && s.acked == {RecordFor(cfg, 2, q)} == s.written
    ensures OnDisk(s.spool.dir, RecordFor(cfg, 1, p))
    ensures s.tables == Store.InsertOne(Store.NO_ROWS, RecordFor(cfg, 2, q))
  {
    var a, b := RecordFor(cfg, 1, p), RecordFor(cfg, 2, q);
    AppendSingle(cfg, INIT, p);
    var s1 := Apply(cfg, INIT, Append([p]));
    AppendSingle(cfg, s1, q);
    var s2 := Apply(cfg, s1, Append([q]));
    AppendAllOnDisk(cfg, s1.spool, [q]);
    assert s2.pending == [[a], [b]];
    Exec2(cfg, INIT, Append([p]), Append([q]));
    s := OvertakeAndFlush(cfg, s2, a, b);
    ExecConcat(cfg, INIT, [Append([p]), Append([q])], [Enqueue(1)] + FLUSH_STEPS);
  }

  lemma OvertakeAndFlush(cfg: Config, s2: State, a: Record, b: Record) returns (s: State)
    requires s2.up && s2.flight.Idle? && s2.buffer == EMPTY && s2.pending == [[a], [b]]
    requires s2.tables == Store.NO_ROWS && s2.acked == {} == s2.written && s2.spool.checkpoint == Absent
    requires Fits(cfg, b) && !b.checkpointOnly && b.seqNo > 0
    ensures Exec(cfg, s2, [Enqueue(1)] + FLUSH_STEPS) == Some(s)
    ensures s.up && s.pending == [[a]] && s.buffer.queue == []
    ensures s.spool == s2.spool.(checkpoint := Holds(b.seqNo)) && s.acked == {b} == s.written
    ensures s.tables == Store.InsertOne(Store.NO_ROWS, b)
  {
    SingleIsAccepted(cfg, s2.buffer, b);
    var s3 := Apply(cfg, s2, Enqueue(1));
    assert Members([b]) == {b};
    FlushSingle(cfg, s3, b);
    s := Exec(cfg, s3, FLUSH_STEPS).value;
    assert ([Enqueue(1)] + FLUSH_STEPS)[1..] == FLUSH_STEPS;
  }

  /** When the first handler is acknowledged after all, its record is behind the
      checkpoint and nowhere in the database: a crash now loses it. */
  lemma OvertakenAckIsLost(cfg: Config, p: Point, q: Point)
    requires Fits(cfg, RecordFor(cfg, 1, p)) && Fits(cfg, RecordFor(cfg, 2, q))
    requires RecordFor(cfg, 1, p).point.hash != RecordFor(cfg, 2, q).point.hash
    ensures var e := Exec(cfg, INIT, [Append([p]), Append([q])] + ([Enqueue(1)] + FLUSH_STEPS) + [Enqueue(0)]);
      e.Some? && !Safe(cfg, e.value)
  {
    var a, b := RecordFor(cfg, 1, p), RecordFor(cfg, 2, q);
    var s := SecondFlushedFirst(cfg, p, q);
    SingleIsAccepted(cfg, s.buffer, a);
    Store.InsertOneEffect(Store.NO_ROWS, b);
    assert !Covered(cfg, s, a);
    var s' := Apply(cfg, s, Enqueue(0));
    assert a in Members([a]) && a in s'.acked;
    if Covered(cfg, s', a) { CoveredMonotone(cfg, s', s, a); }
    ExecConcat(cfg, INIT, [Append([p]), Append([q])] + ([Enqueue(1)] + FLUSH_STEPS), [Enqueue(0)]);
    assert [Enqueue(0)][1..] == [];
    assert Exec(cfg, s, [Enqueue(0)]) == Exec(cfg, s', []);
  }
}
