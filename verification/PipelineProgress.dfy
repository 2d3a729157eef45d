/** What the pipeline can always do when nothing fails: flush everything it holds,
    and finish a recovery. */
module PipelineProgress {
  import opened Ingest
  import opened Buffer
  import opened Spool
  import opened Pipeline
  import opened PipelineSafety
  import Store

  /* ------------------------------- flushing ------------------------------- */

  /** A running flusher whose checkpoint file can be read. */
  ghost predicate Flushable(cfg: Config, s: State) {
    && s.up && cfg.batchSize > 0 && !s.spool.checkpoint.Torn?
    && Conserved(s) && IssuedOk(s) && TablesOk(s) && FlightOk(s)
  }

  predicate Flushes(step: Step) {
    step.Drain? || step.CommitOk? || step.CheckpointOk?
  }

  /** A kept record of `rs` has this hash. */
  ghost predicate KeptHash(rs: seq<Record>, hash: string) {
    exists w :: w in rs && !w.checkpointOnly && w.point.hash == hash
  }

  /** Only flushing happened between the two states: records left RAM for the
      database, and the checkpoint passed those that left. */
  ghost predicate FlushedTo(s: State, s': State) {
    && s' == s.(flight := s'.flight, buffer := s.buffer.(queue := s'.buffer.queue),
                spool := s.spool.(checkpoint := s'.spool.checkpoint),
                tables := s'.tables, written := s'.written, flushed := s'.flushed)
    && LastGood(s.spool.checkpoint) <= LastGood(s'.spool.checkpoint)
    && (forall r :: r in InRam(s') ==> r in InRam(s))
    && (forall r :: r in InRam(s) ==> r in InRam(s') || r.seqNo <= LastGood(s'.spool.checkpoint))
    && (forall w :: w in s'.written ==> w in s.written || (w in InRam(s) && !w.checkpointOnly))
    && (forall h :: h in Store.Hashes(s'.tables.raw) ==> h in Store.Hashes(s.tables.raw) || KeptHash(InRam(s), h))
  }

  lemma FlushedTrans(s: State, t: State, s': State)
    requires FlushedTo(s, t) && FlushedTo(t, s')
    ensures FlushedTo(s, s')
  {
    forall h | h in Store.Hashes(s'.tables.raw) && KeptHash(InRam(t), h) ensures KeptHash(InRam(s), h) {
      var w :| w in InRam(t) && !w.checkpointOnly && w.point.hash == h;
      assert w in InRam(s);
    }
  }

  lemma DrainFlushes(cfg: Config, s: State)
    requires Flushable(cfg, s) && Enabled(cfg, s, Drain)
    ensures Flushable(cfg, Apply(cfg, s, Drain)) && FlushedTo(s, Apply(cfg, s, Drain))
    ensures InRam(Apply(cfg, s, Drain)) == InRam(s)
  {
    var s' := Apply(cfg, s, Drain);
    assert InRam(s') == InRam(s);
    TablesUnchanged(s, s');
    IssuedUnchanged(s, s');
  }

  lemma CommitFlushes(cfg: Config, s: State)
    requires Flushable(cfg, s) && s.flight.Drained?
    ensures Enabled(cfg, s, CommitOk)
    ensures Flushable(cfg, Apply(cfg, s, CommitOk)) && FlushedTo(s, Apply(cfg, s, CommitOk))
    ensures InRam(Apply(cfg, s, CommitOk)) == InRam(s)
  {
    var ws := Writes(s.flight.batch);
    WritesIssued(s);
    NoConflictAlong(s, ws);
    var s' := Apply(cfg, s, CommitOk);
    CommitKeepsTables(cfg, s);
    CommitKeepsIssued(cfg, s);
    CommitKeepsFlight(cfg, s);
    WritesMembers(s.flight.batch);
    forall h | h in Store.Hashes(s'.tables.raw) && h !in Store.Hashes(s.tables.raw) ensures KeptHash(InRam(s), h) {
      Store.InsertAllHashes(s.tables, ws, h);
      var r :| r in ws && r.point.hash == h;
      assert r in InRam(s);
    }
  }

  lemma CheckpointFlushes(cfg: Config, s: State)
    requires Flushable(cfg, s) && s.flight.Committed?
    ensures Enabled(cfg, s, CheckpointOk)
    ensures Flushable(cfg, Apply(cfg, s, CheckpointOk)) && FlushedTo(s, Apply(cfg, s, CheckpointOk))
    ensures |InRam(Apply(cfg, s, CheckpointOk))| < |InRam(s)|
  {
    var s' := Apply(cfg, s, CheckpointOk);
    CheckpointOkFlushes(cfg, s);
    TablesUnchanged(s, s');
    IssuedUnchanged(s, s');
    MaxSeqNoBounds(s.flight.batch);
    assert InRam(s') == s.buffer.queue;
  }

  /** The step a flusher with something to do takes next. */
  lemma NextFlush(cfg: Config, s: State) returns (step: Step)
    requires Flushable(cfg, s) && InRam(s) != []
    ensures Flushes(step) && Enabled(cfg, s, step)
    ensures Flushable(cfg, Apply(cfg, s, step)) && FlushedTo(s, Apply(cfg, s, step))
    ensures |InRam(Apply(cfg, s, step))| < |InRam(s)|
      || (|InRam(Apply(cfg, s, step))| == |InRam(s)| && Phase(Apply(cfg, s, step)) < Phase(s))
  {
    match s.flight
    case Idle => step := Drain; DrainFlushes(cfg, s);
    case Drained(_) => step := CommitOk; CommitFlushes(cfg, s);
    case Committed(_, _) => step := CheckpointOk; CheckpointFlushes(cfg, s);
  }

  function Phase(s: State): nat {
    match s.flight
    case Idle => 2
    case Drained(_) => 1
    case Committed(_, _) => 0
  }

  ghost predicate AllFlush(steps: seq<Step>) {
    forall k :: 0 <= k < |steps| ==> Flushes(steps[k])
  }

  /** With no failure the flusher can always empty the process: everything that was
      in RAM ends at or below the checkpoint. */
  lemma {:induction false} FlushAll(cfg: Config, s: State) returns (steps: seq<Step>, s': State)
    requires Flushable(cfg, s)
    ensures AllFlush(steps) && Exec(cfg, s, steps) == Some(s')
    ensures Flushable(cfg, s') && FlushedTo(s, s') && InRam(s') == []
    decreases |InRam(s)|, Phase(s)
  {
    if InRam(s) == [] {
      steps, s' := [], s;
    } else {
      hide Flushable, FlushedTo, Enabled, Apply;
      var step := NextFlush(cfg, s);
      var t := Apply(cfg, s, step);
      var more;
      more, s' := FlushAll(cfg, t);
      steps := [step] + more;
      ExecCons(cfg, s, step, more);
      FlushedTrans(s, t, s');
    }
  }

  /* ------------------------------- reloading ------------------------------ */

  /** One record fits the buffer, itself or as a marker. */
  predicate Fits(cfg: Config, r: Record) {
    && cfg.maxPoints >= 1 && cfg.batchSize >= 1
    && cfg.lineBytes(r) <= cfg.maxBytes && cfg.lineBytes(Marker(r)) <= cfg.maxBytes
  }

  lemma SingleIsAccepted(cfg: Config, b: BufferState, r: Record)
    requires Fits(cfg, r) && b.queue == []
    ensures EnqueueDecision(cfg, b, [r]).Accepted?
    ensures Enqueued(cfg, b, [r]).queue == [r] || Enqueued(cfg, b, [r]).queue == [Marker(r)]
    ensures r.deviceId !in b.last ==> Enqueued(cfg, b, [r]).queue == [r]
  {
    FilterShape(cfg, [r], b.last);
    var out := Filter(cfg, [r], b.last).out;
    assert out == [r] || out == [Marker(r)];
    assert [r][..0] == [] && [Marker(r)][..0] == [];
    assert TotalBytes(cfg.lineBytes, []) == 0;
    assert FilterAll(cfg, [], b.last).last == b.last;
    assert [] + out == out;
  }

  lemma AppendSingle(cfg: Config, s: State, p: Point)
    requires Enabled(cfg, s, Append([p]))
    ensures Apply(cfg, s, Append([p])).spool == AppendOne(cfg, s.spool, p)
    ensures NewRecords(cfg, s.spool.nextSeq, [p]) == [RecordFor(cfg, s.spool.nextSeq, p)]
    ensures OnDisk(Apply(cfg, s, Append([p])).spool.dir, RecordFor(cfg, s.spool.nextSeq, p))
  {
    assert [p][..0] == [];
    AppendAllOnDisk(cfg, s.spool, [p]);
  }

  /** One request of one point that the buffer takes. */
  lemma IngestAccepted(cfg: Config, s: State, p: Point) returns (s': State)
    requires s.up && s.pending == [] && s.recovering == []
    requires EnqueueDecision(cfg, s.buffer, [RecordFor(cfg, s.spool.nextSeq, p)]).Accepted?
    ensures Exec(cfg, s, [Append([p]), Enqueue(0)]) == Some(s')
    ensures var r := RecordFor(cfg, s.spool.nextSeq, p);
      s' == s.(spool := AppendOne(cfg, s.spool, p), buffer := Enqueued(cfg, s.buffer, [r]),
               accepted := s'.accepted, issued := s.issued + {r}, acked := s.acked + {r})
  {
    var r := RecordFor(cfg, s.spool.nextSeq, p);
    AppendSingle(cfg, s, p);
    var t := Apply(cfg, s, Append([p]));
    assert t.pending == [[r]];
    hide EnqueueDecision, Enqueued, AppendOne, Filter;
    Exec2(cfg, s, Append([p]), Enqueue(0));
    s' := Apply(cfg, t, Enqueue(0));
    assert s'.pending == [];
    assert Members([r]) == {r};
  }

  /** One request at an idle moment: the record is acknowledged and nothing else changes. */
  lemma IngestOne(cfg: Config, s: State, p: Point) returns (s': State)
    requires s.up && s.buffer.queue == [] && s.pending == [] && s.recovering == []
    requires Fits(cfg, RecordFor(cfg, s.spool.nextSeq, p))
    ensures Exec(cfg, s, [Append([p]), Enqueue(0)]) == Some(s')
    ensures s' == s.(spool := s'.spool, buffer := s'.buffer, accepted := s'.accepted,
                     issued := s'.issued, acked := s'.acked)
    ensures s'.spool == AppendOne(cfg, s.spool, p) && s'.acked == s.acked + {RecordFor(cfg, s.spool.nextSeq, p)}
    ensures p.deviceId !in s.buffer.last ==> s'.buffer.queue == [RecordFor(cfg, s.spool.nextSeq, p)]
  {
    SingleIsAccepted(cfg, s.buffer, RecordFor(cfg, s.spool.nextSeq, p));
    s' := IngestAccepted(cfg, s, p);
  }

  /** A queue of one record is drained whole ... */
  lemma DrainSingle(cfg: Config, s: State, r: Record)
    requires s.up && s.flight.Idle? && s.buffer.queue == [r] && cfg.batchSize >= 1
    ensures Enabled(cfg, s, Drain)
    ensures Apply(cfg, s, Drain) == s.(flight := Drained([r]), buffer := s.buffer.(queue := []))
  {
    assert [r][..1] == [r] && [r][1..] == [];
  }

  /** ... and a batch of one retained record commits as that record. */
  lemma CommitSingle(cfg: Config, s: State, r: Record)
    requires s.flight == Drained([r]) && !r.checkpointOnly && !Store.Conflicts(s.tables, r)
    ensures Enabled(cfg, s, CommitOk)
    ensures Apply(cfg, s, CommitOk) ==
      s.(flight := Committed([r], r.seqNo), tables := Store.InsertOne(s.tables, r), written := s.written + {r})
  {
    hide Store.Conflicts, Store.InsertOne;
    assert [r][..0] == [];
    assert Writes([]) == [] && Writes([r]) == [r];
    assert Members([r]) == {r};
    assert MaxSeqNo([]) == 0 && MaxSeqNo([r]) == r.seqNo;
    assert Store.InsertAll(s.tables, []) == s.tables && Store.InsertAll(s.tables, [r]) == Store.InsertOne(s.tables, r);
    assert Store.Insertable(s.tables, []);
  }

  /** No new requests: only what recovery and the flusher do by themselves. */
  ghost predicate NoRequests(steps: seq<Step>) {
    forall k :: 0 <= k < |steps| ==> !steps[k].Append? && !steps[k].Enqueue?
  }

  /** Flushing and reloading only. */
  ghost predicate RecoverySteps(steps: seq<Step>) {
    forall k :: 0 <= k < |steps| ==> Flushes(steps[k]) || steps[k].Reload?
  }

  lemma QuietRunKeeps(cfg: Config, s: State, steps: seq<Step>)
    requires Inv(cfg, s) && Exec(cfg, s, steps).Some? && NoRequests(steps)
    ensures Inv(cfg, Exec(cfg, s, steps).value)
  {
    OneLifeIsOrderly(cfg, s, steps);
    RunKeeps(cfg, s, steps);
  }

  /** A process that can go on recovering. */
  ghost predicate Recoverable(cfg: Config, s: State) {
    && Inv(cfg, s) && s.up && cfg.batchSize > 0 && !s.spool.checkpoint.Torn?
    && forall r :: r in s.recovering ==> Fits(cfg, r)
  }

  /** The checkpoint moved past everything that was in RAM, and not back. */
  ghost predicate PassedRam(s: State, s': State) {
    && LastGood(s.spool.checkpoint) <= LastGood(s'.spool.checkpoint)
    && forall r :: r in InRam(s) ==> r.seqNo <= LastGood(s'.spool.checkpoint)
  }

  lemma EmptyRam(cfg: Config, s: State) returns (steps: seq<Step>, s': State)
    requires Recoverable(cfg, s)
    ensures RecoverySteps(steps) && Exec(cfg, s, steps) == Some(s') && Recoverable(cfg, s')
    ensures InRam(s') == [] && s'.recovering == s.recovering && s'.acked == s.acked
    ensures s'.issued == s.issued && PassedRam(s, s')
  {
    hide Exec;
    steps, s' := FlushAll(cfg, s);
    QuietRunKeeps(cfg, s, steps);
  }

  lemma ReloadOne(cfg: Config, s: State)
    requires Recoverable(cfg, s) && InRam(s) == [] && s.recovering != []
    ensures Enabled(cfg, s, Reload(1))
    ensures var t := Apply(cfg, s, Reload(1));
      && Recoverable(cfg, t) && t.recovering == s.recovering[1..] && t.acked == s.acked && t.issued == s.issued
      && t.spool == s.spool && exists e :: e in InRam(t) && e.seqNo == s.recovering[0].seqNo
  {
    assert s.recovering[..1] == [s.recovering[0]];
    assert s.recovering[0] in s.recovering;
    SingleIsAccepted(cfg, s.buffer, s.recovering[0]);
    ReloadKeeps(cfg, s, 1);
    var t := Apply(cfg, s, Reload(1));
    assert t.buffer.queue[0] in InRam(t);
  }

  /** With room for one record, recovery can always run to its end. */
  lemma {:induction false} ReloadAll(cfg: Config, s: State) returns (steps: seq<Step>, s': State)
    requires Recoverable(cfg, s)
    ensures RecoverySteps(steps) && Exec(cfg, s, steps) == Some(s') && Recoverable(cfg, s')
    ensures InRam(s') == [] && s'.recovering == [] && s'.acked == s.acked
    ensures s'.issued == s.issued && PassedRam(s, s')
    ensures forall r :: r in s.recovering ==> r.seqNo <= LastGood(s'.spool.checkpoint)
    decreases |s.recovering|
  {
    hide Recoverable, Exec, Apply, Enabled;
    steps, s' := EmptyRam(cfg, s);
    if s.recovering != [] {
      ReloadOne(cfg, s');
      ExecSnoc(cfg, s, steps, s', Reload(1));
      var t := Apply(cfg, s', Reload(1));
      var more;
      more, s' := ReloadAll(cfg, t);
      ExecConcat(cfg, s, steps + [Reload(1)], more);
      steps := steps + [Reload(1)] + more;
    }
  }
}
