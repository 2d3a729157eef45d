/** The checkpoint file is truncated and rewritten in place. A write that dies in
    between leaves a file that nothing can parse, and the program has no way back
    from it: this module proves that, and that it is the only obstacle. */
module PipelineTorn {
  import opened Ingest
  import opened Buffer
  import opened Spool
  import opened Pipeline
  import opened PipelineSafety
  import opened PipelineProgress
  import Store

  /** A torn checkpoint stays torn along every run, orderly or not. */
  lemma {:induction false} TornForever(cfg: Config, s: State, steps: seq<Step>)
    requires s.spool.checkpoint.Torn? && Exec(cfg, s, steps).Some?
    ensures Exec(cfg, s, steps).value.spool.checkpoint == s.spool.checkpoint
    decreases |steps|
  {
    if steps != [] {
      if steps[0].Append? { AppendAllOnDisk(cfg, s.spool, steps[0].points); }
      TornForever(cfg, Apply(cfg, s, steps[0]), steps[1..]);
    }
  }

  /** A process that is down with a torn checkpoint never does anything again. */
  lemma TornIsStuck(cfg: Config, s: State, steps: seq<Step>)
    requires PhaseOk(s) && FlightOk(s) && !s.up && s.spool.checkpoint.Torn?
    requires Exec(cfg, s, steps).Some?
    ensures steps == []
  {
    assert s.flight.Idle? by { assert BatchOf(s.flight) == []; }
  }

  /** These steps end with everything acknowledged so far durable. */
  ghost predicate BringsBack(cfg: Config, s: State, steps: seq<Step>) {
    Exec(cfg, s, steps).Some? && forall r :: r in s.acked ==> Covered(cfg, Exec(cfg, s, steps).value, r)
  }

  ghost predicate AllDurable(cfg: Config, s: State) {
    forall r :: r in s.acked ==> Covered(cfg, s, r)
  }

  /** Restarting, reloading and flushing makes every acknowledged record durable. */
  lemma RestartBringsBack(cfg: Config, s: State, first: nat) returns (steps: seq<Step>)
    requires Inv(cfg, s) && !s.up && !s.spool.checkpoint.Torn? && cfg.batchSize > 0
    requires forall r :: OnDisk(s.spool.dir, r) && r.seqNo > LastGood(s.spool.checkpoint) ==> Fits(cfg, r)
    ensures |steps| > 0 && steps[0] == Restart(first) && NoRequests(steps) && BringsBack(cfg, s, steps)
  {
    RestartIsRecoverable(cfg, s, first);
    hide Inv, Recoverable, Fits, OnDisk;
    var more, s' := ReloadDurably(cfg, Apply(cfg, s, Restart(first)));
    hide Exec, Covered;
    steps := [Restart(first)] + more;
    ExecCons(cfg, s, Restart(first), more);
  }

  lemma RestartIsRecoverable(cfg: Config, s: State, first: nat)
    requires Inv(cfg, s) && !s.up && !s.spool.checkpoint.Torn? && cfg.batchSize > 0
    requires forall r :: OnDisk(s.spool.dir, r) && r.seqNo > LastGood(s.spool.checkpoint) ==> Fits(cfg, r)
    ensures Enabled(cfg, s, Restart(first)) && Recoverable(cfg, Apply(cfg, s, Restart(first)))
  {
    hide Fits;
    RestartKeeps(cfg, s, first);
    ReplayMembers(s.spool.dir, LastGood(s.spool.checkpoint));
    hide Inv, OnDisk;
  }

  lemma ReloadDurably(cfg: Config, s: State) returns (steps: seq<Step>, s': State)
    requires Recoverable(cfg, s)
    ensures NoRequests(steps) && Exec(cfg, s, steps) == Some(s') && s'.acked == s.acked && AllDurable(cfg, s')
  {
    hide Exec;
    steps, s' := ReloadAll(cfg, s);
    DoneIsDurable(cfg, s');
  }

  lemma DoneIsDurable(cfg: Config, s: State)
    requires Inv(cfg, s) && s.up && InRam(s) == [] && s.recovering == []
    ensures AllDurable(cfg, s)
  {
  }

  /** After a crash, with room in the buffer for a record, some continuation makes
      every acknowledged record durable if and only if the checkpoint file is whole
      (or nothing was left to bring back). */
  lemma ComesBackIff(cfg: Config, s: State)
    requires Inv(cfg, s) && !s.up && cfg.batchSize > 0
    requires forall r :: OnDisk(s.spool.dir, r) && r.seqNo > LastGood(s.spool.checkpoint) ==> Fits(cfg, r)
    ensures (exists steps :: BringsBack(cfg, s, steps)) <==> !s.spool.checkpoint.Torn? || AllDurable(cfg, s)
  {
    if !s.spool.checkpoint.Torn? {
      var steps := RestartBringsBack(cfg, s, 1);
    } else {
      forall steps | BringsBack(cfg, s, steps) ensures AllDurable(cfg, s) {
        TornIsStuck(cfg, s, steps);
      }
      if AllDurable(cfg, s) { assert BringsBack(cfg, s, []); }
    }
  }

  /* ------------------------- a run that gets there ------------------------- */

  /** One batch is out when a second request comes in. */
  lemma FirstBatchOut(cfg: Config, p: Point) returns (s: State)
    requires Fits(cfg, RecordFor(cfg, 1, p))
    ensures Exec(cfg, INIT, [Append([p]), Enqueue(0)] + [Drain]) == Some(s)
    ensures var a := RecordFor(cfg, 1, p);
      && s.up && s.flight == Drained([a]) && s.buffer.queue == [] && s.pending == [] && s.recovering == []
      && s.tables == Store.NO_ROWS && s.written == {}
      && s.spool.nextSeq == 2 && s.spool.checkpoint == Absent
  {
    hide Exec;
    var t := IngestOne(cfg, INIT, p);
    DrainSingle(cfg, t, RecordFor(cfg, 1, p));
    ExecSnoc(cfg, INIT, [Append([p]), Enqueue(0)], t, Drain);
    s := Apply(cfg, t, Drain);
  }

  lemma TearAndCrash(cfg: Config, s: State, a: Record) returns (s': State)
    requires s.up && s.flight == Drained([a]) && !a.checkpointOnly && a.seqNo > 0
    requires s.tables == Store.NO_ROWS && s.written == {} && s.spool.checkpoint == Absent
    ensures Exec(cfg, s, [CommitOk, CheckpointFail(Tear)] + [Crash]) == Some(s')
    ensures !s'.up && s'.spool.checkpoint == Torn(0) && s'.acked == s.acked && s'.written == {a}
    ensures Store.Hashes(s'.tables.raw) == {a.point.hash}
  {
    CommitSingle(cfg, s, a);
    Store.InsertOneEffect(s.tables, a);
    assert Store.Hashes(Store.NO_ROWS.raw) == {};
    hide Exec, Store.InsertOne, Store.Hashes;
    Exec2(cfg, s, CommitOk, CheckpointFail(Tear));
    var t := Apply(cfg, Apply(cfg, s, CommitOk), CheckpointFail(Tear));
    ExecSnoc(cfg, s, [CommitOk, CheckpointFail(Tear)], t, Crash);
    s' := Apply(cfg, t, Crash);
  }

  function TearingRun(p: Point, q: Point): seq<Step> {
    [Append([p]), Enqueue(0)] + [Drain] + [Append([q]), Enqueue(0)] + ([CommitOk, CheckpointFail(Tear)] + [Crash])
  }

  lemma TearingEnds(cfg: Config, p: Point, q: Point) returns (s: State)
    requires Fits(cfg, RecordFor(cfg, 1, p)) && Fits(cfg, RecordFor(cfg, 2, q))
    ensures Exec(cfg, INIT, TearingRun(p, q)) == Some(s)
    ensures !s.up && s.spool.checkpoint == Torn(0)
    ensures RecordFor(cfg, 2, q) in s.acked && s.written == {RecordFor(cfg, 1, p)}
    ensures Store.Hashes(s.tables.raw) == {RecordFor(cfg, 1, p).point.hash}
  {
    hide Exec, Fits;
    var first, second := [Append([p]), Enqueue(0)] + [Drain], [Append([q]), Enqueue(0)];
    var s1 := FirstBatchOut(cfg, p);
    var s2 := IngestOne(cfg, s1, q);
    s := TearAndCrash(cfg, s2, RecordFor(cfg, 1, p));
    ExecConcat(cfg, INIT, first, second);
    ExecConcat(cfg, INIT, first + second, [CommitOk, CheckpointFail(Tear)] + [Crash]);
  }

  lemma TearingIsOneLife(p: Point, q: Point)
    ensures EnqueuesInOrder(TearingRun(p, q)) && NoAppendAfterRestart(TearingRun(p, q))
  {
    var steps := TearingRun(p, q);
    assert steps == [Append([p]), Enqueue(0), Drain, Append([q]), Enqueue(0), CommitOk, CheckpointFail(Tear), Crash];
  }

  /** An orderly run of one life after which an acknowledged record is on disk, not
      in the database, and cannot come back in any continuation. */
  lemma TearLosesAcked(cfg: Config, p: Point, q: Point)
    requires Fits(cfg, RecordFor(cfg, 1, p)) && Fits(cfg, RecordFor(cfg, 2, q))
    requires RecordFor(cfg, 1, p).point.hash != RecordFor(cfg, 2, q).point.hash
    requires !Suppresses(cfg, RecordFor(cfg, 1, p), RecordFor(cfg, 2, q))
    ensures OrderlyRun(cfg, INIT, TearingRun(p, q)) && Exec(cfg, INIT, TearingRun(p, q)).Some?
    ensures var s := Exec(cfg, INIT, TearingRun(p, q)).value; var b := RecordFor(cfg, 2, q);
      && !s.up && s.spool.checkpoint.Torn?
      && b in s.acked && OnDisk(s.spool.dir, b) && !Covered(cfg, s, b)
      && forall steps :: !BringsBack(cfg, s, steps)
  {
    hide Exec, TearingRun;
    var b := RecordFor(cfg, 2, q);
    var s := TearingEnds(cfg, p, q);
    TearingIsOneLife(p, q);
    OneLifeCrashSafety(cfg, TearingRun(p, q));
    RunIsInv(cfg, TearingRun(p, q));
    assert !Covered(cfg, s, b);
    forall steps ensures !BringsBack(cfg, s, steps) {
      if BringsBack(cfg, s, steps) {
        NothingMore(cfg, s, steps);
      }
    }
  }

  lemma NothingMore(cfg: Config, s: State, steps: seq<Step>)
    requires Inv(cfg, s) && !s.up && s.spool.checkpoint.Torn? && Exec(cfg, s, steps).Some?
    ensures Exec(cfg, s, steps) == Some(s)
  {
    TornIsStuck(cfg, s, steps);
  }
}
