/** The batch flusher. Each method also returns, as ghost results, the pipeline
    steps it performed and the pipeline state they lead to, so whatever is proved
    about runs holds of this code. A `calm` call meets no error of file or database. */
module Flusher {
  import opened Arithmetic
  import opened Ingest
  import opened Buffer
  import opened Spool
  import opened SpoolManager
  import opened Pipeline
  import opened PipelineSafety
  import opened PipelineProgress
  import Store

  /** What is left of `n` records after taking full batches away. */
  function LeftOver(n: nat, batchSize: nat): nat
    requires batchSize > 0
  {
    if n < batchSize then n else LeftOver(n - batchSize, batchSize)
  }

  /** How many of `n` buffered records a successful pass leaves behind. */
  function PassLeaves(n: nat, batchSize: nat, timerMode: bool): nat
    requires batchSize > 0
  {
    if timerMode && n < batchSize then 0 else LeftOver(n, batchSize)
  }

  lemma {:induction false} LeftOverBelow(n: nat, b: nat)
    requires b > 0
    ensures LeftOver(n, b) < b
  {
    if n >= b { LeftOverBelow(n - b, b); }
  }

  lemma {:induction false} WritesMax(rs: seq<Record>)
    ensures MaxSeqNo(Writes(rs)) <= MaxSeqNo(rs)
  {
    if rs != [] {
      var init := rs[..|rs| - 1];
      WritesMax(init);
      if !rs[|rs| - 1].checkpointOnly {
        assert Writes(rs)[..|Writes(rs)| - 1] == Writes(init);
      }
    }
  }

  method SplitWriteAndCheckpointBatch(batch: seq<Record>) returns (writes: seq<Record>, maxSeq: nat)
    ensures writes == Writes(batch) && maxSeq == MaxSeqNo(batch)
  {
    writes, maxSeq := [], 0;
    for i := 0 to |batch|
      invariant writes == Writes(batch[..i]) && maxSeq == MaxSeqNo(batch[..i])
    {
      assert batch[..i + 1][..i] == batch[..i];
      if batch[i].seqNo > maxSeq {
        maxSeq := batch[i].seqNo;
      }
      if !batch[i].checkpointOnly {
        writes := writes + [batch[i]];
      }
    }
    assert batch[..|batch|] == batch;
  }

  class BatchFlusher {
    const cfg: Config
    const buffer: Manager
    const spool: FileSpoolManager
    const store: Store.SQLiteStore

    constructor (cfg: Config, buffer: Manager, spool: FileSpoolManager, store: Store.SQLiteStore)
      requires buffer.cfg == cfg && spool.cfg == cfg
      ensures this.cfg == cfg && this.buffer == buffer && this.spool == spool && this.store == store
    {
      this.cfg, this.buffer, this.spool, this.store := cfg, buffer, spool, store;
    }

    ghost predicate Valid()
      reads this, buffer
    {
      buffer.cfg == cfg && spool.cfg == cfg && cfg.batchSize > 0 && buffer.Valid()
    }

    /** The objects hold what the pipeline state says, between two flushes. */
    ghost predicate Matches(s: State)
      reads this, buffer, spool, store
    {
      && s.up && s.flight.Idle?
      && s.buffer == buffer.View() && s.spool == spool.View() && s.tables == store.View()
    }

    lemma BatchSizePositive()
      requires Valid()
      ensures cfg.batchSize > 0
    {
    }

    method Buffered(ghost s: State) returns (n: nat)
      requires Valid() && Matches(s)
      ensures n == |s.buffer.queue|
    {
      n := buffer.BufferedPoints();
    }

    ghost predicate Holding(s: State)
      reads this, buffer, spool, store
    {
      s.up && s.buffer == buffer.View() && s.spool == spool.View() && s.tables == store.View()
    }

    /** The store half: insert the batch's writes, or put the batch back. */
    method CommitBatch(batch: seq<Record>, calm: bool, ghost s: State)
      returns (ok: bool, maxSeq: nat, ghost step: Step)
      requires Valid() && Holding(s) && s.flight == Drained(batch)
      modifies buffer, store
      ensures Valid() && Enabled(cfg, s, step) && Holding(Apply(cfg, s, step))
      ensures step == if ok then CommitOk else CommitFail
      ensures Apply(cfg, s, step).flight == if ok then Committed(batch, maxSeq) else Idle
      ensures Apply(cfg, s, step).buffer.queue == if ok then s.buffer.queue else batch + s.buffer.queue
      ensures ok ==> maxSeq == MaxSeqNo(batch)
      ensures calm && Enabled(cfg, s, CommitOk) ==> ok
    {
      var writes;
      writes, maxSeq := SplitWriteAndCheckpointBatch(batch);
      if |writes| > 0 {
        var committed := store.InsertSpoolBatch(writes, calm);
        if committed.None? {
          buffer.RequeueFront(batch);
          return false, maxSeq, CommitFail;
        }
        if committed.value > maxSeq {
          maxSeq := committed.value;
        }
      }
      WritesMax(batch);
      return true, maxSeq, CommitOk;
    }

    /** The checkpoint half: advance, or put the batch back. */
    method CheckpointBatch(batch: seq<Record>, maxSeq: nat, calm: bool, ghost s: State)
      returns (ok: bool, ghost step: Step)
      requires Valid() && Holding(s) && s.flight == Committed(batch, maxSeq)
      modifies buffer, spool
      ensures Valid() && Enabled(cfg, s, step) && Holding(Apply(cfg, s, step))
      ensures if ok then step == CheckpointOk else step.CheckpointFail?
      ensures calm && !s.spool.checkpoint.Torn? ==> ok
    {
      if maxSeq == 0 {
        return true, CheckpointOk;
      }
      var advanced := spool.AdvanceCheckpoint(maxSeq, calm);
      if !advanced {
        buffer.RequeueFront(batch);
        var residue :=
          if spool.checkpoint == s.spool.checkpoint then Unchanged
          else if spool.checkpoint == Holds(maxSeq) then Land else Tear;
        return false, CheckpointFail(residue);
      }
      return true, CheckpointOk;
    }

    /** One drained batch through the store and the checkpoint. On any failure the
        batch is back at the front and the queue reads as before. */
    method FlushOneBatch(calm: bool, ghost s: State) returns (flushed: bool, ok: bool, ghost s': State, ghost steps: seq<Step>)
      requires Valid() && Matches(s)
      modifies buffer, spool, store
      ensures Valid() && Matches(s')
      ensures Exec(cfg, s, steps) == Some(s') && OnlyFlushing(steps)
      ensures flushed ==>
        && ok && s.buffer.queue != []
        && s'.buffer.queue == s.buffer.queue[DrainCount(s.buffer, cfg.batchSize)..]
      ensures !flushed ==> s'.buffer.queue == s.buffer.queue
      ensures !flushed && ok ==> s.buffer.queue == [] && s' == s
      ensures flushed ==> IsFlush(steps, MaxSeqNo(s.buffer.queue[..DrainCount(s.buffer, cfg.batchSize)]))
      ensures calm && Sound(cfg, s) ==> ok && Sound(cfg, s')
    {
      hide *;
      NoSteps(cfg, s);
      var batch;
      ghost var s1;
      batch, s1 := DrainOne(s);
      s', steps, ok, flushed := s, [], true, false;
      if |batch| > 0 {
        DrainedIsSound(cfg, s);
        s', ok, steps := ProcessBatch(batch, calm, s1);
        flushed := ok;
        SingleFlush(Drain);
        ConsFlush(cfg, s, Drain, steps);
        if ok { WholeFlush(steps, MaxSeqNo(batch)); }
        steps := [Drain] + steps;
        FlushKeepsSound(cfg, s, steps);
      }
    }

    /** A drained batch: commit it and move the checkpoint, or put it back. */
    method ProcessBatch(batch: seq<Record>, calm: bool, ghost s: State) returns (ghost s': State, ok: bool, ghost steps: seq<Step>)
      requires Valid() && Holding(s) && s.flight == Drained(batch)
      modifies buffer, spool, store
      ensures Valid() && Matches(s')
      ensures Exec(cfg, s, steps) == Some(s') && OnlyFlushing(steps)
      ensures s'.buffer.queue == if ok then s.buffer.queue else batch + s.buffer.queue
      ensures calm && Enabled(cfg, s, CommitOk) && !s.spool.checkpoint.Torn? ==> ok && !s'.spool.checkpoint.Torn?
      ensures ok ==> steps != [] && steps[0] == CommitOk && Finishes(steps[1..], MaxSeqNo(batch))
    {
      ghost var commit;
      var maxSeq;
      ok, maxSeq, commit := CommitBatch(batch, calm, s);
      if ok {
        s', ok, steps := FinishBatch(batch, maxSeq, calm, Apply(cfg, s, commit));
        SingleFlush(commit);
        ConsFlush(cfg, s, commit, steps);
        steps := [commit] + steps;
      } else {
        s', steps := Apply(cfg, s, commit), [commit];
        ExecOne(cfg, s, commit);
      }
    }

    method DrainOne(ghost s: State) returns (batch: seq<Record>, ghost s1: State)
      requires Valid() && Matches(s)
      modifies buffer
      ensures Valid()
      ensures batch == [] ==> s.buffer.queue == [] && Matches(s)
      ensures batch != [] ==>
        && s.buffer.queue != []
        && Enabled(cfg, s, Drain) && s1 == Apply(cfg, s, Drain)
        && Holding(s1) && s1.flight == Drained(batch)
        && batch == s.buffer.queue[..DrainCount(s.buffer, cfg.batchSize)]
        && batch + s1.buffer.queue == s.buffer.queue
        && s1.buffer.queue == s.buffer.queue[DrainCount(s.buffer, cfg.batchSize)..]
    {
      batch := buffer.DrainBatch(cfg.batchSize);
      s1 := if batch == [] then s else Apply(cfg, s, Drain);
    }

    /** Checkpoint and compact a committed batch. */
    method FinishBatch(batch: seq<Record>, maxSeq: nat, calm: bool, ghost s: State)
      returns (ghost s': State, ok: bool, ghost steps: seq<Step>)
      requires Valid() && Holding(s) && s.flight == Committed(batch, maxSeq)
      modifies buffer, spool
      ensures Valid() && Matches(s')
      ensures Exec(cfg, s, steps) == Some(s') && OnlyFlushing(steps)
      ensures s'.buffer.queue == if ok then s.buffer.queue else batch + s.buffer.queue
      ensures calm && !s.spool.checkpoint.Torn? ==> ok && !s'.spool.checkpoint.Torn?
      ensures ok ==> Finishes(steps, maxSeq)
    {
      ghost var checkpoint;
      ok, checkpoint := CheckpointBatch(batch, maxSeq, calm, s);
      s' := Apply(cfg, s, checkpoint);
      steps := [checkpoint];
      ExecOne(cfg, s, checkpoint);
      if ok && maxSeq > 0 {
        ghost var bound;
        var deleted, compacted;
        deleted, compacted, bound := spool.CompactCommittedSegments(calm);
        Exec2(cfg, s, checkpoint, Compact(bound));
        s', steps := Apply(cfg, s', Compact(bound)), [checkpoint, Compact(bound)];
      }
    }

    /** Flushes until fewer than a full batch remains. */
    method FlushPass(timerMode: bool, calm: bool, ghost s: State) returns (ok: bool, ghost s': State, ghost steps: seq<Step>)
      requires Valid() && Matches(s)
      modifies buffer, spool, store
      ensures Valid() && Matches(s')
      ensures Exec(cfg, s, steps) == Some(s') && OnlyFlushing(steps)
      ensures IsSuffix(s'.buffer.queue, s.buffer.queue)
      ensures ok ==> |s'.buffer.queue| == PassLeaves(|s.buffer.queue|, cfg.batchSize, timerMode)
      ensures calm && Sound(cfg, s) ==> ok && Sound(cfg, s')
    {
      NoSteps(cfg, s);
      s', steps := s, [];
      var n := Buffered(s);
      LeftOverBelow(n, cfg.batchSize);
      if n == 0 || (!timerMode && n < cfg.batchSize) {
        return true, s', steps;
      }
      ok, s', steps := FlushFullBatches(calm, s);
    }

    /** The loop of a pass over a non-empty queue. */
    method FlushFullBatches(calm: bool, ghost s: State) returns (ok: bool, ghost s': State, ghost steps: seq<Step>)
      requires Valid() && Matches(s) && s.buffer.queue != []
      modifies buffer, spool, store
      ensures Valid() && Matches(s')
      ensures Exec(cfg, s, steps) == Some(s') && OnlyFlushing(steps)
      ensures IsSuffix(s'.buffer.queue, s.buffer.queue)
      ensures ok ==> |s'.buffer.queue| == PassLeaves(|s.buffer.queue|, cfg.batchSize, true)
      ensures calm && Sound(cfg, s) ==> ok && Sound(cfg, s')
    {
      hide *;
      NoSteps(cfg, s);
      BatchSizePositive();
      FirstRound(|s.buffer.queue|, cfg.batchSize);
      s', steps := s, [];
      ok := true;
      var more := true;
      while more
        invariant Valid() && Matches(s')
        invariant Exec(cfg, s, steps) == Some(s') && OnlyFlushing(steps)
        invariant IsSuffix(s'.buffer.queue, s.buffer.queue)
        invariant more ==> Unfinished(|s.buffer.queue|, |s'.buffer.queue|, cfg.batchSize)
        invariant !more && ok ==> |s'.buffer.queue| == PassLeaves(|s.buffer.queue|, cfg.batchSize, true)
        invariant calm && Sound(cfg, s) ==> ok && Sound(cfg, s')
        decreases more, |s'.buffer.queue|
      {
        var flushed;
        ghost var t, next;
        flushed, ok, t, next := FlushOneBatch(calm, s');
        PassRound(cfg, s, steps, s', next, t, flushed);
        s', steps := t, steps + next;
        var left := Buffered(s');
        more := ok && flushed && left != 0 && left >= cfg.batchSize;
      }
    }

    method FlushNow(calm: bool, ghost s: State) returns (ok: bool, ghost s': State, ghost steps: seq<Step>)
      requires Valid() && Matches(s)
      modifies buffer, spool, store
      ensures Valid() && Matches(s')
      ensures Exec(cfg, s, steps) == Some(s') && OnlyFlushing(steps)
      ensures IsSuffix(s'.buffer.queue, s.buffer.queue)
      ensures ok ==> |s'.buffer.queue| == PassLeaves(|s.buffer.queue|, cfg.batchSize, true) < cfg.batchSize
      ensures calm && Sound(cfg, s) ==> ok && Sound(cfg, s')
    {
      LeftOverBelow(|s.buffer.queue|, cfg.batchSize);
      ok, s', steps := FlushPass(true, calm, s);
    }

    /** The shutdown flush: it ends with an empty queue or an error. */
    method FlushUntilEmpty(calm: bool, ghost s: State) returns (ok: bool, ghost s': State, ghost steps: seq<Step>)
      requires Valid() && Matches(s)
      modifies buffer, spool, store
      ensures Valid() && Matches(s')
      ensures Exec(cfg, s, steps) == Some(s') && OnlyFlushing(steps)
      ensures ok ==> s'.buffer.queue == []
      ensures calm && Sound(cfg, s) ==> ok && Sound(cfg, s')
    {
      hide *;
      BatchSizePositive();
      NoSteps(cfg, s);
      s', steps := s, [];
      while true
        invariant Valid() && Matches(s')
        invariant Exec(cfg, s, steps) == Some(s') && OnlyFlushing(steps)
        invariant calm && Sound(cfg, s) ==> Sound(cfg, s')
        decreases |s'.buffer.queue|
      {
        var flushed;
        ghost var t, more;
        flushed, ok, t, more := FlushOneBatch(calm, s');
        FlushThenFlush(cfg, s, steps, s', more);
        if flushed { DrainShrinks(cfg, s'); }
        s', steps := t, steps + more;
        if !ok || !flushed {
          return ok, s', steps;
        }
      }
    }
  }

  /** A committed batch is checkpointed, and if that can have moved the checkpoint,
      compaction follows. */
  ghost predicate Finishes(steps: seq<Step>, maxSeq: nat) {
    && |steps| == (if maxSeq > 0 then 2 else 1) && steps[0] == CheckpointOk
    && (maxSeq > 0 ==> steps[1].Compact?)
  }

  /** Drain, commit, checkpoint and compact, in this order. */
  ghost predicate IsFlush(steps: seq<Step>, maxSeq: nat) {
    && |steps| == (if maxSeq > 0 then 4 else 3)
    && steps[..3] == [Drain, CommitOk, CheckpointOk]
    && (maxSeq > 0 ==> steps[3].Compact?)
  }

  lemma WholeFlush(steps: seq<Step>, maxSeq: nat)
    requires steps != [] && steps[0] == CommitOk && Finishes(steps[1..], maxSeq)
    ensures IsFlush([Drain] + steps, maxSeq)
  {
    assert steps[1..][0] == steps[1];
    if maxSeq > 0 { assert steps[1..][1] == steps[2]; }
  }

  /** A state of an orderly run whose checkpoint file can be read: from here flushing
      fails only on an error. */
  ghost predicate Sound(cfg: Config, s: State) {
    Inv(cfg, s) && !s.spool.checkpoint.Torn?
  }

  lemma DrainedIsSound(cfg: Config, s: State)
    requires Enabled(cfg, s, Drain)
    ensures Sound(cfg, s) ==>
      Enabled(cfg, Apply(cfg, s, Drain), CommitOk) && !Apply(cfg, s, Drain).spool.checkpoint.Torn?
  {
    if Sound(cfg, s) {
      DrainKeeps(cfg, s);
      BatchIsInsertable(cfg, Apply(cfg, s, Drain));
    }
  }

  lemma FlushKeepsSound(cfg: Config, s: State, steps: seq<Step>)
    requires Exec(cfg, s, steps).Some? && OnlyFlushing(steps)
    ensures var s' := Exec(cfg, s, steps).value;
      Sound(cfg, s) && !s'.spool.checkpoint.Torn? ==> Sound(cfg, s')
  {
    if Sound(cfg, s) {
      QuietRunKeeps(cfg, s, steps);
    }
  }

  ghost predicate IsSuffix(a: seq<Record>, b: seq<Record>) {
    |a| <= |b| && a == b[|b| - |a|..]
  }

  /** One more batch in a pass. */
  lemma PassRound(cfg: Config, s: State, steps: seq<Step>, mid: State, next: seq<Step>, t: State, flushed: bool)
    requires Exec(cfg, s, steps) == Some(mid) && Exec(cfg, mid, next) == Some(t)
    requires OnlyFlushing(steps) && OnlyFlushing(next)
    requires IsSuffix(mid.buffer.queue, s.buffer.queue)
    requires Unfinished(|s.buffer.queue|, |mid.buffer.queue|, cfg.batchSize)
    requires t.buffer.queue ==
      if flushed then mid.buffer.queue[DrainCount(mid.buffer, cfg.batchSize)..] else mid.buffer.queue
    ensures Exec(cfg, s, steps + next) == Some(t) && OnlyFlushing(steps + next)
    ensures IsSuffix(t.buffer.queue, s.buffer.queue)
    ensures mid.buffer.queue != [] && (flushed ==> |t.buffer.queue| < |mid.buffer.queue|)
    ensures flushed ==>
      if |t.buffer.queue| >= cfg.batchSize
      then Unfinished(|s.buffer.queue|, |t.buffer.queue|, cfg.batchSize)
      else |t.buffer.queue| == PassLeaves(|s.buffer.queue|, cfg.batchSize, true)
  {
    hide *;
    UnfinishedNonEmpty(|s.buffer.queue|, |mid.buffer.queue|, cfg.batchSize);
    var n := if flushed then DrainCount(mid.buffer, cfg.batchSize) else 0;
    DrainCountIs(mid.buffer, cfg.batchSize);
    assert mid.buffer.queue[0..] == mid.buffer.queue;
    ChainFlush(cfg, s, steps, mid, next, t, n);
    PassStep(|s.buffer.queue|, |mid.buffer.queue|, |t.buffer.queue|, cfg.batchSize, flushed);
  }

  lemma ChainFlush(cfg: Config, s: State, steps: seq<Step>, mid: State, next: seq<Step>, t: State, n: nat)
    requires Exec(cfg, s, steps) == Some(mid) && Exec(cfg, mid, next) == Some(t)
    requires OnlyFlushing(steps) && OnlyFlushing(next)
    requires IsSuffix(mid.buffer.queue, s.buffer.queue)
    requires n <= |mid.buffer.queue| && t.buffer.queue == mid.buffer.queue[n..]
    ensures Exec(cfg, s, steps + next) == Some(t) && OnlyFlushing(steps + next)
    ensures IsSuffix(t.buffer.queue, s.buffer.queue) && |t.buffer.queue| == |mid.buffer.queue| - n
  {
    FlushThenFlush(cfg, s, steps, mid, next);
    DropOfSuffix(t.buffer.queue, mid.buffer.queue, s.buffer.queue, n);
  }

  lemma DropOfSuffix(a: seq<Record>, b: seq<Record>, c: seq<Record>, n: nat)
    requires IsSuffix(b, c) && n <= |b| && a == b[n..]
    ensures IsSuffix(a, c) && |a| == |b| - n
  {
    var k := |c| - |b|;
    assert c[k..][n..] == c[k + n..];
  }

  lemma UnfinishedNonEmpty(all: nat, left: nat, batchSize: nat)
    requires Unfinished(all, left, batchSize)
    ensures left > 0 && batchSize > 0
  {
  }

  lemma DrainCountIs(b: BufferState, n: nat)
    ensures DrainCount(b, n) == if n > |b.queue| then |b.queue| else n
  {
  }

  /** In the middle of a pass: nothing flushed yet, or only full batches with at
      least one more to come. */
  ghost predicate Unfinished(all: nat, left: nat, batchSize: nat) {
    && batchSize > 0 && 0 < left <= all
    && LeftOver(left, batchSize) == LeftOver(all, batchSize)
    && (left == all || left >= batchSize)
  }

  lemma FirstRound(all: nat, batchSize: nat)
    requires all > 0 && batchSize > 0
    ensures Unfinished(all, all, batchSize)
  {
  }

  lemma PassStep(all: nat, left: nat, left': nat, batchSize: nat, flushed: bool)
    requires Unfinished(all, left, batchSize)
    requires left' == if !flushed then left else if left < batchSize then 0 else left - batchSize
    ensures left' <= left
    ensures flushed && left' >= batchSize ==> Unfinished(all, left', batchSize)
    ensures flushed && left' < batchSize ==> left' == PassLeaves(all, batchSize, true)
  {
    if left >= batchSize {
      assert LeftOver(left, batchSize) == LeftOver(left - batchSize, batchSize);
    }
    assert left' < batchSize ==> LeftOver(left', batchSize) == left';
  }

  /** The steps a flush is made of. */
  ghost predicate OnlyFlushing(steps: seq<Step>) {
    forall k :: 0 <= k < |steps| ==>
      (steps[k].Drain? || steps[k].CommitOk? || steps[k].CommitFail? || steps[k].CheckpointOk?
       || steps[k].CheckpointFail? || steps[k].Compact?)
  }

  lemma {:induction false} LeftOverIsRemainder(n: nat, b: nat)
    requires b > 0
    ensures LeftOver(n, b) == n % b
  {
    if n >= b {
      LeftOverIsRemainder(n - b, b);
      RemainderStep(n, b);
    }
  }

  /** Flush arithmetic: without failures a timed pass leaves nothing of a partial
      batch and the remainder otherwise; a triggered pass leaves the remainder. */
  lemma PassArithmetic(n: nat, b: nat)
    requires b > 0
    ensures PassLeaves(n, b, true) == (if n < b then 0 else n % b)
    ensures PassLeaves(n, b, false) == n % b
    ensures n < b ==> PassLeaves(n, b, false) == n
  {
    LeftOverIsRemainder(n, b);
  }

  /** A flush touches neither the history nor what waits to be enqueued. */
  lemma {:induction false} FlushFrame(cfg: Config, s: State, steps: seq<Step>)
    requires OnlyFlushing(steps) && Exec(cfg, s, steps).Some?
    ensures var t := Exec(cfg, s, steps).value;
      && t.recovering == s.recovering && t.pending == s.pending && t.accepted == s.accepted
      && t.acked == s.acked && t.issued == s.issued && t.buffer.last == s.buffer.last
    decreases |steps|
  {
    if steps != [] {
      var rest := steps[1..];
      assert forall k :: 0 <= k < |rest| ==> rest[k] == steps[k + 1];
      assert Enabled(cfg, s, steps[0]);
      FlushFrame(cfg, Apply(cfg, s, steps[0]), rest);
    }
  }

  /** Flushing runs compose. */
  lemma FlushThenFlush(cfg: Config, s: State, steps: seq<Step>, mid: State, more: seq<Step>)
    requires Exec(cfg, s, steps) == Some(mid) && OnlyFlushing(steps) && OnlyFlushing(more)
    ensures Exec(cfg, s, steps + more) == Exec(cfg, mid, more) && OnlyFlushing(steps + more)
  {
    ExecConcat(cfg, s, steps, more);
  }

  lemma DrainShrinks(cfg: Config, s: State)
    requires s.buffer.queue != [] && cfg.batchSize > 0
    ensures DrainCount(s.buffer, cfg.batchSize) <= |s.buffer.queue|
    ensures |s.buffer.queue[DrainCount(s.buffer, cfg.batchSize)..]| < |s.buffer.queue|
  {
  }

  lemma NoSteps(cfg: Config, s: State)
    ensures Exec(cfg, s, []) == Some(s) && OnlyFlushing([])
    ensures IsSuffix(s.buffer.queue, s.buffer.queue)
  {
  }

  lemma SingleFlush(step: Step)
    requires step.Drain? || step.CommitOk? || step.CommitFail?
          || step.CheckpointOk? || step.CheckpointFail? || step.Compact?
    ensures OnlyFlushing([step])
  {
  }

  lemma ConsFlush(cfg: Config, s: State, step: Step, steps: seq<Step>)
    requires Enabled(cfg, s, step) && OnlyFlushing([step]) && OnlyFlushing(steps)
    ensures Exec(cfg, s, [step] + steps) == Exec(cfg, Apply(cfg, s, step), steps)
    ensures OnlyFlushing([step] + steps)
  {
    ExecCons(cfg, s, step, steps);
    assert OnlyFlushing([step] + steps) by {
      assert [step][0] == step;
    }
  }

}
