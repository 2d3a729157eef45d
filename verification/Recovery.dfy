/** Startup recovery: replay the spool into the buffer chunk by chunk, flushing
    when the buffer is full, then flush once more. */
module Recovery {
  import opened Ingest
  import opened Buffer
  import opened Spool
  import opened Pipeline
  import opened PipelineSafety
  import opened PipelineProgress
  import opened Flusher
  import Store

  datatype Outcome =
    | Recovered(checkpointSeq: nat, replayed: nat, enqueued: nat)
    | ReadFailed
    | FlushFailed
    | EnqueueFailed

  /** `a` is `b` record for record, each as it was or reduced to its marker. */
  ghost predicate Lined(a: seq<Record>, b: seq<Record>) {
    |a| == |b| && forall i :: 0 <= i < |a| ==> a[i] == b[i] || a[i] == Marker(b[i])
  }

  /** No record, kept or suppressed, takes more than `line` bytes. */
  ghost predicate LineBound(cfg: Config, rs: seq<Record>, line: nat) {
    forall r :: r in rs ==> cfg.lineBytes(r) <= line && cfg.lineBytes(Marker(r)) <= line
  }

  /** A chunk always fits beside what a flush may leave buffered. */
  predicate RoomFor(cfg: Config, chunk: nat, line: nat) {
    && cfg.batchSize > 0
    && chunk + cfg.batchSize - 1 <= cfg.maxPoints
    && (chunk + cfg.batchSize - 1) * line <= cfg.maxBytes
  }

  lemma {:induction false} BytesBounded(f: Record -> nat, rs: seq<Record>, line: nat)
    requires forall r :: r in rs ==> f(r) <= line
    ensures TotalBytes(f, rs) <= |rs| * line
  {
    if rs != [] {
      var n := |rs| - 1;
      assert rs[n] in rs;
      BytesBounded(f, rs[..n], line);
      assert |rs| * line == n * line + line;
    }
  }

  lemma LinedBounded(cfg: Config, a: seq<Record>, b: seq<Record>, line: nat)
    requires Lined(a, b) && LineBound(cfg, b, line)
    ensures forall r :: r in a ==> cfg.lineBytes(r) <= line
  {
    forall r | r in a ensures cfg.lineBytes(r) <= line {
      var i :| 0 <= i < |a| && a[i] == r;
      assert b[i] in b;
    }
  }

  /** After a successful flush the retried chunk is always taken. */
  lemma RetryFits(cfg: Config, b: BufferState, records: seq<Record>, chunk: nat, line: nat)
    requires RoomFor(cfg, chunk, line)
    requires |b.queue| < cfg.batchSize && |records| <= chunk
    requires forall r :: r in b.queue ==> cfg.lineBytes(r) <= line
    requires LineBound(cfg, records, line)
    ensures EnqueueDecision(cfg, b, records).Accepted?
  {
    FilterShape(cfg, records, b.last);
    var out := Filter(cfg, records, b.last).out;
    LinedBounded(cfg, out, records, line);
    BytesBounded(cfg.lineBytes, b.queue, line);
    BytesBounded(cfg.lineBytes, out, line);
    SumOfProducts(|b.queue|, |out|, chunk + cfg.batchSize - 1, line);
  }

  lemma SumOfProducts(a: nat, b: nat, n: nat, k: nat)
    requires a + b <= n
    ensures a * k + b * k <= n * k
  {
    assert a * k + b * k == (a + b) * k;
    assert n * k == (a + b) * k + (n - a - b) * k;
  }

  lemma LinedAppend(a: seq<Record>, b: seq<Record>, out: seq<Record>, chunk: seq<Record>)
    requires Lined(a, b) && Lined(out, chunk)
    ensures Lined(a + out, b + chunk)
  {
  }

  /** Mid-recovery: everything before `start` has been enqueued, in order. */
  ghost predicate Progress(cfg: Config, s: State, replayed: seq<Record>, start: nat) {
    && start <= |replayed|
    && Inv(cfg, s)
    && s.recovering == replayed[start..] && s.pending == []
    && Lined(s.accepted, replayed[..start])
  }

  lemma ProgressFlush(cfg: Config, s: State, steps: seq<Step>, replayed: seq<Record>, start: nat)
    requires Progress(cfg, s, replayed, start) && Exec(cfg, s, steps).Some? && OnlyFlushing(steps)
    ensures Progress(cfg, Exec(cfg, s, steps).value, replayed, start)
  {
    QuietRunKeeps(cfg, s, steps);
    FlushFrame(cfg, s, steps);
  }

  lemma ReloadLines(cfg: Config, s: State, replayed: seq<Record>, start: nat, n: nat)
    requires start <= |replayed| && s.recovering == replayed[start..] && Lined(s.accepted, replayed[..start])
    requires Enabled(cfg, s, Reload(n))
    ensures start + n <= |replayed|
    ensures var s' := Apply(cfg, s, Reload(n));
      s'.recovering == replayed[start + n..] && Lined(s'.accepted, replayed[..start + n])
  {
    var chunk := s.recovering[..n];
    FilterShape(cfg, chunk, s.buffer.last);
    LinedAppend(s.accepted, replayed[..start], Filter(cfg, chunk, s.buffer.last).out, chunk);
    assert replayed[..start] + chunk == replayed[..start + n];
    assert replayed[start..][n..] == replayed[start + n..];
  }

  lemma ProgressReload(cfg: Config, s: State, replayed: seq<Record>, start: nat, n: nat)
    requires Progress(cfg, s, replayed, start) && Enabled(cfg, s, Reload(n))
    ensures start + n <= |replayed| && Progress(cfg, Apply(cfg, s, Reload(n)), replayed, start + n)
    ensures Apply(cfg, s, Reload(n)).spool == s.spool
  {
    ReloadLines(cfg, s, replayed, start, n);
    ReloadKeeps(cfg, s, n);
  }

  lemma ProgressIsSound(cfg: Config, s: State, replayed: seq<Record>, start: nat)
    requires Progress(cfg, s, replayed, start)
    ensures Sound(cfg, s) <==> !s.spool.checkpoint.Torn?
  {
  }

  lemma QueueBounded(cfg: Config, s: State, replayed: seq<Record>, start: nat, line: nat)
    requires Progress(cfg, s, replayed, start) && LineBound(cfg, replayed, line)
    ensures forall r :: r in s.buffer.queue ==> cfg.lineBytes(r) <= line
  {
    assert forall r :: r in replayed[..start] ==> r in replayed;
    LinedBounded(cfg, s.accepted, replayed[..start], line);
    forall r | r in s.buffer.queue ensures r in s.accepted {
      assert r in InRam(s);
    }
  }

  /** The sizes of the chunks that these steps reload. */
  function Sizes(steps: seq<Step>): seq<nat> {
    if steps == [] then []
    else
      var before := Sizes(steps[..|steps| - 1]);
      match steps[|steps| - 1]
      case Reload(n) => before + [n]
      case _ => before
  }

  /** Full chunks, and what is left over as the last one. */
  function ChunkSizes(total: nat, size: nat): seq<nat>
    requires size > 0
  {
    if total == 0 then [] else if total <= size then [total] else [size] + ChunkSizes(total - size, size)
  }

  lemma {:induction false} SizesConcat(a: seq<Step>, b: seq<Step>)
    ensures Sizes(a + b) == Sizes(a) + Sizes(b)
  {
    if b == [] {
      assert a + b == a;
    } else {
      SizesConcat(a, b[..|b| - 1]);
      assert (a + b)[..|a + b| - 1] == a + b[..|b| - 1];
    }
  }

  lemma {:induction false} FlushReloadsNothing(steps: seq<Step>)
    requires OnlyFlushing(steps)
    ensures Sizes(steps) == []
  {
    if steps != [] { FlushReloadsNothing(steps[..|steps| - 1]); }
  }

  lemma FlushThenReload(steps: seq<Step>, n: nat)
    requires OnlyFlushing(steps)
    ensures Sizes(steps + [Reload(n)]) == Sizes([Reload(n)]) == [n]
  {
    FlushReloadsNothing(steps);
    SizesConcat(steps, [Reload(n)]);
  }

  /** Sizes so far and those to come make up the whole. */
  ghost predicate Sized(steps: seq<Step>, total: nat, start: nat, size: nat) {
    start <= total && size > 0 && Sizes(steps) + ChunkSizes(total - start, size) == ChunkSizes(total, size)
  }

  lemma NothingSized(total: nat, size: nat)
    requires size > 0
    ensures Sized([], total, 0, size)
  {
    assert [] + ChunkSizes(total, size) == ChunkSizes(total, size);
  }

  lemma OneMoreSized(steps: seq<Step>, more: seq<Step>, total: nat, start: nat, size: nat)
    requires Sized(steps, total, start, size) && start < total
    requires Sizes(more) == [if total - start < size then total - start else size]
    ensures var end := if start + size > total then total else start + size; Sized(steps + more, total, end, size)
  {
    SizesConcat(steps, more);
    var left := total - start;
    var n := if left < size then left else size;
    FirstChunk(left, size, n);
    hide Sizes, ChunkSizes;
    assert Sizes(steps) + ([n] + ChunkSizes(left - n, size)) == (Sizes(steps) + [n]) + ChunkSizes(left - n, size);
  }

  lemma FirstChunk(left: nat, size: nat, n: nat)
    requires size > 0 && left > 0 && n == if left < size then left else size
    ensures ChunkSizes(left, size) == [n] + ChunkSizes(left - n, size)
  {
    if left <= size { assert ChunkSizes(left - n, size) == []; }
  }

  lemma AllSized(steps: seq<Step>, more: seq<Step>, total: nat, size: nat)
    requires Sized(steps, total, total, size) && OnlyFlushing(more)
    ensures Sizes(steps + more) == ChunkSizes(total, size)
  {
    FlushReloadsNothing(more);
    SizesConcat(steps, more);
  }

  /** `chunk` is what comes next in the replay. */
  ghost predicate IsChunk(chunk: seq<Record>, replayed: seq<Record>, start: nat) {
    start + |chunk| <= |replayed| && chunk == replayed[start..start + |chunk|]
  }

  ghost predicate Roomy(cfg: Config, replayed: seq<Record>, size: nat, line: nat) {
    RoomFor(cfg, size, line) && LineBound(cfg, replayed, line)
  }

  lemma NextChunk(chunk: seq<Record>, replayed: seq<Record>, start: nat)
    requires start + |chunk| <= |replayed| && chunk == replayed[start..start + |chunk|]
    ensures IsChunk(chunk, replayed, start)
  {
  }

  lemma ChunkIsNext(cfg: Config, s: State, chunk: seq<Record>, replayed: seq<Record>, start: nat)
    requires Progress(cfg, s, replayed, start) && IsChunk(chunk, replayed, start)
    ensures |chunk| <= |s.recovering| && s.recovering[..|chunk|] == chunk
  {
  }

  /** A chunk of the replay, offered right after a successful flush. */
  lemma RetryAccepted(cfg: Config, s: State, chunk: seq<Record>, replayed: seq<Record>,
                      start: nat, size: nat, line: nat)
    requires Progress(cfg, s, replayed, start) && |s.buffer.queue| < cfg.batchSize
    requires IsChunk(chunk, replayed, start) && |chunk| <= size
    ensures Roomy(cfg, replayed, size, line) ==> EnqueueDecision(cfg, s.buffer, chunk).Accepted?
  {
    if Roomy(cfg, replayed, size, line) {
      QueueBounded(cfg, s, replayed, start, line);
      assert forall r :: r in chunk ==> r in replayed;
      RetryFits(cfg, s.buffer, chunk, size, line);
    }
  }

  class Recoverer {
    const flusher: BatchFlusher

    constructor (flusher: BatchFlusher)
      ensures this.flusher == flusher
    {
      this.flusher := flusher;
    }

    /** One enqueue of the next chunk. */
    method Offer(chunk: seq<Record>, ghost s: State) returns (outcome: EnqueueOutcome, ghost s': State)
      requires flusher.Valid() && flusher.Matches(s)
      requires 0 < |chunk| <= |s.recovering| && chunk == s.recovering[..|chunk|]
      modifies flusher.buffer
      ensures flusher.Valid() && flusher.Matches(s')
      ensures outcome == EnqueueDecision(flusher.cfg, s.buffer, chunk)
      ensures outcome.Accepted? ==>
        Enabled(flusher.cfg, s, Reload(|chunk|)) && s' == Apply(flusher.cfg, s, Reload(|chunk|))
      ensures !outcome.Accepted? ==> s' == s
    {
      outcome := flusher.buffer.Enqueue(chunk);
      s' := if outcome.Accepted? then Apply(flusher.cfg, s, Reload(|chunk|)) else s;
    }

    /** The buffer was full: flush, then offer the chunk once more. */
    method FlushAndRetry(chunk: seq<Record>, calm: bool, ghost s: State, ghost replayed: seq<Record>,
                         ghost start: nat, ghost size: nat, ghost line: nat)
      returns (failure: Option<Outcome>, ghost s': State, ghost steps: seq<Step>)
      requires flusher.Valid() && flusher.Matches(s) && Progress(flusher.cfg, s, replayed, start)
      requires 0 < |chunk| <= size && IsChunk(chunk, replayed, start)
      modifies flusher.buffer, flusher.spool, flusher.store
      ensures flusher.Valid() && flusher.Matches(s')
      ensures Exec(flusher.cfg, s, steps) == Some(s')
      ensures failure.None? ==> start + |chunk| <= |replayed| && Progress(flusher.cfg, s', replayed, start + |chunk|)
      ensures failure.None? ==> Sizes(steps) == [|chunk|]
      ensures failure.Some? ==> Progress(flusher.cfg, s', replayed, start)
      ensures failure.None? || failure == Some(FlushFailed) || failure == Some(EnqueueFailed)
      ensures Roomy(flusher.cfg, replayed, size, line) ==> failure != Some(EnqueueFailed)
      ensures calm && !s.spool.checkpoint.Torn? ==> failure != Some(FlushFailed) && !s'.spool.checkpoint.Torn?
    {
      hide *;
      ghost var cfg := flusher.cfg;
      flusher.BatchSizePositive();
      var ok;
      ProgressIsSound(cfg, s, replayed, start);
      ok, s', steps := flusher.FlushNow(calm, s);
      ProgressFlush(cfg, s, steps, replayed, start);
      ProgressIsSound(cfg, s', replayed, start);
      if !ok {
        return Some(FlushFailed), s', steps;
      }
      RetryAccepted(cfg, s', chunk, replayed, start, size, line);
      ChunkIsNext(cfg, s', chunk, replayed, start);
      var outcome;
      ghost var t;
      outcome, t := Offer(chunk, s');
      if !outcome.Accepted? {
        return Some(EnqueueFailed), s', steps;
      }
      ExecSnoc(cfg, s, steps, s', Reload(|chunk|));
      ProgressReload(cfg, s', replayed, start, |chunk|);
      FlushThenReload(steps, |chunk|);
      s', steps := t, steps + [Reload(|chunk|)];
      return None, s', steps;
    }

    /** One chunk: enqueue it, and if the buffer is full flush and try once more. */
    method EnqueueChunk(chunk: seq<Record>, calm: bool, ghost s: State, ghost replayed: seq<Record>,
                        ghost start: nat, ghost size: nat, ghost line: nat)
      returns (failure: Option<Outcome>, ghost s': State, ghost steps: seq<Step>)
      requires flusher.Valid() && flusher.Matches(s) && Progress(flusher.cfg, s, replayed, start)
      requires 0 < |chunk| <= size && IsChunk(chunk, replayed, start)
      modifies flusher.buffer, flusher.spool, flusher.store
      ensures flusher.Valid() && flusher.Matches(s')
      ensures Exec(flusher.cfg, s, steps) == Some(s')
      ensures failure.None? ==> start + |chunk| <= |replayed| && Progress(flusher.cfg, s', replayed, start + |chunk|)
      ensures failure.None? ==> Sizes(steps) == [|chunk|]
      ensures failure.Some? ==> Progress(flusher.cfg, s', replayed, start)
      ensures failure.None? || failure == Some(FlushFailed) || failure == Some(EnqueueFailed)
      ensures Roomy(flusher.cfg, replayed, size, line) ==> failure != Some(EnqueueFailed)
      ensures calm && !s.spool.checkpoint.Torn? ==> failure != Some(FlushFailed) && !s'.spool.checkpoint.Torn?
    {
      hide *;
      ghost var cfg := flusher.cfg;
      ChunkIsNext(cfg, s, chunk, replayed, start);
      var outcome;
      ghost var t;
      outcome, t := Offer(chunk, s);
      if outcome.Accepted? {
        ExecOne(cfg, s, Reload(|chunk|));
        ProgressReload(cfg, s, replayed, start, |chunk|);
        NoSteps(cfg, s);
        FlushThenReload([], |chunk|);
        return None, t, [Reload(|chunk|)];
      }
      failure, s', steps := FlushAndRetry(chunk, calm, s, replayed, start, size, line);
    }

    /** Recovery of a fresh process. When it succeeds, what was replayed is a
        flushed prefix, durable and at or below the checkpoint, followed by exactly
        the buffered records, fewer than a batch. It cannot run out of room if a
        chunk fits beside an unfinished batch, however long the spool is; and
        failing leaves the pipeline in a state that is still crash safe. */
    method RecoverFromSpool(enqueueBatchSize: int, calm: bool, ghost s: State, ghost line: nat)
      returns (outcome: Outcome, ghost s': State, ghost steps: seq<Step>)
      requires flusher.Valid() && flusher.Matches(s) && Inv(flusher.cfg, s)
      requires s.accepted == [] && s.pending == []
      requires s.recovering == Replay(s.spool.dir, LastGood(s.spool.checkpoint))
      modifies flusher.buffer, flusher.spool, flusher.store
      ensures flusher.Valid() && flusher.Matches(s')
      ensures Exec(flusher.cfg, s, steps) == Some(s') && Inv(flusher.cfg, s')
      ensures outcome.Recovered? ==>
        && outcome == Recovered(LastGood(s.spool.checkpoint), |s.recovering|, |s.recovering|)
        && s'.recovering == []
        && Lined(s'.flushed + s'.buffer.queue, s.recovering)
        && |s'.buffer.queue| < flusher.cfg.batchSize
        && (forall r :: r in s'.flushed ==>
             && r.seqNo <= LastGood(s'.spool.checkpoint)
             && (!r.checkpointOnly ==> r.point.hash in Store.Hashes(s'.tables.raw)))
      ensures
        var chunk := if enqueueBatchSize <= 0 then 64 else enqueueBatchSize;
        && (outcome.Recovered? ==> Sizes(steps) == ChunkSizes(|s.recovering|, chunk))
        && (Roomy(flusher.cfg, s.recovering, chunk, line) ==> !outcome.EnqueueFailed?)
        && (calm && !s.spool.checkpoint.Torn? && old(flusher.spool.damaged) == {} ==>
             outcome.Recovered? || outcome.EnqueueFailed?)
    {
      ghost var cfg := flusher.cfg;
      s', steps := s, [];
      var size := if enqueueBatchSize <= 0 then 64 else enqueueBatchSize;
      if flusher.spool.checkpoint.Torn? {
        return ReadFailed, s', steps;
      }
      var checkpointSeq := LastGood(flusher.spool.checkpoint);
      var replay := flusher.spool.ReplayAfterCheckpoint(calm);
      if replay.None? {
        return ReadFailed, s', steps;
      }
      var replayed := replay.value;
      ghost var all := s.recovering;
      StartProgress(cfg, s, all);
      if |replayed| == 0 {
        FinishedShape(cfg, s, all);
        return Recovered(checkpointSeq, 0, 0), s', steps;
      }

      var failure, enqueued;
      failure, enqueued, s', steps := EnqueueAll(replayed, size, calm, s, line);
      if failure.Some? {
        return failure.value, s', steps;
      }
      var ok;
      ghost var t, more;
      ok, t, more := flusher.FlushNow(calm, s');
      ProgressFlush(cfg, s', more, all, |all|);
      ExecConcat(cfg, s, steps, more);
      AllSized(steps, more, |replayed|, size);
      s', steps := t, steps + more;
      FinishedShape(cfg, s', all);
      outcome := if ok then Recovered(checkpointSeq, |replayed|, enqueued) else FlushFailed;
    }

    /** The chunk loop. */
    method EnqueueAll(replayed: seq<Record>, size: nat, calm: bool, ghost s: State, ghost line: nat)
      returns (failure: Option<Outcome>, enqueued: nat, ghost s': State, ghost steps: seq<Step>)
      requires flusher.Valid() && flusher.Matches(s) && Progress(flusher.cfg, s, replayed, 0) && size > 0
      modifies flusher.buffer, flusher.spool, flusher.store
      ensures flusher.Valid() && flusher.Matches(s')
      ensures Exec(flusher.cfg, s, steps) == Some(s')
      ensures enqueued <= |replayed| && Progress(flusher.cfg, s', replayed, enqueued)
      ensures failure.None? ==> enqueued == |replayed| && Sized(steps, |replayed|, enqueued, size)
      ensures failure.None? || failure == Some(FlushFailed) || failure == Some(EnqueueFailed)
      ensures Roomy(flusher.cfg, replayed, size, line) ==> failure != Some(EnqueueFailed)
      ensures calm && !s.spool.checkpoint.Torn? ==> failure != Some(FlushFailed) && !s'.spool.checkpoint.Torn?
    {
      hide *;
      ghost var cfg := flusher.cfg;
      NoSteps(cfg, s);
      NothingSized(|replayed|, size);
      s', steps, enqueued, failure := s, [], 0, None;
      var start := 0;
      while start < |replayed|
        invariant 0 <= start <= |replayed| && enqueued == start
        invariant flusher.Valid() && flusher.Matches(s')
        invariant Exec(cfg, s, steps) == Some(s') && Progress(cfg, s', replayed, start)
        invariant Sized(steps, |replayed|, start, size)
        invariant calm && !s.spool.checkpoint.Torn? ==> !s'.spool.checkpoint.Torn?
      {
        var end := start + size;
        if end > |replayed| {
          end := |replayed|;
        }
        var chunk := replayed[start..end];
        NextChunk(chunk, replayed, start);
        ghost var t, more;
        failure, t, more := EnqueueChunk(chunk, calm, s', replayed, start, size, line);
        ExecConcat(cfg, s, steps, more);
        ghost var before := steps;
        s', steps := t, steps + more;
        if failure.Some? {
          return;
        }
        OneMoreSized(before, more, |replayed|, start, size);
        enqueued := enqueued + |chunk|;
        start := end;
      }
      failure := None;
    }
  }

  lemma StartProgress(cfg: Config, s: State, replayed: seq<Record>)
    requires Inv(cfg, s) && s.accepted == [] && s.pending == [] && s.recovering == replayed
    ensures Progress(cfg, s, replayed, 0)
  {
    assert replayed[0..] == replayed && replayed[..0] == [];
  }

  /** When everything has been enqueued and the flusher is idle. */
  lemma FinishedShape(cfg: Config, s: State, replayed: seq<Record>)
    requires Progress(cfg, s, replayed, |replayed|) && s.flight.Idle?
    ensures s.recovering == [] && Lined(s.flushed + s.buffer.queue, replayed)
    ensures forall r :: r in s.flushed ==>
      && r.seqNo <= LastGood(s.spool.checkpoint)
      && (!r.checkpointOnly ==> r.point.hash in Store.Hashes(s.tables.raw))
  {
    assert replayed[..|replayed|] == replayed;
    assert InRam(s) == s.buffer.queue;
  }
}
