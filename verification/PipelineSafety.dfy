/** Crash safety of the ingest pipeline: the invariant holds initially, every
    orderly step keeps it, and so it holds after every orderly run. */
module PipelineSafety {
  import opened Ingest
  import opened Buffer
  import opened Spool
  import opened Pipeline
  import Store

  lemma InitInv(cfg: Config)
    ensures Inv(cfg, INIT)
  {
    assert Flatten<Record>([]) == [];
  }

  /* ------------------------------ appending ------------------------------ */

  lemma IssuedBelowNext(s: State)
    requires DiskOk(s) && IssuedOk(s) && SeqFresh(s.spool)
    ensures forall r :: r in s.issued ==> r.seqNo < s.spool.nextSeq
    ensures forall e :: e in s.accepted ==> e.seqNo < s.spool.nextSeq
  {
    forall r | r in s.issued ensures r.seqNo < s.spool.nextSeq {
      if OnDisk(s.spool.dir, r) {
        var k :| k in s.spool.dir && r in s.spool.dir[k];
        assert AllBelow(s.spool.dir[k], s.spool.nextSeq);
      }
    }
    forall e | e in s.accepted ensures e.seqNo < s.spool.nextSeq {
      assert FromIssued(s, e);
    }
  }

  lemma AppendKeepsDisk(cfg: Config, s: State, points: seq<Point>)
    requires DiskOk(s) && IssuedOk(s) && Enabled(cfg, s, Append(points)) && SeqFresh(s.spool)
    ensures DiskOk(Apply(cfg, s, Append(points)))
  {
    AppendAllOrdered(cfg, s.spool, points);
    AppendAllOnDisk(cfg, s.spool, points);
  }

  lemma AppendKeepsIssued(cfg: Config, s: State, points: seq<Point>)
    requires DiskOk(s) && IssuedOk(s) && Enabled(cfg, s, Append(points)) && SeqFresh(s.spool)
    ensures IssuedOk(Apply(cfg, s, Append(points)))
  {
    var s' := Apply(cfg, s, Append(points));
    IssuedBelowNext(s);
    hide AppendAll, DiskOk, SeqFresh, OnDisk;
    forall e | e in s'.accepted ensures FromIssued(s', e) {
      FromIssuedStays(s, s', e);
    }
  }

  lemma WaitingAfterAppend(cfg: Config, s: State, points: seq<Point>)
    requires Enabled(cfg, s, Append(points))
    ensures Waiting(Apply(cfg, s, Append(points))) == Waiting(s) + NewRecords(cfg, s.spool.nextSeq, points)
  {
    FlattenSnoc(s.pending, NewRecords(cfg, s.spool.nextSeq, points));
  }

  lemma WaitingBelowNext(s: State)
    requires DiskOk(s) && IssuedOk(s) && WaitingOk(s) && SeqFresh(s.spool)
    ensures forall r :: r in Waiting(s) ==> r.seqNo < s.spool.nextSeq
  {
    IssuedBelowNext(s);
  }

  lemma AppendKeepsSequence(cfg: Config, s: State, points: seq<Point>)
    requires DiskOk(s) && IssuedOk(s) && InSequence(s) && WaitingOk(s)
    requires Enabled(cfg, s, Append(points)) && SeqFresh(s.spool)
    ensures InSequence(Apply(cfg, s, Append(points)))
  {
    var rs := NewRecords(cfg, s.spool.nextSeq, points);
    var all := s.accepted + Waiting(s);
    assert Increasing(all + rs) by {
      IssuedBelowNext(s);
      WaitingBelowNext(s);
      IncreasingConcat(all, rs, s.spool.nextSeq);
    }
    WaitingAfterAppend(cfg, s, points);
    assert s.accepted + (Waiting(s) + rs) == all + rs;
  }

  lemma AppendKeepsWaiting(cfg: Config, s: State, points: seq<Point>)
    requires WaitingOk(s) && Enabled(cfg, s, Append(points)) && SeqFresh(s.spool)
    ensures WaitingOk(Apply(cfg, s, Append(points)))
  {
    var s' := Apply(cfg, s, Append(points));
    WaitingAfterAppend(cfg, s, points);
    AppendAllOnDisk(cfg, s.spool, points);
    forall r | r in Waiting(s') ensures OnDisk(s'.spool.dir, r) && r.seqNo > LastGood(s'.spool.checkpoint) {
      if r !in Waiting(s) { assert r in NewRecords(cfg, s.spool.nextSeq, points); }
    }
  }

  lemma AppendKeeps(cfg: Config, s: State, points: seq<Point>)
    requires Inv(cfg, s) && Enabled(cfg, s, Append(points)) && SeqFresh(s.spool)
    ensures Inv(cfg, Apply(cfg, s, Append(points)))
  {
    var s' := Apply(cfg, s, Append(points));
    AppendKeepsDisk(cfg, s, points);
    AppendKeepsIssued(cfg, s, points);
    AppendKeepsSequence(cfg, s, points);
    AppendKeepsWaiting(cfg, s, points);
    AppendAllOnDisk(cfg, s.spool, points);
    SafeMonotone(cfg, s, s');
    TablesUnchanged(s, s');
  }

  /* --------------------------- entering the queue ------------------------- */

  /** `batch`, the head of what waits, was let into the queue. */
  ghost predicate Admitted(cfg: Config, s: State, s': State, batch: seq<Record>, ack: bool) {
    && s' == Admit(cfg, s, batch, ack).(recovering := s'.recovering, pending := s'.pending)
    && Waiting(s) == batch + Waiting(s')
    && (s'.pending == [] || s'.recovering == [])
    && (forall r :: r in s.recovering ==> r in s'.recovering || r in batch)
  }

  lemma AdmitKeepsSequence(cfg: Config, s: State, s': State, batch: seq<Record>, ack: bool)
    requires InSequence(s) && Admitted(cfg, s, s', batch, ack)
    ensures InSequence(s')
  {
    FilterShape(cfg, batch, s.buffer.last);
    var out := Filter(cfg, batch, s.buffer.last).out;
    assert s.accepted + (batch + Waiting(s')) == s.accepted + batch + Waiting(s');
    IncreasingSameNumbers(s.accepted + batch + Waiting(s'), s.accepted + out + Waiting(s'));
  }

  lemma WaitingIssued(s: State)
    requires DiskOk(s) && IssuedOk(s) && WaitingOk(s)
    ensures forall r :: r in Waiting(s) ==> r in s.issued && !r.checkpointOnly
  {
  }

  lemma AdmitKeepsDedupe(cfg: Config, s: State, s': State, batch: seq<Record>, ack: bool)
    requires Deduped(cfg, s) && DiskOk(s) && IssuedOk(s) && WaitingOk(s) && Admitted(cfg, s, s', batch, ack)
    ensures Deduped(cfg, s')
  {
    WaitingIssued(s);
    FilterExtendsHistory(cfg, s.accepted, batch);
  }

  lemma AdmitKeepsIssued(cfg: Config, s: State, s': State, batch: seq<Record>, ack: bool)
    requires DiskOk(s) && IssuedOk(s) && WaitingOk(s) && Admitted(cfg, s, s', batch, ack)
    ensures IssuedOk(s')
  {
    WaitingIssued(s);
    FilterShape(cfg, batch, s.buffer.last);
    var out := Filter(cfg, batch, s.buffer.last).out;
    forall e | e in s'.accepted ensures FromIssued(s', e) {
      if e in s.accepted {
        FromIssuedStays(s, s', e);
      } else {
        var i :| 0 <= i < |out| && out[i] == e;
        assert batch[i] in batch;
        assert batch[i] in s'.issued;
      }
    }
  }

  lemma AdmitKeepsSafe(cfg: Config, s: State, s': State, batch: seq<Record>, ack: bool)
    requires Safe(cfg, s) && WaitingOk(s) && Admitted(cfg, s, s', batch, ack)
    ensures Safe(cfg, s')
  {
    forall r | r in s'.acked
      ensures Covered(cfg, s', r) || (r.seqNo > LastGood(s'.spool.checkpoint) && OnDisk(s'.spool.dir, r))
    {
      if r in s.acked {
        if Covered(cfg, s, r) { CoveredMonotone(cfg, s, s', r); }
      } else {
        assert r in Waiting(s);
      }
    }
  }

  lemma AdmitKeepsTracked(cfg: Config, s: State, s': State, batch: seq<Record>, ack: bool)
    requires Tracked(s) && Admitted(cfg, s, s', batch, ack)
    ensures Tracked(s')
  {
    FilterShape(cfg, batch, s.buffer.last);
    var out := Filter(cfg, batch, s.buffer.last).out;
    assert InRam(s') == InRam(s) + out;
    forall r | r in batch ensures r in InRam(s') || Marker(r) in InRam(s') {
      var i :| 0 <= i < |batch| && batch[i] == r;
      assert out[i] in out;
    }
  }

  lemma AdmitKeeps(cfg: Config, s: State, s': State, batch: seq<Record>, ack: bool)
    requires Inv(cfg, s) && s.up && Admitted(cfg, s, s', batch, ack)
    ensures Inv(cfg, s')
  {
    AdmitKeepsSequence(cfg, s, s', batch, ack);
    AdmitKeepsDedupe(cfg, s, s', batch, ack);
    AdmitKeepsIssued(cfg, s, s', batch, ack);
    AdmitKeepsSafe(cfg, s, s', batch, ack);
    AdmitKeepsTracked(cfg, s, s', batch, ack);
    AdmitKeepsRest(cfg, s, s', batch, ack);
    TablesUnchanged(s, s');
  }

  lemma AdmitKeepsRest(cfg: Config, s: State, s': State, batch: seq<Record>, ack: bool)
    requires Conserved(s) && WaitingOk(s) && DiskOk(s) && FlightOk(s) && Admitted(cfg, s, s', batch, ack)
    ensures Conserved(s') && WaitingOk(s') && DiskOk(s') && FlightOk(s')
  {
    var out := Filter(cfg, batch, s.buffer.last).out;
    assert InRam(s') == InRam(s) + out;
    assert s.flushed + InRam(s) + out == s.flushed + InRam(s');
  }

  lemma EnqueueKeeps(cfg: Config, s: State)
    requires Inv(cfg, s) && Enabled(cfg, s, Enqueue(0))
    ensures Inv(cfg, Apply(cfg, s, Enqueue(0)))
  {
    var s' := Apply(cfg, s, Enqueue(0));
    var batch := s.pending[0];
    assert s'.pending == s.pending[1..];
    assert Waiting(s) == batch + Waiting(s');
    if EnqueueDecision(cfg, s.buffer, batch).Accepted? {
      AdmitKeeps(cfg, s, s', batch, true);
    } else {
      assert forall r :: r in Waiting(s') ==> r in Waiting(s);
      DropKeepsSequence(s, s', batch);
      SafeMonotone(cfg, s, s');
      TablesUnchanged(s, s');
      IssuedUnchanged(s, s');
    }
  }

  lemma DropKeepsSequence(s: State, s': State, batch: seq<Record>)
    requires InSequence(s) && s'.accepted == s.accepted && Waiting(s) == batch + Waiting(s')
    ensures InSequence(s')
  {
    var wide, narrow := s.accepted + Waiting(s), s'.accepted + Waiting(s');
    forall i, j | 0 <= i < j < |narrow| ensures narrow[i].seqNo < narrow[j].seqNo {
      var i' := if i < |s.accepted| then i else i + |batch|;
      var j' := if j < |s.accepted| then j else j + |batch|;
      assert narrow[i] == wide[i'] && narrow[j] == wide[j'];
    }
  }

  lemma ReloadKeeps(cfg: Config, s: State, n: nat)
    requires Inv(cfg, s) && Enabled(cfg, s, Reload(n))
    ensures Inv(cfg, Apply(cfg, s, Reload(n)))
  {
    var s' := Apply(cfg, s, Reload(n));
    var batch := s.recovering[..n];
    assert s.recovering == batch + s'.recovering;
    assert Waiting(s) == batch + Waiting(s');
    AdmitKeeps(cfg, s, s', batch, false);
  }

  lemma IssuedUnchanged(s: State, s': State)
    requires IssuedOk(s) && s'.issued == s.issued && s'.acked == s.acked && s'.written == s.written
    requires forall e :: e in s'.accepted ==> e in s.accepted
    ensures IssuedOk(s')
  {
    forall e | e in s'.accepted ensures FromIssued(s', e) {
      FromIssuedStays(s, s', e);
    }
  }

  /* ------------------------- draining and committing ---------------------- */

  /** Records moved between queue and flusher; nothing else happened. */
  ghost predicate Shuffled(s: State, s': State) {
    && s' == s.(flight := s'.flight, buffer := s'.buffer)
    && s'.buffer.last == s.buffer.last
    && InRam(s') == InRam(s)
  }

  lemma ShuffleKeeps(cfg: Config, s: State, s': State)
    requires Inv(cfg, s) && s.up && Shuffled(s, s') && FlightOk(s')
    ensures Inv(cfg, s')
  {
    SafeMonotone(cfg, s, s');
    TablesUnchanged(s, s');
    IssuedUnchanged(s, s');
  }

  lemma BusyMeansUp(s: State)
    requires FlightOk(s) && PhaseOk(s) && !s.flight.Idle?
    ensures s.up
  {
  }

  lemma DrainKeeps(cfg: Config, s: State)
    requires Inv(cfg, s) && Enabled(cfg, s, Drain)
    ensures Inv(cfg, Apply(cfg, s, Drain))
  {
    var s' := Apply(cfg, s, Drain);
    assert InRam(s') == InRam(s);
    ShuffleKeeps(cfg, s, s');
  }

  lemma CommitFailKeeps(cfg: Config, s: State)
    requires Inv(cfg, s) && Enabled(cfg, s, CommitFail)
    ensures Inv(cfg, Apply(cfg, s, CommitFail))
  {
    BusyMeansUp(s);
    var s' := Apply(cfg, s, CommitFail);
    assert InRam(s') == InRam(s);
    ShuffleKeeps(cfg, s, s');
  }

  lemma {:induction false} WritesMembers(rs: seq<Record>)
    ensures forall r :: r in Writes(rs) <==> r in rs && !r.checkpointOnly
  {
    if rs != [] {
      WritesMembers(rs[..|rs| - 1]);
      assert rs == rs[..|rs| - 1] + [rs[|rs| - 1]];
    }
  }

  lemma BatchInAccepted(s: State)
    requires Conserved(s)
    ensures forall r :: r in BatchOf(s.flight) ==> r in s.accepted
  {
    assert forall r :: r in BatchOf(s.flight) ==> r in InRam(s);
  }

  lemma WritesIssued(s: State)
    requires Conserved(s) && IssuedOk(s)
    ensures forall r :: r in Writes(BatchOf(s.flight)) ==> r in s.issued
  {
    WritesMembers(BatchOf(s.flight));
    BatchInAccepted(s);
    forall r | r in Writes(BatchOf(s.flight)) ensures r in s.issued {
      assert FromIssued(s, r);
    }
  }

  lemma CommitKeepsTables(cfg: Config, s: State)
    requires TablesOk(s) && Enabled(cfg, s, CommitOk)
    ensures TablesOk(Apply(cfg, s, CommitOk))
    ensures Store.Hashes(s.tables.raw) <= Store.Hashes(Apply(cfg, s, CommitOk).tables.raw)
  {
    var s' := Apply(cfg, s, CommitOk);
    var ws := Writes(s.flight.batch);
    Store.InsertAllKeeps(s.tables, ws);
    Store.InsertAllEffect(s.tables, ws);
    forall i | 0 <= i < |s'.tables.raw| ensures RowFromWritten(s', s'.tables.raw[i]) {
      var row := s'.tables.raw[i];
      Store.InsertAllRows(s.tables, ws, i);
      if row in s.tables.raw {
        var j :| 0 <= j < |s.tables.raw| && s.tables.raw[j] == row;
        assert RowFromWritten(s, row);
        var w :| w in s.written && w.seqNo == row.seqNo && w.point.hash == row.hash && Store.OwnerOf(w) == row.userId;
        assert w in s'.written;
      } else {
        var r :| r in ws && r.seqNo == row.seqNo && r.point.hash == row.hash && Store.OwnerOf(r) == row.userId;
        assert r in s'.written;
      }
    }
  }

  lemma CommitKeepsIssued(cfg: Config, s: State)
    requires Conserved(s) && IssuedOk(s) && Enabled(cfg, s, CommitOk)
    ensures IssuedOk(Apply(cfg, s, CommitOk))
  {
    var s' := Apply(cfg, s, CommitOk);
    WritesIssued(s);
    forall e | e in s'.accepted ensures FromIssued(s', e) {
      FromIssuedStays(s, s', e);
    }
  }

  lemma FromIssuedStays(s: State, s': State, e: Record)
    requires FromIssued(s, e) && s.issued <= s'.issued
    ensures FromIssued(s', e)
  {
    var r :| r in s.issued && (e == r || e == Marker(r));
    assert r in s'.issued;
  }

  lemma CommitKeepsFlight(cfg: Config, s: State)
    requires FlightOk(s) && Enabled(cfg, s, CommitOk)
    ensures FlightOk(Apply(cfg, s, CommitOk))
  {
    WritesMembers(s.flight.batch);
  }

  lemma CommitOkKeeps(cfg: Config, s: State)
    requires Inv(cfg, s) && Enabled(cfg, s, CommitOk)
    ensures Inv(cfg, Apply(cfg, s, CommitOk))
  {
    CommitKeepsTables(cfg, s);
    CommitKeepsIssued(cfg, s);
    CommitKeepsFlight(cfg, s);
    SafeMonotone(cfg, s, Apply(cfg, s, CommitOk));
  }

  lemma {:induction false} NoConflictAlong(s: State, rs: seq<Record>)
    requires TablesOk(s) && IssuedOk(s)
    requires forall r :: r in rs ==> r in s.issued
    ensures Store.Insertable(s.tables, rs)
  {
    if rs != [] {
      var init, last := rs[..|rs| - 1], rs[|rs| - 1];
      assert last in rs;
      NoConflictAlong(s, init);
      var t := Store.InsertAll(s.tables, init);
      if last.seqNo in Store.SeqNos(t.raw) {
        var i :| 0 <= i < |t.raw| && t.raw[i].seqNo == last.seqNo;
        Store.InsertAllRows(s.tables, init, i);
        if t.raw[i] in s.tables.raw {
          var j :| 0 <= j < |s.tables.raw| && s.tables.raw[j] == t.raw[i];
          assert RowFromWritten(s, s.tables.raw[j]);
        }
        assert t.raw[i].hash == last.point.hash;
      }
    }
  }

  /** The uniqueness of `raw_points.seq` never stands in the way: whatever batch
      the flusher holds, the database can take it. */
  lemma BatchIsInsertable(cfg: Config, s: State)
    requires Inv(cfg, s) && s.flight.Drained?
    ensures Enabled(cfg, s, CommitOk)
  {
    WritesIssued(s);
    NoConflictAlong(s, Writes(s.flight.batch));
  }

  /* ---------------------------- the checkpoint ---------------------------- */

  /** In an increasing list, the elements up to position `cut` are those up to its
      last one. */
  lemma IncreasingCut(all: seq<Record>, cut: nat)
    requires Increasing(all) && 0 < cut <= |all|
    ensures forall i :: 0 <= i < |all| ==> (all[i].seqNo <= all[cut - 1].seqNo <==> i < cut)
  {
  }

  lemma BatchMaximum(s: State)
    requires Conserved(s) && InSequence(s) && FlightOk(s) && s.flight.Committed?
    ensures s.accepted == s.flushed + s.flight.batch + s.buffer.queue
    ensures s.flight.maxSeq == s.flight.batch[|s.flight.batch| - 1].seqNo
  {
    var batch, n := s.flight.batch, |s.flushed|;
    assert s.accepted == s.flushed + batch + s.buffer.queue;
    AcceptedIncreasing(s);
    assert batch == s.accepted[n..n + |batch|];
    assert Increasing(batch);
    MaxSeqNoOfIncreasing(batch);
  }

  /** Where the batch ends, `accepted` reaches the batch's maximum. */
  lemma BatchBoundary(cfg: Config, s: State) returns (cut: nat)
    requires Conserved(s) && InSequence(s) && FlightOk(s) && s.flight.Committed?
    ensures 0 < cut <= |s.accepted|
    ensures s.accepted[..cut] == s.flushed + s.flight.batch
    ensures forall i :: 0 <= i < |s.accepted| ==> (s.accepted[i].seqNo <= s.flight.maxSeq <==> i < cut)
    ensures forall r :: r in Waiting(s) ==> r.seqNo > s.flight.maxSeq
  {
    BatchMaximum(s);
    cut := |s.flushed| + |s.flight.batch|;
    var all := s.accepted + Waiting(s);
    assert all[cut - 1] == s.flight.batch[|s.flight.batch| - 1];
    IncreasingCut(all, cut);
    assert forall i :: 0 <= i < |s.accepted| ==> s.accepted[i] == all[i];
    forall r | r in Waiting(s) ensures r.seqNo > s.flight.maxSeq {
      var j :| 0 <= j < |Waiting(s)| && Waiting(s)[j] == r;
      assert all[|s.accepted| + j] == r;
    }
  }

  /** An acknowledged record between the checkpoint and the batch's maximum sits,
      itself or as a marker, in what this life has committed. */
  lemma AckedPosition(cfg: Config, s: State, r: Record, cut: nat) returns (p: nat)
    requires Tracked(s) && Conserved(s) && s.up && s.flight.Committed?
    requires r in s.acked && LastGood(s.spool.checkpoint) < r.seqNo <= s.flight.maxSeq
    requires cut <= |s.accepted|
    requires forall i :: 0 <= i < |s.accepted| ==> (s.accepted[i].seqNo <= s.flight.maxSeq <==> i < cut)
    requires forall x :: x in Waiting(s) ==> x.seqNo > s.flight.maxSeq
    ensures p < cut && (s.accepted[p] == r || s.accepted[p] == Marker(r))
  {
    assert r !in s.recovering by { assert r in s.recovering ==> r in Waiting(s); }
    var e := if r in InRam(s) then r else Marker(r);
    assert e in InRam(s) && e in s.accepted;
    p :| 0 <= p < |s.accepted| && s.accepted[p] == e;
  }

  lemma CoveredAt(cfg: Config, s: State, r: Record, cut: nat, p: nat)
    requires Deduped(cfg, s) && InSequence(s) && TablesOk(s) && FlightOk(s) && s.flight.Committed?
    requires p < cut <= |s.accepted| && s.accepted[..cut] == s.flushed + s.flight.batch
    requires !r.checkpointOnly && (s.accepted[p] == r || s.accepted[p] == Marker(r))
    ensures Covered(cfg, s, r)
  {
    KeptIsWritten(s, cut, p);
    if s.accepted[p] != r {
      AcceptedIncreasing(s);
      var k := MarkerHasWitness(cfg, s.accepted, p);
      KeptIsWritten(s, cut, k);
      assert Suppresses(cfg, s.accepted[k], r);
    }
  }

  /** Once its batch is committed, an acknowledged record up to the batch's
      maximum is durable: this is what allows the checkpoint to pass it. */
  lemma CommittedIsCovered(cfg: Config, s: State, r: Record)
    requires Inv(cfg, s) && s.flight.Committed? && r in s.acked && r.seqNo <= s.flight.maxSeq
    ensures Covered(cfg, s, r)
  {
    BusyMeansUp(s);
    if r.seqNo > LastGood(s.spool.checkpoint) {
      var cut := BatchBoundary(cfg, s);
      var p := AckedPosition(cfg, s, r, cut);
      CoveredAt(cfg, s, r, cut, p);
    }
  }

  lemma AcceptedIncreasing(s: State)
    requires InSequence(s)
    ensures Increasing(s.accepted)
  {
    var all := s.accepted + Waiting(s);
    assert forall i :: 0 <= i < |s.accepted| ==> s.accepted[i] == all[i];
  }

  lemma KeptIsWritten(s: State, cut: nat, p: nat)
    requires FlightOk(s) && s.flight.Committed? && p < cut <= |s.accepted|
    requires s.accepted[..cut] == s.flushed + s.flight.batch
    ensures !s.accepted[p].checkpointOnly ==> s.accepted[p] in s.written
  {
    assert s.accepted[p] == s.accepted[..cut][p];
    assert s.accepted[p] in s.flushed + s.flight.batch;
  }

  /** The checkpoint moved up to the committed batch's maximum. */
  lemma AdvanceKeepsSafe(cfg: Config, s: State, s': State)
    requires Inv(cfg, s) && s.flight.Committed?
    requires s'.acked == s.acked && s'.written == s.written && s'.tables == s.tables
    requires s'.spool.dir == s.spool.dir
    requires LastGood(s'.spool.checkpoint) <= LastGood(s.spool.checkpoint)
          || LastGood(s'.spool.checkpoint) == s.flight.maxSeq
    ensures Safe(cfg, s')
  {
    forall r | r in s'.acked
      ensures Covered(cfg, s', r) || (r.seqNo > LastGood(s'.spool.checkpoint) && OnDisk(s'.spool.dir, r))
    {
      if r.seqNo <= s.flight.maxSeq { CommittedIsCovered(cfg, s, r); }
      if Covered(cfg, s, r) { CoveredMonotone(cfg, s, s', r); }
    }
  }

  lemma CheckpointOkKeeps(cfg: Config, s: State)
    requires Inv(cfg, s) && Enabled(cfg, s, CheckpointOk)
    ensures Inv(cfg, Apply(cfg, s, CheckpointOk))
  {
    var s' := Apply(cfg, s, CheckpointOk);
    BusyMeansUp(s);
    AdvanceKeepsSafe(cfg, s, s');
    TablesUnchanged(s, s');
    IssuedUnchanged(s, s');
    CheckpointOkTracks(cfg, s);
    CheckpointOkFlushes(cfg, s);
    AdvanceKeepsWaiting(cfg, s, s');
  }

  lemma CheckpointOkFlushes(cfg: Config, s: State)
    requires Conserved(s) && FlightOk(s) && Enabled(cfg, s, CheckpointOk)
    ensures Conserved(Apply(cfg, s, CheckpointOk)) && FlightOk(Apply(cfg, s, CheckpointOk))
  {
    assert s.flushed + (s.flight.batch + s.buffer.queue) == s.flushed + s.flight.batch + ([] + s.buffer.queue);
    MaxSeqNoBounds(s.flight.batch);
  }

  lemma CheckpointOkTracks(cfg: Config, s: State)
    requires Inv(cfg, s) && Enabled(cfg, s, CheckpointOk)
    ensures Tracked(Apply(cfg, s, CheckpointOk))
  {
    var s' := Apply(cfg, s, CheckpointOk);
    MaxSeqNoBounds(s.flight.batch);
    assert InRam(s') == s.buffer.queue;
    forall r | r in s'.acked && r.seqNo > LastGood(s'.spool.checkpoint)
      ensures r in InRam(s') || Marker(r) in InRam(s') || r in s'.recovering
    {
      assert r !in s.flight.batch && Marker(r) !in s.flight.batch;
    }
  }

  lemma AdvanceKeepsWaiting(cfg: Config, s: State, s': State)
    requires Inv(cfg, s) && s.flight.Committed?
    requires s'.spool.dir == s.spool.dir && Waiting(s') == Waiting(s)
    requires LastGood(s'.spool.checkpoint) <= LastGood(s.spool.checkpoint)
          || LastGood(s'.spool.checkpoint) == s.flight.maxSeq
    ensures WaitingOk(s')
  {
    var cut := BatchBoundary(cfg, s);
  }

  lemma CheckpointFailKeepsRest(cfg: Config, s: State, residue: Residue)
    requires Inv(cfg, s) && Enabled(cfg, s, CheckpointFail(residue))
    ensures var s' := Apply(cfg, s, CheckpointFail(residue));
      Conserved(s') && InSequence(s') && Deduped(cfg, s') && DiskOk(s') && FlightOk(s') && Tracked(s') && PhaseOk(s')
  {
    var s' := Apply(cfg, s, CheckpointFail(residue));
    BusyMeansUp(s);
    assert InRam(s') == InRam(s);
  }

  lemma CheckpointFailKeeps(cfg: Config, s: State, residue: Residue)
    requires Inv(cfg, s) && Enabled(cfg, s, CheckpointFail(residue))
    ensures Inv(cfg, Apply(cfg, s, CheckpointFail(residue)))
  {
    var s' := Apply(cfg, s, CheckpointFail(residue));
    CheckpointFailKeepsRest(cfg, s, residue);
    AdvanceKeepsSafe(cfg, s, s');
    AdvanceKeepsWaiting(cfg, s, s');
    TablesUnchanged(s, s');
    IssuedUnchanged(s, s');
  }

  /* ----------------------- compaction, crash, restart --------------------- */

  lemma CompactKeeps(cfg: Config, s: State, bound: nat)
    requires Inv(cfg, s) && Enabled(cfg, s, Compact(bound))
    ensures Inv(cfg, Apply(cfg, s, Compact(bound)))
  {
    var s' := Apply(cfg, s, Compact(bound));
    CompactionKeepsOrder(s.spool, bound);
    CompactionOnlyRemoves(s.spool, bound);
    forall r: Record | OnDisk(s.spool.dir, r) && r.seqNo > LastGood(s.spool.checkpoint)
      ensures OnDisk(s'.spool.dir, r)
    {
      CompactionKeepsUncommitted(s.spool, bound, r);
    }
    SafeMonotone(cfg, s, s');
    TablesUnchanged(s, s');
    IssuedUnchanged(s, s');
  }

  lemma CrashKeeps(cfg: Config, s: State)
    requires Inv(cfg, s) && Enabled(cfg, s, Crash)
    ensures Inv(cfg, Apply(cfg, s, Crash))
  {
    var s' := Apply(cfg, s, Crash);
    SafeMonotone(cfg, s, s');
    TablesUnchanged(s, s');
    IssuedUnchanged(s, s');
    assert Waiting(s') == [];
  }

  lemma RestartKeepsSequence(cfg: Config, s: State, first: nat)
    requires SpoolOk(s.spool) && PhaseOk(s) && Conserved(s) && Enabled(cfg, s, Restart(first))
    ensures InSequence(Apply(cfg, s, Restart(first))) && WaitingOk(Apply(cfg, s, Restart(first)))
  {
    var s' := Apply(cfg, s, Restart(first));
    var c := LastGood(s.spool.checkpoint);
    ReplayIncreasing(s.spool.dir, c);
    ReplayMembers(s.spool.dir, c);
    assert s.accepted == [];
    assert Waiting(s') == s'.recovering;
    assert s'.accepted + Waiting(s') == s'.recovering;
  }

  lemma RestartKeepsTracked(cfg: Config, s: State, first: nat)
    requires DiskOk(s) && IssuedOk(s) && Enabled(cfg, s, Restart(first))
    ensures Tracked(Apply(cfg, s, Restart(first)))
  {
    ReplayMembers(s.spool.dir, LastGood(s.spool.checkpoint));
  }

  lemma RestartKeeps(cfg: Config, s: State, first: nat)
    requires Inv(cfg, s) && Enabled(cfg, s, Restart(first))
    ensures Inv(cfg, Apply(cfg, s, Restart(first)))
  {
    var s' := Apply(cfg, s, Restart(first));
    RestartKeepsSequence(cfg, s, first);
    RestartKeepsTracked(cfg, s, first);
    SafeMonotone(cfg, s, s');
    TablesUnchanged(s, s');
    IssuedUnchanged(s, s');
  }

  /* -------------------------------- theorems ------------------------------ */

  lemma StepKeeps(cfg: Config, s: State, step: Step)
    requires Inv(cfg, s) && Enabled(cfg, s, step) && Orderly(s, step)
    ensures Inv(cfg, Apply(cfg, s, step))
  {
    match step
    case Append(points) => AppendKeeps(cfg, s, points);
    case Enqueue(i) => EnqueueKeeps(cfg, s);
    case Drain => DrainKeeps(cfg, s);
    case CommitOk => CommitOkKeeps(cfg, s);
    case CommitFail => CommitFailKeeps(cfg, s);
    case CheckpointOk => CheckpointOkKeeps(cfg, s);
    case CheckpointFail(residue) => CheckpointFailKeeps(cfg, s, residue);
    case Compact(bound) => CompactKeeps(cfg, s, bound);
    case Crash => CrashKeeps(cfg, s);
    case Restart(first) => RestartKeeps(cfg, s, first);
    case Reload(n) => ReloadKeeps(cfg, s, n);
  }

  lemma {:induction false} RunKeeps(cfg: Config, s: State, steps: seq<Step>)
    requires Inv(cfg, s) && OrderlyRun(cfg, s, steps)
    ensures Exec(cfg, s, steps).Some? && Inv(cfg, Exec(cfg, s, steps).value)
    decreases |steps|
  {
    if steps != [] {
      StepKeeps(cfg, s, steps[0]);
      RunKeeps(cfg, Apply(cfg, s, steps[0]), steps[1..]);
    }
  }

  lemma RunIsInv(cfg: Config, steps: seq<Step>)
    requires OrderlyRun(cfg, INIT, steps)
    ensures Exec(cfg, INIT, steps).Some? && Inv(cfg, Exec(cfg, INIT, steps).value)
  {
    InitInv(cfg);
    RunKeeps(cfg, INIT, steps);
  }

  /** Crash safety. After any orderly interleaving of handlers, flusher, faults,
      crashes and restarts: an acknowledged record above the checkpoint is on disk,
      and in the next replay unless the checkpoint file is torn, when there is no
      next replay; one at or below it is in the database, or an earlier retained
      near duplicate of it is; and no ingest hash has two rows. */
  lemma CrashSafety(cfg: Config, steps: seq<Step>)
    requires OrderlyRun(cfg, INIT, steps)
    ensures Exec(cfg, INIT, steps).Some?
    ensures var s := Exec(cfg, INIT, steps).value; var c := LastGood(s.spool.checkpoint);
      && (forall r :: r in s.acked && r.seqNo > c ==> OnDisk(s.spool.dir, r))
      && (match NextReplay(s.spool)
          case Some(rs) => forall r :: r in s.acked && r.seqNo > c ==> r in rs
          case None => s.spool.checkpoint.Torn?)
      && (forall r :: r in s.acked && r.seqNo <= c ==> Covered(cfg, s, r))
      && Store.Consistent(s.tables)
  {
    InitInv(cfg);
    RunKeeps(cfg, INIT, steps);
    var s := Exec(cfg, INIT, steps).value;
    ReplayMembers(s.spool.dir, LastGood(s.spool.checkpoint));
  }

  /** A drained process is a durable one: when nothing is queued, in flight or
      waiting, every acknowledged record is in the database or suppressed by one
      that is, and the whole spool is behind the checkpoint. */
  lemma QuietMeansDurable(cfg: Config, steps: seq<Step>)
    requires OrderlyRun(cfg, INIT, steps)
    requires Exec(cfg, INIT, steps).Some?
    requires var s := Exec(cfg, INIT, steps).value;
      s.up && InRam(s) == [] && s.recovering == []
    ensures var s := Exec(cfg, INIT, steps).value;
      forall r :: r in s.acked ==> Covered(cfg, s, r) && r.seqNo <= LastGood(s.spool.checkpoint)
  {
    InitInv(cfg);
    RunKeeps(cfg, INIT, steps);
    var s := Exec(cfg, INIT, steps).value;
    forall r | r in s.acked ensures r.seqNo <= LastGood(s.spool.checkpoint) {
    }
  }

  /* --------------------------- a single process life ---------------------- */

  lemma FreshStep(cfg: Config, s: State, step: Step)
    requires Inv(cfg, s) && SeqFresh(s.spool) && Enabled(cfg, s, step) && !step.Restart?
    ensures SeqFresh(Apply(cfg, s, step).spool)
  {
    match step
    case Append(points) => AppendAllOrdered(cfg, s.spool, points);
    case CheckpointOk => MaxSeqBelowNext(cfg, s);
    case CheckpointFail(_) => MaxSeqBelowNext(cfg, s);
    case Enqueue(_) =>
    case Drain =>
    case CommitOk =>
    case CommitFail =>
    case Compact(_) =>
    case Crash =>
    case Reload(_) =>
  }

  lemma MaxSeqBelowNext(cfg: Config, s: State)
    requires Inv(cfg, s) && SeqFresh(s.spool) && s.flight.Committed?
    ensures s.flight.maxSeq < s.spool.nextSeq
  {
    IssuedBelowNext(s);
    BatchInAccepted(s);
    MaxSeqNoBounds(s.flight.batch);
  }

  /** No request is appended once some process has been restarted. */
  ghost predicate NoAppendAfterRestart(steps: seq<Step>) {
    forall i, j :: 0 <= i < j < |steps| && steps[i].Restart? ==> !steps[j].Append?
  }

  ghost predicate EnqueuesInOrder(steps: seq<Step>) {
    forall k :: 0 <= k < |steps| && steps[k].Enqueue? ==> steps[k].i == 0
  }

  lemma {:induction false} OneLifeIsOrderly(cfg: Config, s: State, steps: seq<Step>)
    requires Inv(cfg, s) && Exec(cfg, s, steps).Some? && EnqueuesInOrder(steps)
    requires NoAppendAfterRestart(steps)
    requires SeqFresh(s.spool) || forall k :: 0 <= k < |steps| ==> !steps[k].Append?
    ensures OrderlyRun(cfg, s, steps)
    decreases |steps|
  {
    if steps != [] {
      var s', rest := Apply(cfg, s, steps[0]), steps[1..];
      assert forall k :: 0 <= k < |rest| ==> rest[k] == steps[k + 1];
      StepKeeps(cfg, s, steps[0]);
      if SeqFresh(s.spool) && !steps[0].Restart? {
        FreshStep(cfg, s, steps[0]);
      }
      OneLifeIsOrderly(cfg, s', rest);
    }
  }

  /** For one process life, however it is cut short, followed by any number of
      recoveries (themselves cut short anywhere), sequence numbers need no
      assumption: every such run is orderly, hence crash safe. */
  lemma OneLifeCrashSafety(cfg: Config, steps: seq<Step>)
    requires Exec(cfg, INIT, steps).Some? && EnqueuesInOrder(steps) && NoAppendAfterRestart(steps)
    ensures OrderlyRun(cfg, INIT, steps)
    ensures Safe(cfg, Exec(cfg, INIT, steps).value)
  {
    InitInv(cfg);
    OneLifeIsOrderly(cfg, INIT, steps);
    RunKeeps(cfg, INIT, steps);
  }

  /* ------------------------------ several lives --------------------------- */

  /** Each new process numbers its records above the checkpoint and above everything
      on disk, and handlers enqueue in the order they appended. */
  ghost predicate FreshLives(cfg: Config, s: State, steps: seq<Step>)
    decreases |steps|
  {
    steps == [] ||
    (&& Enabled(cfg, s, steps[0])
     && (steps[0].Restart? ==> SeqFresh(Apply(cfg, s, steps[0]).spool))
     && (steps[0].Enqueue? ==> steps[0].i == 0)
     && FreshLives(cfg, Apply(cfg, s, steps[0]), steps[1..]))
  }

  lemma {:induction false} FreshLivesAreOrderly(cfg: Config, s: State, steps: seq<Step>)
    requires Inv(cfg, s) && SeqFresh(s.spool) && FreshLives(cfg, s, steps)
    ensures OrderlyRun(cfg, s, steps)
    decreases |steps|
  {
    if steps != [] {
      StepKeeps(cfg, s, steps[0]);
      if !steps[0].Restart? { FreshStep(cfg, s, steps[0]); }
      FreshLivesAreOrderly(cfg, Apply(cfg, s, steps[0]), steps[1..]);
    }
  }

  /** Any number of lives, each ingesting as it likes: it is enough that every
      restart resumes the numbering above the checkpoint and the disk. */
  lemma LivesCrashSafety(cfg: Config, steps: seq<Step>)
    requires FreshLives(cfg, INIT, steps)
    ensures OrderlyRun(cfg, INIT, steps) && Exec(cfg, INIT, steps).Some?
    ensures Safe(cfg, Exec(cfg, INIT, steps).value)
  {
    InitInv(cfg);
    FreshLivesAreOrderly(cfg, INIT, steps);
    RunKeeps(cfg, INIT, steps);
  }

  /* ------------------------------ common parts ---------------------------- */

  /** Safety survives any step that keeps the checkpoint and only adds to the
      disk, the tables and the set of written records. */
  lemma SafeMonotone(cfg: Config, s: State, s': State)
    requires Safe(cfg, s) && s'.acked == s.acked
    requires LastGood(s'.spool.checkpoint) == LastGood(s.spool.checkpoint)
    requires forall r: Record ::
      OnDisk(s.spool.dir, r) && r.seqNo > LastGood(s.spool.checkpoint) ==> OnDisk(s'.spool.dir, r)
    requires s.written <= s'.written && Store.Hashes(s.tables.raw) <= Store.Hashes(s'.tables.raw)
    ensures Safe(cfg, s')
  {
    forall r | r in s.acked && Covered(cfg, s, r) ensures Covered(cfg, s', r) {
      CoveredMonotone(cfg, s, s', r);
    }
  }

  lemma CoveredMonotone(cfg: Config, s: State, s': State, r: Record)
    requires Covered(cfg, s, r)
    requires s.written <= s'.written && Store.Hashes(s.tables.raw) <= Store.Hashes(s'.tables.raw)
    ensures Covered(cfg, s', r)
  {
    if r.point.hash !in Store.Hashes(s.tables.raw) {
      var w :| w in s.written && Suppresses(cfg, w, r) && w.point.hash in Store.Hashes(s.tables.raw);
      assert w in s'.written;
    }
  }

  lemma TablesUnchanged(s: State, s': State)
    requires TablesOk(s) && s'.tables == s.tables && s'.written == s.written
    ensures TablesOk(s')
  {
    forall i | 0 <= i < |s.tables.raw| ensures RowFromWritten(s', s.tables.raw[i]) {
      assert RowFromWritten(s, s.tables.raw[i]);
    }
  }
}
