/** Where the rows of the database come from: in every run, orderly or not, each row
    carries the values of a point some request sent. */
module Provenance {
  import opened Ingest
  import opened Buffer
  import opened Spool
  import opened Pipeline
  import opened PipelineBounds
  import opened PipelineSafety
  import opened PipelineExact
  import Store

  /** Some request of the run contained the point. */
  ghost predicate Sent(steps: seq<Step>, p: Point) {
    exists k :: 0 <= k < |steps| && steps[k].Append? && p in steps[k].points
  }

  /** The record of a point: it keeps all of the point, and gives it an identity if it
      came without one. */
  function Carrier(cfg: Config, n: nat, p: Point): Record {
    Record(n, p.deviceId, p.(hash := if p.hash != "" then p.hash else cfg.hashOf(p)), false)
  }

  ghost predicate Carries(cfg: Config, sent: set<Point>, r: Record) {
    exists p :: p in sent && r == Carrier(cfg, r.seqNo, p)
  }

  /** Row `i` of the tables was made for a written record. */
  ghost predicate RowWritten(s: State, i: nat) {
    exists w :: w in s.written && Store.StoredAt(s.tables, i, w)
  }

  ghost predicate AllIssued(s: State, rs: seq<Record>) {
    forall r :: r in rs ==> r in s.issued
  }

  ghost predicate RecordsTraced(cfg: Config, sent: set<Point>, s: State) {
    && (forall r :: r in s.issued ==> Carries(cfg, sent, r))
    && (forall r :: OnDisk(s.spool.dir, r) ==> r in s.issued)
    && AllIssued(s, s.recovering) && (forall i :: 0 <= i < |s.pending| ==> AllIssued(s, s.pending[i]))
    && (forall e :: e in s.accepted ==> FromIssued(s, e))
    && s.written <= s.issued && s.acked <= s.issued
  }

  ghost predicate RowsTraced(s: State) {
    |s.tables.points| == |s.tables.raw| && forall i :: 0 <= i < |s.tables.raw| ==> RowWritten(s, i)
  }

  lemma NewRecordsCarry(cfg: Config, sent: set<Point>, n: nat, points: seq<Point>)
    requires forall p :: p in points ==> p in sent
    ensures forall r :: r in NewRecords(cfg, n, points) ==> Carries(cfg, sent, r)
  {
    var rs := NewRecords(cfg, n, points);
    forall r | r in rs ensures Carries(cfg, sent, r) {
      var i :| 0 <= i < |rs| && rs[i] == r;
      assert points[i] in points;
      assert r == Carrier(cfg, r.seqNo, points[i]);
    }
  }

  lemma AppendTraces(cfg: Config, sent: set<Point>, s: State, points: seq<Point>)
    requires RecordsTraced(cfg, sent, s) && Enabled(cfg, s, Append(points))
    requires forall p :: p in points ==> p in sent
    ensures RecordsTraced(cfg, sent, Apply(cfg, s, Append(points)))
  {
    var s', rs := Apply(cfg, s, Append(points)), NewRecords(cfg, s.spool.nextSeq, points);
    AppendAllOnDisk(cfg, s.spool, points);
    NewRecordsCarry(cfg, sent, s.spool.nextSeq, points);
    hide AppendAll, OnDisk, NewRecords, Carries;
    assert forall i :: 0 <= i < |s'.pending| ==> s'.pending[i] in s.pending || s'.pending[i] == rs;
    forall e | e in s'.accepted ensures FromIssued(s', e) {
      FromIssuedStays(s, s', e);
    }
  }

  lemma AdmitTraces(cfg: Config, s: State, s': State, batch: seq<Record>)
    requires AllIssued(s, batch) && (forall e :: e in s.accepted ==> FromIssued(s, e))
    requires s'.issued == s.issued && s'.accepted == s.accepted + Filter(cfg, batch, s.buffer.last).out
    ensures forall e :: e in s'.accepted ==> FromIssued(s', e)
  {
    FilterShape(cfg, batch, s.buffer.last);
    var out := Filter(cfg, batch, s.buffer.last).out;
    forall e | e in s'.accepted ensures FromIssued(s', e) {
      if e in s.accepted {
        FromIssuedStays(s, s', e);
      } else {
        var i :| 0 <= i < |out| && out[i] == e;
        assert batch[i] in batch;
      }
    }
  }

  lemma WritesAreIssued(s: State)
    requires Conserved(s) && s.flight.Drained? && forall e :: e in s.accepted ==> FromIssued(s, e)
    ensures AllIssued(s, Writes(s.flight.batch))
  {
    WritesMembers(s.flight.batch);
    BatchInAccepted(s);
    forall r | r in Writes(s.flight.batch) ensures r in s.issued {
      assert FromIssued(s, r);
    }
  }

  lemma WrittenTraces(cfg: Config, sent: set<Point>, s: State, s': State, ws: seq<Record>)
    requires RecordsTraced(cfg, sent, s) && AllIssued(s, ws)
    requires s' == s.(written := s.written + Members(ws), flight := s'.flight, tables := s'.tables)
    ensures RecordsTraced(cfg, sent, s')
  {
    hide Carries, OnDisk;
    forall e | e in s'.accepted ensures FromIssued(s', e) {
      FromIssuedStays(s, s', e);
    }
  }

  lemma CommitTraces(cfg: Config, sent: set<Point>, s: State)
    requires RecordsTraced(cfg, sent, s) && Conserved(s) && Enabled(cfg, s, CommitOk)
    ensures RecordsTraced(cfg, sent, Apply(cfg, s, CommitOk))
  {
    WritesAreIssued(s);
    hide RecordsTraced, AllIssued, Writes, Members, Store.InsertAll, Store.Insertable;
    WrittenTraces(cfg, sent, s, Apply(cfg, s, CommitOk), Writes(s.flight.batch));
  }

  /** Nothing but the named fields differs from `s`. */
  lemma UntouchedTraces(cfg: Config, sent: set<Point>, s: State, s': State)
    requires RecordsTraced(cfg, sent, s) && s'.issued == s.issued && s'.written == s.written && s'.acked == s.acked
    requires s'.recovering == s.recovering || s'.recovering == []
    requires s'.pending == s.pending || s'.pending == []
    requires s'.accepted == s.accepted || s'.accepted == []
    requires forall r :: OnDisk(s'.spool.dir, r) ==> OnDisk(s.spool.dir, r)
    ensures RecordsTraced(cfg, sent, s')
  {
    hide Carries, OnDisk;
    forall e | e in s'.accepted ensures FromIssued(s', e) {
      FromIssuedStays(s, s', e);
    }
  }

  lemma StepTracesRecords(cfg: Config, sent: set<Point>, s: State, step: Step)
    requires RecordsTraced(cfg, sent, s) && Conserved(s) && Enabled(cfg, s, step)
    requires step.Append? ==> forall p :: p in step.points ==> p in sent
    ensures RecordsTraced(cfg, sent, Apply(cfg, s, step))
  {
    var s' := Apply(cfg, s, step);
    hide Carries;
    match step
    case Append(points) => AppendTraces(cfg, sent, s, points);
    case CommitOk => CommitTraces(cfg, sent, s);
    case Enqueue(i) => EnqueueTraces(cfg, sent, s, i);
    case Reload(n) => ReloadTraces(cfg, sent, s, n);
    case Restart(first) => RestartTraces(cfg, sent, s, first);
    case Compact(bound) =>
      CompactionOnlyRemoves(s.spool, bound);
      UntouchedTraces(cfg, sent, s, s');
    case _ => UntouchedTraces(cfg, sent, s, s');
  }

  lemma EnqueueTraces(cfg: Config, sent: set<Point>, s: State, i: nat)
    requires RecordsTraced(cfg, sent, s) && Enabled(cfg, s, Enqueue(i))
    ensures RecordsTraced(cfg, sent, Apply(cfg, s, Enqueue(i)))
  {
    var s' := Apply(cfg, s, Enqueue(i));
    hide Carries, OnDisk, EnqueueDecision, Enqueued, Filter;
    assert forall k :: 0 <= k < |s'.pending| ==> s'.pending[k] in s.pending;
    if EnqueueDecision(cfg, s.buffer, s.pending[i]).Accepted? {
      AdmitTraces(cfg, s, s', s.pending[i]);
    } else {
      forall e | e in s'.accepted ensures FromIssued(s', e) { FromIssuedStays(s, s', e); }
    }
  }

  lemma ReloadTraces(cfg: Config, sent: set<Point>, s: State, n: nat)
    requires RecordsTraced(cfg, sent, s) && Enabled(cfg, s, Reload(n))
    ensures RecordsTraced(cfg, sent, Apply(cfg, s, Reload(n)))
  {
    var s' := Apply(cfg, s, Reload(n));
    hide Carries, OnDisk, EnqueueDecision, Enqueued, Filter;
    AdmitTraces(cfg, s, s', s.recovering[..n]);
  }

  lemma RestartTraces(cfg: Config, sent: set<Point>, s: State, first: nat)
    requires RecordsTraced(cfg, sent, s) && Enabled(cfg, s, Restart(first))
    ensures RecordsTraced(cfg, sent, Apply(cfg, s, Restart(first)))
  {
    var s' := Apply(cfg, s, Restart(first));
    hide Carries, OnDisk, Replay;
    ReplayMembers(s.spool.dir, LastGood(s.spool.checkpoint));
    forall e | e in s'.accepted ensures FromIssued(s', e) { FromIssuedStays(s, s', e); }
  }

  /** Rows are kept, and new ones come from what is newly written. */
  lemma RowsStay(s: State, s': State, ws: seq<Record>)
    requires RowsTraced(s) && s.written + Members(ws) <= s'.written
    requires Store.Extends(s.tables, s'.tables) && |s'.tables.points| == |s'.tables.raw|
    requires forall i :: |s.tables.raw| <= i < |s'.tables.raw| ==> Store.StoredFrom(s'.tables, i, ws)
    ensures RowsTraced(s')
  {
    hide Store.StoredAt, Store.Extends;
    forall i | 0 <= i < |s'.tables.raw| ensures RowWritten(s', i) {
      if i < |s.tables.raw| {
        assert RowWritten(s, i);
        var w :| w in s.written && Store.StoredAt(s.tables, i, w);
        Store.StoredStays(s.tables, s'.tables, i, w);
      } else {
        assert Store.StoredFrom(s'.tables, i, ws);
        var w :| w in ws && Store.StoredAt(s'.tables, i, w);
        assert w in Members(ws);
      }
    }
  }

  lemma StepTracesRows(cfg: Config, s: State, step: Step)
    requires RowsTraced(s) && Enabled(cfg, s, step)
    ensures RowsTraced(Apply(cfg, s, step))
  {
    var s' := Apply(cfg, s, step);
    hide Store.StoredAt, Store.InsertAll, Store.Insertable, Store.Extends, Store.StoredFrom, RowsTraced;
    if step.CommitOk? {
      var ws := Writes(s.flight.batch);
      assert |s.tables.points| == |s.tables.raw| by { TracedLengths(s); }
      Store.InsertAllStores(s.tables, ws);
      Store.InsertAllExtends(s.tables, ws);
      RowsStay(s, s', ws);
    } else {
      SameRows(s, s');
    }
  }

  lemma TracedLengths(s: State)
    requires RowsTraced(s)
    ensures |s.tables.points| == |s.tables.raw|
  {
  }

  lemma SameRows(s: State, s': State)
    requires RowsTraced(s) && s'.tables == s.tables && s'.written == s.written
    ensures RowsTraced(s')
  {
    hide Store.StoredAt;
    forall i | 0 <= i < |s'.tables.raw| ensures RowWritten(s', i) {
      assert RowWritten(s, i);
    }
  }

  lemma {:induction false} RunTraces(cfg: Config, sent: set<Point>, s: State, steps: seq<Step>)
    requires RecordsTraced(cfg, sent, s) && RowsTraced(s) && Conserved(s) && Exec(cfg, s, steps).Some?
    requires forall p :: Sent(steps, p) ==> p in sent
    ensures var s' := Exec(cfg, s, steps).value; RecordsTraced(cfg, sent, s') && RowsTraced(s')
    decreases |steps|
  {
    hide RecordsTraced, RowsTraced, Conserved, Apply, Enabled;
    if steps != [] {
      var step, rest := steps[0], steps[1..];
      if step.Append? {
        forall p | p in step.points ensures p in sent { assert Sent(steps, p); }
      }
      forall p | Sent(rest, p) ensures p in sent {
        var k :| 0 <= k < |rest| && rest[k].Append? && p in rest[k].points;
        assert steps[k + 1] == rest[k];
      }
      StepTracesRecords(cfg, sent, s, step);
      StepTracesRows(cfg, s, step);
      StepConserves(cfg, s, step);
      RunTraces(cfg, sent, Apply(cfg, s, step), rest);
    }
  }

  function PointsOf(steps: seq<Step>): set<Point> {
    set k, p | 0 <= k < |steps| && steps[k].Append? && p in steps[k].points :: p
  }

  /** In every run each row of `raw_points`, and the row of `points` derived from it,
      carries the values of a point that some request of the run sent, under its
      sender's user and device and its own identity. */
  lemma RowsComeFromRequests(cfg: Config, steps: seq<Step>, i: nat) returns (n: nat, p: Point)
    requires Exec(cfg, INIT, steps).Some? && i < |Exec(cfg, INIT, steps).value.tables.raw|
    ensures Sent(steps, p) && Store.StoredAt(Exec(cfg, INIT, steps).value.tables, i, Carrier(cfg, n, p))
  {
    var sent := PointsOf(steps);
    forall p | Sent(steps, p) ensures p in sent {
      var k :| 0 <= k < |steps| && steps[k].Append? && p in steps[k].points;
    }
    RunTraces(cfg, sent, INIT, steps);
    var s := Exec(cfg, INIT, steps).value;
    hide Exec, Store.StoredAt;
    assert RowWritten(s, i);
    var w :| w in s.written && Store.StoredAt(s.tables, i, w);
    assert Carries(cfg, sent, w);
    p :| p in sent && w == Carrier(cfg, w.seqNo, p);
    n := w.seqNo;
  }

  /** In every run what was acknowledged, and what the buffer holds, is what was sent: an
      acknowledged record carries a point of some request, and a record let into the
      queue is one of these or lacks but its payload. */
  lemma RecordsComeFromRequests(cfg: Config, steps: seq<Step>, r: Record) returns (n: nat, p: Point)
    requires Exec(cfg, INIT, steps).Some?
    requires var s := Exec(cfg, INIT, steps).value; r in s.acked || r in s.accepted
    ensures Sent(steps, p)
    ensures var c := Carrier(cfg, n, p);
      && (r in Exec(cfg, INIT, steps).value.acked ==> r == c)
      && (r == c || (r.checkpointOnly && r.seqNo == c.seqNo && r.deviceId == c.deviceId
                     && r.point == c.point.(payload := "")))
  {
    var sent := PointsOf(steps);
    forall p | Sent(steps, p) ensures p in sent {
      var k :| 0 <= k < |steps| && steps[k].Append? && p in steps[k].points;
    }
    RunTraces(cfg, sent, INIT, steps);
    var s := Exec(cfg, INIT, steps).value;
    hide Exec;
    var w := r;
    if r !in s.acked {
      assert FromIssued(s, r);
      w :| w in s.issued && (r == w || r == Marker(w));
    }
    assert Carries(cfg, sent, w);
    p :| p in sent && w == Carrier(cfg, w.seqNo, p);
    n := w.seqNo;
  }
}
