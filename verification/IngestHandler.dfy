/** The acknowledged ingest request: append to the spool, then enqueue. */
module IngestHandler {
  import opened Ingest
  import opened Buffer
  import opened Spool
  import opened SpoolManager
  import opened Pipeline
  import opened PipelineSafety
  import opened PipelineFaults
  import opened Flusher

  datatype Response = Response(accepted: nat, spooled: nat, enqueued: nat, maxSeq: nat)

  class Handler {
    const cfg: Config
    const spool: FileSpoolManager
    const buffer: Manager

    constructor (cfg: Config, spool: FileSpoolManager, buffer: Manager)
      requires spool.cfg == cfg && buffer.cfg == cfg
      ensures this.cfg == cfg && this.spool == spool && this.buffer == buffer
    {
      this.cfg, this.spool, this.buffer := cfg, spool, buffer;
    }

    /** A response is an acknowledgement of exactly the appended records; an error,
        from a full buffer or a failed append, acknowledges nothing, though lines may
        stay on disk. If sequence numbers are fresh the pipeline stays crash safe. */
    method AppendAndEnqueue(points: seq<Point>, calm: bool, ghost w: World)
      returns (response: Option<Response>, ghost events: seq<Event>, ghost w': World)
      requires spool.cfg == cfg && buffer.cfg == cfg && buffer.Valid() && spool.UnsyncedBounded()
      requires w.s.up && w.s.recovering == [] && w.s.pending == []
      requires w.s.spool == spool.View() && w.s.buffer == buffer.View() && w.damaged == spool.damaged
      modifies spool, buffer
      ensures buffer.Valid() && spool.UnsyncedBounded()
      ensures Play(cfg, w, events) == Some(w')
      ensures w'.s.spool == spool.View() && w'.s.buffer == buffer.View() && w'.damaged == spool.damaged
      ensures w'.s.tables == w.s.tables
      ensures
        var records := NewRecords(cfg, w.s.spool.nextSeq, points);
        match response
        case Some(r) =>
          && events == Request(points) && w'.s.acked == w.s.acked + Members(records)
          && r == Response(|points|, |points|, |points|, MaxSeqNo(records))
        case None =>
          && (events == Request(points) || FailsWithin(points, events))
          && w'.s.acked == w.s.acked && w'.s.buffer == w.s.buffer
      ensures Inv(cfg, w.s) && SeqFresh(w.s.spool) ==> Inv(cfg, w'.s)
      ensures calm ==>
        (response.Some? <==> EnqueueDecision(cfg, w.s.buffer, NewRecords(cfg, w.s.spool.nextSeq, points)).Accepted?)
    {
      var appended;
      ghost var i, m;
      appended, i, m := spool.AppendCanonicalPoints(points, calm);
      if appended.None? {
        w' := FailedRequest(cfg, w, points[..i], m);
        return None, [AppendFail(points[..i], m)], w';
      }
      var records := appended.value;
      var outcome := buffer.Enqueue(records);
      w' := IngestSteps(cfg, w, points);
      if !outcome.Accepted? {
        return None, Request(points), w';
      }
      var maxSeq := HighestSeq(records);
      return Some(Response(|points|, |records|, |records|, maxSeq)), Request(points), w';
    }
  }

  /** A request whose append succeeds: append, then enqueue. */
  ghost function Request(points: seq<Point>): seq<Event> {
    Plains([Append(points), Enqueue(0)])
  }

  /** One append that failed after some of the points. */
  ghost predicate FailsWithin(points: seq<Point>, events: seq<Event>) {
    |events| == 1 && events[0].AppendFail? && events[0].points < points
  }

  method HighestSeq(records: seq<Record>) returns (maxSeq: nat)
    ensures maxSeq == MaxSeqNo(records)
  {
    maxSeq := 0;
    for i := 0 to |records|
      invariant maxSeq == MaxSeqNo(records[..i])
    {
      assert records[..i + 1][..i] == records[..i];
      if records[i].seqNo > maxSeq {
        maxSeq := records[i].seqNo;
      }
    }
    assert records[..|records|] == records;
  }

  /** Append then enqueue, with no other handler in between. */
  lemma IngestSteps(cfg: Config, w: World, points: seq<Point>) returns (w': World)
    requires w.s.up && w.s.recovering == [] && w.s.pending == []
    ensures Play(cfg, w, Request(points)) == Some(w')
    ensures w'.s.spool == AppendAll(cfg, w.s.spool, points) && w'.s.tables == w.s.tables && w'.damaged == w.damaged
    ensures
      var records := NewRecords(cfg, w.s.spool.nextSeq, points);
      && w'.s.buffer == AfterEnqueue(cfg, w.s.buffer, records)
      && w'.s.acked ==
           if EnqueueDecision(cfg, w.s.buffer, records).Accepted? then w.s.acked + Members(records) else w.s.acked
    ensures Inv(cfg, w.s) && SeqFresh(w.s.spool) ==> Inv(cfg, w'.s)
  {
    var a, b := Plain(Append(points)), Plain(Enqueue(0));
    var w1 := Happen(cfg, w, a);
    assert w1.s.pending == [NewRecords(cfg, w.s.spool.nextSeq, points)];
    w' := Happen(cfg, w1, b);
    PlayOne(cfg, w, a);
    PlayOne(cfg, w1, b);
    PlayConcat(cfg, w, [a], [b]);
    assert [a] + [b] == Request(points);
    if Inv(cfg, w.s) && SeqFresh(w.s.spool) {
      StepKeeps(cfg, w.s, Append(points));
      StepKeeps(cfg, w1.s, Enqueue(0));
    }
  }

  /** A failed append is one event, and the client gets an error. */
  lemma FailedRequest(cfg: Config, w: World, counted: seq<Point>, m: Mishap) returns (w': World)
    requires w.s.up && w.s.recovering == [] && Possible(cfg, AppendAll(cfg, w.s.spool, counted), m)
    ensures Play(cfg, w, [AppendFail(counted, m)]) == Some(w')
    ensures w'.s.spool == AfterMishap(cfg, AppendAll(cfg, w.s.spool, counted), m)
    ensures w'.damaged == w.damaged + Damage(cfg, AppendAll(cfg, w.s.spool, counted), m)
    ensures w'.s == w.s.(spool := w'.s.spool, issued := w'.s.issued)
    ensures Inv(cfg, w.s) && SeqFresh(w.s.spool) ==> Inv(cfg, w'.s)
  {
    PlayOne(cfg, w, AppendFail(counted, m));
    w' := Happen(cfg, w, AppendFail(counted, m));
    if Inv(cfg, w.s) && SeqFresh(w.s.spool) {
      FailedAppendKeeps(cfg, w.s, counted, m);
    }
  }
}
