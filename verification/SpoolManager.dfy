/** `FileSpoolManager`: the code that mutates the spool directory, each method
    tied to the value-level meaning in module `Spool`. File errors are
    nondeterministic choices, and so is the clock; a `calm` call meets no error. */
module SpoolManager {
  import opened Ingest
  import opened Spool

  datatype FsyncMode = Always | Balanced | LowWear

  lemma MinExists(s: set<nat>) returns (m: nat)
    requires s != {}
    ensures m in s && forall k :: k in s ==> m <= k
  {
    m :| m in s;
    if k :| k in s && k < m {
      assert k in s - {m};
      var rest := MinExists(s - {m});
      assert s == (s - {m}) + {m};
      m := rest;
    }
  }

  /** The directory restricted to the first `n` of its starts. */
  ghost function Upto(dir: Directory, starts: seq<nat>, n: nat): Directory
    requires n <= |starts|
  {
    map k | k in dir && k in starts[..n] :: dir[k]
  }

  ghost predicate Ascending(starts: seq<nat>) {
    forall i, j :: 0 <= i < j < |starts| ==> starts[i] < starts[j]
  }

  ghost predicate Listing(dir: Directory, starts: seq<nat>) {
    Ascending(starts) && forall k :: k in starts <==> k in dir
  }

  /** A damaged file may hold nothing but part of a line, and is listed all the same. */
  ghost predicate ListsFiles(dir: Directory, damaged: set<nat>, starts: seq<nat>) {
    Ascending(starts) && forall k :: k in starts <==> k in dir || k in damaged
  }

  lemma UptoStep(dir: Directory, starts: seq<nat>, n: nat, c: nat)
    requires Ascending(starts) && n < |starts| && starts[n] in dir
    ensures Replay(Upto(dir, starts, n + 1), c) == Replay(Upto(dir, starts, n), c) + After(dir[starts[n]], c)
  {
    var wider := Upto(dir, starts, n + 1);
    assert starts[..n + 1] == starts[..n] + [starts[n]];
    assert wider - {starts[n]} == Upto(dir, starts, n);
    ReplayUnfold(wider, starts[n], c);
  }

  lemma NoneDamaged(dir: Directory, damaged: set<nat>, starts: seq<nat>)
    requires ListsFiles(dir, damaged, starts)
    requires forall i :: 0 <= i < |starts| ==> starts[i] !in damaged
    ensures damaged == {} && Listing(dir, starts)
  {
    forall k | k in starts ensures k !in damaged {
      var i :| 0 <= i < |starts| && starts[i] == k;
    }
  }

  lemma UptoAll(dir: Directory, starts: seq<nat>)
    requires Listing(dir, starts)
    ensures Upto(dir, starts, |starts|) == dir
  {
    assert starts[..|starts|] == starts;
  }

  /** What became of a write: an error after nothing or part of the line, or success. */
  datatype WriteResult = Nothing | Part | Whole

  /** The append of `p` at `sp` ended in mishap `m` and left `sp'`. Where the mode never
      syncs, no line is left uncounted. */
  ghost predicate Failed(cfg: Config, mode: FsyncMode, sp: SpoolState, damaged: set<nat>, p: Point, m: Mishap,
                         sp': SpoolState, damaged': set<nat>)
  {
    && Possible(cfg, sp, m) && (!m.Stopped? ==> m.next == p) && (m.Landed? ==> !mode.LowWear?)
    && sp' == AfterMishap(cfg, sp, m) && damaged' == damaged + Damage(cfg, sp, m)
  }

  class FileSpoolManager {
    const cfg: Config
    const mode: FsyncMode
    const fsyncInterval: int
    const fsyncThreshold: nat

    var dir: Directory
    var checkpoint: CheckpointFile
    var nextSeq: nat
    var active: Active
    var bytesSinceSync: nat
    var lastSyncAt: int

    /** Segments with part of a line in them; reading one ends in a decoding error. */
    var damaged: set<nat>

    /** Bytes of whole lines in each segment that have not reached stable storage in
        this life. */
    ghost var unsynced: map<nat, nat>

    /** A sync that was due has failed, and none has succeeded since. */
    ghost var overdue: bool

    /** The length of the line written last. */
    ghost var lastLine: nat

    ghost function View(): SpoolState
      reads this
    {
      SpoolState(dir, checkpoint, nextSeq, active)
    }

    /** Unsynced data is the tail of the open segment only, and unless a sync failed
        the fsync mode bounds it: nothing, less than the threshold, or one segment or
        line. */
    ghost predicate UnsyncedBounded()
      reads this
    {
      && fsyncThreshold > 0
      && (forall k :: k in unsynced && !(active.Open? && active.start == k) ==> unsynced[k] == 0)
      && (active.Open? ==> active.start in unsynced && unsynced[active.start] == bytesSinceSync <= active.size)
      && (active.Closed? ==> bytesSinceSync == 0)
      && (mode.Always? && !overdue ==> bytesSinceSync == 0)
      && (mode.Balanced? && !overdue ==> bytesSinceSync < fsyncThreshold)
      && WithinOneSegment()
    }

    /** In every mode, and the only bound in low-wear mode: not more than a segment
        may hold, or than the single line that filled it. */
    ghost predicate WithinOneSegment()
      reads this
    {
      cfg.segmentMaxBytes > 0 ==> bytesSinceSync <= cfg.segmentMaxBytes || bytesSinceSync <= lastLine
    }

    /** A new process over whatever directory it finds. The sequence counter
        always restarts at 1. */
    constructor (cfg: Config, mode: FsyncMode, interval: int, threshold: int,
                 dir: Directory, checkpoint: CheckpointFile, damaged: set<nat>)
      ensures View() == SpoolState(dir, checkpoint, 1, Closed) && this.damaged == damaged
      ensures this.cfg == cfg && this.mode == mode
      ensures fsyncThreshold == (if threshold <= 0 then 65536 else threshold)
      ensures fsyncInterval == (if interval <= 0 then 2 else interval)
      ensures UnsyncedBounded()
    {
      this.cfg, this.mode := cfg, mode;
      fsyncInterval := if interval <= 0 then 2 else interval;
      fsyncThreshold := if threshold <= 0 then 65536 else threshold;
      this.dir, this.checkpoint, this.damaged := dir, checkpoint, damaged;
      nextSeq, active, bytesSinceSync, lastSyncAt, unsynced, lastLine := 1, Closed, 0, 0, map[], 0;
      overdue := false;
    }

    /** A failed sync or close leaves the segment open. */
    method CloseActive(calm: bool) returns (ok: bool)
      requires UnsyncedBounded()
      modifies this`active, this`bytesSinceSync, this`unsynced, this`overdue
      ensures UnsyncedBounded()
      ensures View() == if ok then old(View()).(active := Closed) else old(View())
      ensures calm ==> ok
    {
      if active.Closed? {
        return true;
      }
      var syncFails: bool, closeFails: bool :| calm ==> !syncFails && !closeFails;
      if (bytesSinceSync > 0 && syncFails) || closeFails {
        return false;
      }
      unsynced := unsynced[active.start := 0];
      active, bytesSinceSync, overdue := Closed, 0, false;
      return true;
    }

    method OpenNewSegment(calm: bool) returns (ok: bool)
      requires UnsyncedBounded() && active.Closed?
      modifies this`active, this`bytesSinceSync, this`lastSyncAt, this`unsynced
      ensures UnsyncedBounded() && bytesSinceSync == 0
      ensures View() == if ok then old(View()).(active := OpenedNext(cfg, old(View()))) else old(View())
      ensures calm ==> ok
    {
      var openFails: bool :| calm ==> !openFails;
      if openFails {
        return false;
      }
      active := Open(nextSeq, TotalBytes(cfg.lineBytes, Contents(dir, nextSeq)));
      unsynced := unsynced[nextSeq := 0];
      bytesSinceSync := 0;
      lastSyncAt := *;
      return true;
    }

    /** On an error the old segment is still open, or none is. */
    method EnsureSegmentForWrite(incoming: nat, calm: bool) returns (ok: bool)
      requires UnsyncedBounded()
      modifies this`active, this`bytesSinceSync, this`lastSyncAt, this`unsynced, this`overdue
      ensures UnsyncedBounded()
      ensures ok ==>
        && active.Open?
        && bytesSinceSync == (if NeedsNewSegment(cfg, old(active), incoming) then 0 else old(bytesSinceSync))
        && View() == old(View()).(active := SegmentForWrite(cfg, old(View()), incoming))
      ensures !ok ==>
        && NeedsNewSegment(cfg, old(active), incoming)
        && (active == old(active) || active == Closed)
        && View() == old(View()).(active := active)
      ensures calm ==> ok
    {
      var needNew := active.Closed?;
      if !needNew && cfg.segmentMaxBytes > 0 {
        if active.size + incoming > cfg.segmentMaxBytes && active.size > 0 {
          needNew := true;
        }
      }
      if !needNew {
        return true;
      }
      ok := CloseActive(calm);
      if ok {
        ok := OpenNewSegment(calm);
      }
    }

    method ShouldFsync(now: int) returns (sync: bool)
      ensures mode.Always? ==> sync
      ensures mode.Balanced? ==>
        (!sync <==> bytesSinceSync < fsyncThreshold && now < lastSyncAt + fsyncInterval)
      ensures mode.LowWear? ==> !sync
    {
      match mode
      case Always => sync := true;
      case Balanced => sync := bytesSinceSync >= fsyncThreshold || now - lastSyncAt >= fsyncInterval;
      case LowWear => sync := false;
    }

    /** One turn of the append loop: the record, or the mishap that ended it. */
    method AppendPoint(p: Point, calm: bool) returns (r: Option<Record>, ghost m: Mishap)
      requires UnsyncedBounded()
      modifies this
      ensures UnsyncedBounded()
      ensures r.Some? ==>
        r.value == RecordFor(cfg, old(nextSeq), p) && View() == AppendOne(cfg, old(View()), p) && damaged == old(damaged)
      ensures r.None? ==> Failed(cfg, mode, old(View()), old(damaged), p, m, View(), damaged)
      ensures calm ==> r.Some?
    {
      var record := RecordFor(cfg, nextSeq, p);
      var serializeFails: bool :| calm ==> !serializeFails;
      if serializeFails {
        return None, Stopped(active);
      }
      var line := cfg.lineBytes(record);
      var ready := EnsureSegmentForWrite(line, calm);
      if !ready {
        return None, Stopped(active);
      }
      var written: WriteResult :| calm ==> written.Whole?;
      match written
      case Nothing => return None, Stopped(active);
      case Part => {
        damaged := damaged + {active.start};
        return None, Cut(p);
      }
      case Whole => {
        hide UnsyncedBounded, SegmentForWrite;
        var counted := CountLine(record, line, calm);
        return if counted then Some(record) else None, Landed(p);
      }
    }

    /** The line is written, then synced if that is due, and only then counted. */
    method CountLine(r: Record, line: nat, calm: bool) returns (ok: bool)
      requires UnsyncedBounded() && active.Open?
      requires cfg.segmentMaxBytes > 0 ==> active.size + line <= cfg.segmentMaxBytes || bytesSinceSync == 0
      modifies this
      ensures UnsyncedBounded() && damaged == old(damaged)
      ensures mode.LowWear? || calm ==> ok
      ensures View() == old(View()).(
        dir := old(dir)[old(active).start := Contents(old(dir), old(active).start) + [r]],
        active := Open(old(active).start, old(active).size + line),
        nextSeq := if ok then old(nextSeq) + 1 else old(nextSeq))
    {
      WriteLine(r, line);
      var now: int := *;
      ok := SyncIfDue(now, calm);
      if ok {
        nextSeq := nextSeq + 1;
      }
    }

    /** The line goes to the end of the open segment. */
    method WriteLine(r: Record, line: nat)
      requires UnsyncedBounded() && active.Open?
      requires cfg.segmentMaxBytes > 0 ==> active.size + line <= cfg.segmentMaxBytes || bytesSinceSync == 0
      modifies this`dir, this`active, this`bytesSinceSync, this`unsynced, this`lastLine
      ensures UnsyncedInActive()
      ensures dir == old(dir)[old(active).start := Contents(old(dir), old(active).start) + [r]]
      ensures active == Open(old(active).start, old(active).size + line)
    {
      var start := active.start;
      dir := dir[start := Contents(dir, start) + [r]];
      active := Open(start, active.size + line);
      bytesSinceSync := bytesSinceSync + line;
      unsynced := unsynced[start := unsynced[start] + line];
      lastLine := line;
    }

    method SyncIfDue(now: int, calm: bool) returns (ok: bool)
      requires UnsyncedInActive()
      modifies this`bytesSinceSync, this`lastSyncAt, this`unsynced, this`overdue
      ensures UnsyncedBounded()
      ensures mode.LowWear? || calm ==> ok
      ensures ok && mode.Balanced? && now - old(lastSyncAt) >= fsyncInterval ==> bytesSinceSync == 0 && lastSyncAt == now
    {
      var sync := ShouldFsync(now);
      if sync {
        var syncFails: bool :| calm ==> !syncFails;
        if syncFails {
          overdue := true;
          return false;
        }
        bytesSinceSync, overdue := 0, false;
        unsynced := unsynced[active.start := 0];
        lastSyncAt := now;
      }
      return true;
    }

    /** Between a write and the sync decision: unsynced data is the tail of the open
        segment, of any length. */
    ghost predicate UnsyncedInActive()
      reads this
    {
      && fsyncThreshold > 0 && active.Open?
      && (forall k :: k in unsynced && k != active.start ==> unsynced[k] == 0)
      && active.start in unsynced && unsynced[active.start] == bytesSinceSync <= active.size
      && WithinOneSegment()
    }

    /** All records, or an error at point `i`: then those before it are counted and the
        mishap says what is left of its own line. */
    method AppendCanonicalPoints(points: seq<Point>, calm: bool)
      returns (appended: Option<seq<Record>>, ghost i: nat, ghost m: Mishap)
      requires UnsyncedBounded()
      modifies this
      ensures UnsyncedBounded()
      ensures appended.Some? ==>
        && appended.value == NewRecords(cfg, old(nextSeq), points)
        && View() == AppendAll(cfg, old(View()), points) && damaged == old(damaged)
      ensures appended.None? ==>
        && i < |points| && nextSeq == old(nextSeq) + i
        && Failed(cfg, mode, AppendAll(cfg, old(View()), points[..i]), old(damaged), points[i], m, View(), damaged)
      ensures calm ==> appended.Some?
    {
      var out := [];
      i, m := 0, Stopped(active);
      var mkdirFails: bool :| calm ==> !mkdirFails;
      if |points| > 0 && mkdirFails {
        return None, 0, m;
      }
      for n := 0 to |points|
        invariant UnsyncedBounded()
        invariant nextSeq == old(nextSeq) + n && damaged == old(damaged)
        invariant out == NewRecords(cfg, old(nextSeq), points[..n])
        invariant View() == AppendAll(cfg, old(View()), points[..n])
      {
        var r;
        r, m := AppendPoint(points[n], calm);
        if r.None? {
          return None, n, m;
        }
        assert points[..n + 1][..n] == points[..n];
        NewRecordsSnoc(cfg, old(nextSeq), points[..n + 1]);
        out := out + [r.value];
      }
      assert points[..|points|] == points;
      return Some(out), 0, m;
    }

    /** Moves the checkpoint forward, never back. A failed write can leave the
        file as it was, torn, or already holding the new value. */
    method AdvanceCheckpoint(n: nat, calm: bool) returns (ok: bool)
      modifies this`checkpoint
      ensures ok ==> !old(checkpoint).Torn? && checkpoint == Advanced(old(checkpoint), n)
      ensures !ok ==>
        || checkpoint == old(checkpoint)
        || (!old(checkpoint).Torn? && n > LastGood(old(checkpoint))
            && (checkpoint == Torn(LastGood(old(checkpoint))) || checkpoint == Holds(n)))
      ensures calm && !old(checkpoint).Torn? ==> ok
    {
      var readFails: bool :| calm ==> !readFails;
      if checkpoint.Torn? || readFails {
        return false;
      }
      if n <= LastGood(checkpoint) {
        return true;
      }
      var openFails: bool :| calm ==> !openFails;
      if openFails {
        return false;
      }
      checkpoint := Torn(LastGood(checkpoint));
      var writeFails: bool :| calm ==> !writeFails;
      if writeFails {
        return false;
      }
      checkpoint := Holds(n);
      var syncFails: bool :| calm ==> !syncFails;
      return !syncFails;
    }

    method ListSegmentStarts() returns (starts: seq<nat>)
      ensures ListsFiles(dir, damaged, starts)
    {
      var todo := dir.Keys + damaged;
      starts := [];
      while todo != {}
        invariant Ascending(starts)
        invariant forall k :: k in dir || k in damaged <==> k in starts || k in todo
        invariant forall i, k :: 0 <= i < |starts| && k in todo ==> starts[i] < k
        decreases todo
      {
        ghost var witness_ := MinExists(todo);
        var k :| k in todo && forall j :: j in todo ==> k <= j;
        starts := starts + [k];
        todo := todo - {k};
      }
    }

    /** The records of one segment above `c`, appended to `out`. */
    method AppendCommitted(records: seq<Record>, c: nat, out0: seq<Record>) returns (out: seq<Record>)
      ensures out == out0 + After(records, c)
    {
      out := out0;
      for i := 0 to |records|
        invariant out == out0 + After(records[..i], c)
      {
        assert records[..i + 1][..i] == records[..i];
        if records[i].seqNo > c {
          out := out + [records[i]];
        }
      }
      assert records[..|records|] == records;
    }

    /** All records above the checkpoint in start order, or nothing if some file
        could not be read. */
    method ReplayAfterCheckpoint(calm: bool) returns (r: Option<seq<Record>>)
      ensures r.Some? ==> r == NextReplay(View()) && damaged == {}
      ensures calm && NextReplay(View()).Some? && damaged == {} ==> r.Some?
    {
      var listFails: bool :| calm ==> !listFails;
      if checkpoint.Torn? || listFails {
        return None;
      }
      var starts := ListSegmentStarts();
      var out: seq<Record> := [];
      var i := 0;
      assert Upto(dir, starts, 0) == map[];
      while i < |starts|
        invariant 0 <= i <= |starts|
        invariant out == Replay(Upto(dir, starts, i), LastGood(checkpoint))
        invariant forall j :: 0 <= j < i ==> starts[j] !in damaged
      {
        var readFails: bool :| calm ==> !readFails;
        if readFails || starts[i] in damaged {
          return None;
        }
        assert starts[i] in starts;
        UptoStep(dir, starts, i, LastGood(checkpoint));
        out := AppendCommitted(dir[starts[i]], LastGood(checkpoint), out);
        i := i + 1;
      }
      NoneDamaged(dir, damaged, starts);
      UptoAll(dir, starts);
      return Some(out);
    }

    method MaxRecordSeqInSegment(start: nat) returns (m: nat)
      requires start in dir
      ensures m == MaxInSegment(dir[start], start)
    {
      var records := dir[start];
      if |records| == 0 {
        return if start == 0 then 0 else start - 1;
      }
      m := records[0].seqNo;
      for i := 1 to |records|
        invariant m == MaxSeqNo(records[..i])
      {
        assert records[..i + 1][..i] == records[..i];
        if records[i].seqNo > m {
          m := records[i].seqNo;
        }
      }
      assert records[..|records|] == records;
    }

    /** Deletes the fully committed segments in ascending order; an error stops it
        at `bound`. */
    method CompactCommittedSegments(calm: bool) returns (deleted: nat, ok: bool, ghost bound: nat)
      modifies this`dir
      ensures View() == Compacted(old(View()), bound)
      ensures checkpoint.Torn? ==> View() == old(View())
      ensures ok ==> forall k :: k in old(dir) || k in damaged ==> k < bound
      ensures forall k :: k in damaged && k < bound ==>
        k > LastGood(checkpoint) || (active.Open? && active.start == k)
      ensures deleted == |old(dir.Keys)| - |dir.Keys|
      ensures calm && !checkpoint.Torn? && damaged == {} ==> ok
    {
      hide Compacted, Deletable, ListsFiles;
      deleted, bound := 0, 0;
      NothingCompacted(View());
      var listFails: bool :| calm ==> !listFails;
      if checkpoint.Torn? || listFails {
        return 0, false, 0;
      }
      var starts := ListSegmentStarts();
      var i := 0;
      ok := true;
      while i < |starts| && ok
        invariant 0 <= i <= |starts|
        invariant View() == Compacted(old(View()), bound) == old(View()).(dir := Compacted(old(View()), bound).dir)
        invariant deleted == |old(dir.Keys)| - |dir.Keys|
        invariant BelowBound(starts, i, bound)
        invariant Unread(starts[..i])
        invariant calm && damaged == {} ==> ok
        decreases |starts| - i, ok
      {
        CompactStep(old(View()), damaged, starts, i, bound);
        var gone;
        ok, gone := CompactOne(starts[i], calm);
        if ok {
          deleted := deleted + if gone then 1 else 0;
          bound := starts[i] + 1;
          assert starts[..i + 1] == starts[..i] + [starts[i]];
          i := i + 1;
        }
      }
      if ok { AllBelowBound(old(dir), damaged, starts, bound); }
      UnreadBelow(starts, i, bound);
    }

    /** Damaged segments among these could be passed without reading them. */
    ghost predicate Unread(starts: seq<nat>)
      reads this
    {
      forall k :: k in starts && k in damaged ==>
        k > LastGood(checkpoint) || (active.Open? && active.start == k)
    }

    lemma UnreadBelow(starts: seq<nat>, i: nat, bound: nat)
      requires i <= |starts| && BelowBound(starts, i, bound) && Unread(starts[..i])
      requires forall k :: k in damaged ==> k in starts
      ensures forall k :: k in damaged && k < bound ==>
        k > LastGood(checkpoint) || (active.Open? && active.start == k)
    {
      forall k | k in damaged && k < bound ensures k in starts[..i] {
        var j :| 0 <= j < |starts| && starts[j] == k;
        assert starts[..i][j] == k;
      }
    }

    /** One segment: keep it, delete it, or stop on an error. */
    method CompactOne(start: nat, calm: bool) returns (ok: bool, gone: bool)
      requires start in dir || start in damaged
      modifies this`dir
      ensures ok ==> Unread([start])
      ensures calm && start !in damaged ==> ok
      ensures gone ==> ok
      ensures ok ==> gone == Deletable(old(View()), start)
      ensures dir == if gone then old(dir) - {start} else old(dir)
      ensures |dir.Keys| == |old(dir.Keys)| - if gone then 1 else 0
    {
      var c := LastGood(checkpoint);
      if (active.Open? && start == active.start) || start > c {
        return true, false;
      }
      var readFails: bool :| calm ==> !readFails;
      if readFails || start in damaged {
        return false, false;
      }
      var m := MaxRecordSeqInSegment(start);
      if m > c {
        return true, false;
      }
      var removeFails: bool :| calm ==> !removeFails;
      if removeFails {
        return false, false;
      }
      ghost var before := dir.Keys;
      dir := dir - {start};
      assert dir.Keys == before - {start};
      return true, true;
    }
  }

  /** Exactly the first `i` starts are below the bound. */
  ghost predicate BelowBound(starts: seq<nat>, i: nat, bound: nat) {
    forall j :: 0 <= j < |starts| ==> (starts[j] < bound <==> j < i)
  }

  lemma NothingCompacted(sp: SpoolState)
    ensures Compacted(sp, 0) == sp
    ensures forall starts :: BelowBound(starts, 0, 0)
  {
    assert Compacted(sp, 0).dir == sp.dir;
  }

  lemma AllBelowBound(dir: Directory, damaged: set<nat>, starts: seq<nat>, bound: nat)
    requires ListsFiles(dir, damaged, starts) && BelowBound(starts, |starts|, bound)
    ensures forall k :: k in dir || k in damaged ==> k < bound
  {
    forall k | k in dir || k in damaged ensures k < bound {
      assert k in starts;
    }
  }

  lemma CompactStep(sp: SpoolState, damaged: set<nat>, starts: seq<nat>, i: nat, bound: nat)
    requires ListsFiles(sp.dir, damaged, starts) && i < |starts| && BelowBound(starts, i, bound)
    ensures starts[i] in Compacted(sp, bound).dir || starts[i] in damaged
    ensures Deletable(sp.(dir := Compacted(sp, bound).dir), starts[i]) == Deletable(sp, starts[i])
    ensures Compacted(sp, starts[i] + 1).dir ==
      if Deletable(sp, starts[i]) then Compacted(sp, bound).dir - {starts[i]} else Compacted(sp, bound).dir
    ensures Compacted(sp, starts[i] + 1) == sp.(dir := Compacted(sp, starts[i] + 1).dir)
    ensures BelowBound(starts, i + 1, starts[i] + 1)
  {
    assert starts[i] in starts;
    forall k | k in sp.dir ensures k < starts[i] + 1 <==> k < bound || k == starts[i] {
      assert k in starts;
      var j :| 0 <= j < |starts| && starts[j] == k;
    }
  }
}
