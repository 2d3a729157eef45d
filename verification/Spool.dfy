/** The segmented append-only spool and its checkpoint, as values: what a
    directory of segments means, how appending grows it, and why compaction and
    checkpointing never change what a replay returns. */
module Spool {
  import opened Ingest

  /** `checkpoint.json`. A write that fails after the file was truncated leaves it
      `Torn`; nothing can read `previous` any more, it only names what was lost. */
  datatype CheckpointFile = Absent | Holds(seqNo: nat) | Torn(previous: nat)

  /** The segment being written, if one is open. */
  datatype Active = Closed | Open(start: nat, size: nat)

  type Directory = map<nat, seq<Record>>

  /** The directory maps a segment's start sequence (its file name) to its lines. */
  datatype SpoolState = SpoolState(
    dir: Directory,
    checkpoint: CheckpointFile,
    nextSeq: nat,
    active: Active)

  const FRESH := SpoolState(map[], Absent, 1, Closed)

  function LastGood(c: CheckpointFile): nat {
    match c
    case Absent => 0
    case Holds(n) => n
    case Torn(previous) => previous
  }

  ghost predicate OnDisk(dir: Directory, r: Record) {
    exists k :: k in dir && r in dir[k]
  }

  /* ---------------------------- replay ---------------------------- */

  function After(rs: seq<Record>, c: nat): seq<Record> {
    if rs == [] then []
    else
      var before := After(rs[..|rs| - 1], c);
      if rs[|rs| - 1].seqNo > c then before + [rs[|rs| - 1]] else before
  }

  ghost function MaxKey(s: set<nat>): (m: nat)
    requires s != {}
    ensures m in s && forall k :: k in s ==> k <= m
  {
    var x :| x in s;
    if s == {x} then x
    else
      var m := MaxKey(s - {x});
      assert s == (s - {x}) + {x};
      if x > m then x else m
  }

  /** Segments in ascending start order, keeping the records above `c`. */
  ghost function Replay(dir: Directory, c: nat): seq<Record>
    decreases dir.Keys
  {
    if dir.Keys == {} then []
    else
      var m := MaxKey(dir.Keys);
      Replay(dir - {m}, c) + After(dir[m], c)
  }

  /** What the next start reads back; nothing when the checkpoint file is torn, for
      then it cannot be parsed. */
  ghost function NextReplay(sp: SpoolState): Option<seq<Record>> {
    if sp.checkpoint.Torn? then None else Some(Replay(sp.dir, LastGood(sp.checkpoint)))
  }

  lemma {:induction false} AfterMembers(rs: seq<Record>, c: nat)
    ensures forall r :: r in After(rs, c) <==> r in rs && r.seqNo > c
  {
    if rs != [] {
      AfterMembers(rs[..|rs| - 1], c);
      assert rs == rs[..|rs| - 1] + [rs[|rs| - 1]];
    }
  }

  lemma {:induction false} AfterIncreasing(rs: seq<Record>, c: nat)
    requires Increasing(rs)
    ensures Increasing(After(rs, c))
  {
    if rs != [] {
      AfterIncreasing(rs[..|rs| - 1], c);
      AfterMembers(rs[..|rs| - 1], c);
    }
  }

  lemma {:induction false} AfterAll(rs: seq<Record>, c: nat)
    requires forall r :: r in rs ==> r.seqNo > c
    ensures After(rs, c) == rs
  {
    if rs != [] {
      assert rs[|rs| - 1] in rs;
      AfterAll(rs[..|rs| - 1], c);
      assert rs == rs[..|rs| - 1] + [rs[|rs| - 1]];
    }
  }

  lemma AfterNone(rs: seq<Record>, c: nat)
    requires MaxSeqNo(rs) <= c
    ensures After(rs, c) == []
  {
    MaxSeqNoBounds(rs);
    AfterMembers(rs, c);
    if After(rs, c) != [] {
      assert After(rs, c)[0] in After(rs, c);
      assert false;
    }
  }

  /** A replay is exactly the records on disk above the checkpoint. */
  lemma {:induction false} ReplayMembers(dir: Directory, c: nat)
    ensures forall r :: r in Replay(dir, c) <==> OnDisk(dir, r) && r.seqNo > c
    decreases dir.Keys
  {
    if dir.Keys != {} {
      var m := MaxKey(dir.Keys);
      var rest := dir - {m};
      ReplayMembers(rest, c);
      AfterMembers(dir[m], c);
      forall r ensures OnDisk(dir, r) <==> OnDisk(rest, r) || r in dir[m] {
        if OnDisk(dir, r) {
          var k :| k in dir && r in dir[k];
          if k != m { assert k in rest && r in rest[k]; }
        }
      }
    }
  }

  lemma ReplayUnfold(dir: Directory, m: nat, c: nat)
    requires m in dir && forall k :: k in dir ==> k <= m
    ensures Replay(dir, c) == Replay(dir - {m}, c) + After(dir[m], c)
  {
  }

  /** Dropping segments that hold nothing above the checkpoint is invisible. */
  lemma {:induction false} ReplayWithout(dir: Directory, kept: Directory, c: nat)
    requires forall k :: k in kept ==> k in dir && kept[k] == dir[k]
    requires forall k :: k in dir && k !in kept ==> After(dir[k], c) == []
    ensures Replay(kept, c) == Replay(dir, c)
    decreases dir.Keys
  {
    if dir.Keys == {} {
      assert kept.Keys == {};
    } else {
      var m := MaxKey(dir.Keys);
      if m in kept {
        ReplayUnfold(kept, m, c);
        ReplayWithout(dir - {m}, kept - {m}, c);
      } else {
        ReplayWithout(dir - {m}, kept, c);
      }
    }
  }

  ghost function Below(dir: Directory, b: nat): Directory {
    map k | k in dir && k < b :: dir[k]
  }

  ghost function From(dir: Directory, b: nat): Directory {
    map k | k in dir && k >= b :: dir[k]
  }

  /** Replay reads the directory left to right, so it splits at any start. */
  lemma {:induction false} ReplaySplit(dir: Directory, b: nat, c: nat)
    ensures Replay(dir, c) == Replay(Below(dir, b), c) + Replay(From(dir, b), c)
    decreases dir.Keys
  {
    if dir.Keys == {} {
      SplitEmpty(dir, b, c);
    } else {
      hide *;
      var m := MaxKey(dir.Keys);
      ReplaySplit(dir - {m}, b, c);
      ReplayUnfold(dir, m, c);
      if m >= b { SplitAbove(dir, m, b, c); } else { SplitBelow(dir, m, b, c); }
    }
  }

  lemma SplitEmpty(dir: Directory, b: nat, c: nat)
    requires dir.Keys == {}
    ensures Replay(dir, c) == [] == Replay(Below(dir, b), c) == Replay(From(dir, b), c)
  {
    assert Below(dir, b).Keys == {} && From(dir, b).Keys == {};
  }

  lemma SplitAbove(dir: Directory, m: nat, b: nat, c: nat)
    requires m in dir && b <= m && forall k :: k in dir ==> k <= m
    ensures Replay(Below(dir - {m}, b), c) + Replay(From(dir - {m}, b), c) + After(dir[m], c)
         == Replay(Below(dir, b), c) + Replay(From(dir, b), c)
  {
    var upper := From(dir, b);
    assert upper - {m} == From(dir - {m}, b);
    assert Below(dir - {m}, b) == Below(dir, b);
    hide *;
    ReplayUnfold(upper, m, c);
  }

  lemma SplitBelow(dir: Directory, m: nat, b: nat, c: nat)
    requires m in dir && m < b && forall k :: k in dir ==> k <= m
    ensures Replay(Below(dir - {m}, b), c) + Replay(From(dir - {m}, b), c) + After(dir[m], c)
         == Replay(Below(dir, b), c) + Replay(From(dir, b), c)
  {
    var lower := Below(dir, b);
    assert lower - {m} == Below(dir - {m}, b);
    assert From(dir, b).Keys == {} && From(dir - {m}, b).Keys == {};
    ReplayUnfold(lower, m, c);
  }

  /* ----------------------------- layout ---------------------------- */

  ghost predicate AllBelow(rs: seq<Record>, n: nat) {
    forall i :: 0 <= i < |rs| ==> rs[i].seqNo < n
  }

  ghost predicate SegmentOk(k: nat, rs: seq<Record>) {
    rs != [] && rs[0].seqNo == k && Increasing(rs)
  }

  /** Every segment starts with its own name, increases, and ends before the
      next segment starts. */
  ghost predicate Ordered(dir: Directory) {
    && (forall k :: k in dir ==> SegmentOk(k, dir[k]))
    && (forall k, k' :: k in dir && k' in dir && k < k' ==> AllBelow(dir[k], k'))
  }

  lemma OrderedWithout(dir: Directory, kept: Directory)
    requires Ordered(dir)
    requires forall k :: k in kept ==> k in dir && kept[k] == dir[k]
    ensures Ordered(kept)
  {
  }

  lemma {:induction false} ReplayIncreasing(dir: Directory, c: nat)
    requires Ordered(dir)
    ensures Increasing(Replay(dir, c))
    decreases dir.Keys
  {
    if dir.Keys != {} {
      var m := MaxKey(dir.Keys);
      ReplayUnfold(dir, m, c);
      OrderedWithout(dir, dir - {m});
      ReplayIncreasing(dir - {m}, c);
      AfterIncreasing(dir[m], c);
      ReplayBelowLast(dir, m, c);
    }
  }

  lemma ReplayBelowLast(dir: Directory, m: nat, c: nat)
    requires Ordered(dir) && m in dir && forall k :: k in dir ==> k <= m
    ensures AllBelow(Replay(dir - {m}, c), m)
    ensures forall i :: 0 <= i < |After(dir[m], c)| ==> m <= After(dir[m], c)[i].seqNo
  {
    var a, b := Replay(dir - {m}, c), After(dir[m], c);
    ReplayMembers(dir - {m}, c);
    AfterMembers(dir[m], c);
    forall i | 0 <= i < |a| ensures a[i].seqNo < m {
      assert a[i] in a;
      var k :| k in dir - {m} && a[i] in (dir - {m})[k];
      assert AllBelow(dir[k], m);
    }
    forall i | 0 <= i < |b| ensures m <= b[i].seqNo {
      assert b[i] in b;
      assert SegmentOk(m, dir[m]);
    }
  }

  /** The open segment is the last one; before its first line it is named after the
      next number. */
  ghost predicate ActiveIsLast(sp: SpoolState) {
    sp.active.Open? ==>
      && (sp.active.start in sp.dir || sp.active.start == sp.nextSeq)
      && forall k :: k in sp.dir ==> k <= sp.active.start
  }

  ghost predicate SpoolOk(sp: SpoolState) {
    Ordered(sp.dir) && ActiveIsLast(sp)
  }

  ghost predicate DiskBelowNext(sp: SpoolState) {
    forall k :: k in sp.dir ==> AllBelow(sp.dir[k], sp.nextSeq)
  }

  /** The next sequence number is above everything on disk and above the checkpoint. */
  ghost predicate SeqFresh(sp: SpoolState) {
    LastGood(sp.checkpoint) < sp.nextSeq && DiskBelowNext(sp)
  }

  /* ----------------------------- append ---------------------------- */

  function RecordFor(cfg: Config, n: nat, p: Point): Record {
    Record(n, p.deviceId, if p.hash == "" then p.(hash := cfg.hashOf(p)) else p, false)
  }

  function NewRecords(cfg: Config, n: nat, points: seq<Point>): seq<Record> {
    seq(|points|, i requires 0 <= i < |points| => RecordFor(cfg, n + i, points[i]))
  }

  lemma NewRecordsSnoc(cfg: Config, n: nat, points: seq<Point>)
    requires points != []
    ensures var k := |points| - 1;
      NewRecords(cfg, n, points) == NewRecords(cfg, n, points[..k]) + [RecordFor(cfg, n + k, points[k])]
  {
  }

  predicate NeedsNewSegment(cfg: Config, active: Active, incoming: nat) {
    match active
    case Closed => true
    case Open(_, size) => cfg.segmentMaxBytes > 0 && size + incoming > cfg.segmentMaxBytes && size > 0
  }

  /** What the segment file `start` already holds; a missing file is empty. */
  function Contents(dir: Directory, start: nat): seq<Record> {
    if start in dir then dir[start] else []
  }

  /** The open segment the next line goes to; a rollover opens the file named
      after the next sequence number, at whatever length it already has. */
  function SegmentForWrite(cfg: Config, sp: SpoolState, incoming: nat): Active {
    if NeedsNewSegment(cfg, sp.active, incoming)
    then Open(sp.nextSeq, TotalBytes(cfg.lineBytes, Contents(sp.dir, sp.nextSeq)))
    else sp.active
  }

  function AppendOne(cfg: Config, sp: SpoolState, p: Point): SpoolState {
    var r := RecordFor(cfg, sp.nextSeq, p);
    var target := SegmentForWrite(cfg, sp, cfg.lineBytes(r));
    sp.(dir := sp.dir[target.start := Contents(sp.dir, target.start) + [r]],
        nextSeq := sp.nextSeq + 1,
        active := Open(target.start, target.size + cfg.lineBytes(r)))
  }

  function AppendAll(cfg: Config, sp: SpoolState, points: seq<Point>): SpoolState {
    if points == [] then sp
    else AppendOne(cfg, AppendAll(cfg, sp, points[..|points| - 1]), points[|points| - 1])
  }

  lemma AppendOneOrdered(cfg: Config, sp: SpoolState, p: Point)
    requires SpoolOk(sp) && DiskBelowNext(sp)
    ensures SpoolOk(AppendOne(cfg, sp, p)) && DiskBelowNext(AppendOne(cfg, sp, p))
  {
    var sp' := AppendOne(cfg, sp, p);
    var start := sp'.active.start;
    StartsBelowNext(sp);
    var old_ := Contents(sp.dir, start);
    assert sp'.dir[start] == old_ + [RecordFor(cfg, sp.nextSeq, p)];
    assert start !in sp.dir ==> start == sp.nextSeq;
    assert AllBelow(old_, sp.nextSeq);
    assert SegmentOk(start, sp'.dir[start]);
    forall k | k in sp'.dir ensures AllBelow(sp'.dir[k], sp'.nextSeq) {
      if k != start { assert AllBelow(sp.dir[k], sp.nextSeq); }
    }
    forall k | k in sp.dir && k < start ensures AllBelow(sp.dir[k], start) {
    }
  }

  lemma StartsBelowNext(sp: SpoolState)
    requires Ordered(sp.dir) && DiskBelowNext(sp)
    ensures forall k :: k in sp.dir ==> k < sp.nextSeq
  {
    forall k | k in sp.dir ensures k < sp.nextSeq {
      assert SegmentOk(k, sp.dir[k]) && AllBelow(sp.dir[k], sp.nextSeq);
      assert sp.dir[k][0].seqNo == k;
    }
  }

  /** One append whose number is not below any start adds its record at the very end
      of every replay. */
  lemma AppendOneReplay(cfg: Config, sp: SpoolState, p: Point, c: nat)
    requires SpoolOk(sp) && forall k :: k in sp.dir ==> k <= sp.nextSeq
    ensures Replay(AppendOne(cfg, sp, p).dir, c) == Replay(sp.dir, c) + After([RecordFor(cfg, sp.nextSeq, p)], c)
  {
    var dir' := AppendOne(cfg, sp, p).dir;
    var r := RecordFor(cfg, sp.nextSeq, p);
    var start := AppendOne(cfg, sp, p).active.start;
    var rest := dir' - {start};
    if start in sp.dir {
      assert rest == sp.dir - {start};
      calc {
        Replay(dir', c);
        { ReplayUnfold(dir', start, c); }
        Replay(rest, c) + After(sp.dir[start] + [r], c);
        { AfterSnoc(sp.dir[start], r, c); }
        Replay(rest, c) + After(sp.dir[start], c) + After([r], c);
        { ReplayUnfold(sp.dir, start, c); }
        Replay(sp.dir, c) + After([r], c);
      }
    } else {
      assert rest == sp.dir;
      assert [] + [r] == [r];
      ReplayUnfold(dir', start, c);
    }
  }

  lemma AfterSnoc(rs: seq<Record>, r: Record, c: nat)
    ensures After(rs + [r], c) == After(rs, c) + After([r], c)
  {
    assert (rs + [r])[..|rs|] == rs;
    assert [r][..0] == [];
    assert After([], c) == [];
  }

  lemma {:induction false} AppendAllOrdered(cfg: Config, sp: SpoolState, points: seq<Point>)
    requires SpoolOk(sp) && DiskBelowNext(sp)
    ensures var sp' := AppendAll(cfg, sp, points);
      && SpoolOk(sp') && DiskBelowNext(sp')
      && sp'.nextSeq == sp.nextSeq + |points|
      && sp'.checkpoint == sp.checkpoint
  {
    if points != [] {
      AppendAllOrdered(cfg, sp, points[..|points| - 1]);
      AppendOneOrdered(cfg, AppendAll(cfg, sp, points[..|points| - 1]), points[|points| - 1]);
    }
  }

  /** A whole append call: every replay gains exactly the new records, in order. */
  lemma {:induction false} AppendAllReplay(cfg: Config, sp: SpoolState, points: seq<Point>, c: nat)
    requires SpoolOk(sp) && DiskBelowNext(sp) && c < sp.nextSeq
    ensures Replay(AppendAll(cfg, sp, points).dir, c) == Replay(sp.dir, c) + NewRecords(cfg, sp.nextSeq, points)
  {
    if points == [] {
      assert Replay(sp.dir, c) + [] == Replay(sp.dir, c);
    } else {
      var init, p := points[..|points| - 1], points[|points| - 1];
      var mid := AppendAll(cfg, sp, init);
      AppendAllOrdered(cfg, sp, init);
      var r := RecordFor(cfg, mid.nextSeq, p);
      StartsBelowNext(mid);
      hide Replay, After, NewRecords, SpoolOk, DiskBelowNext, AppendOne;
      calc {
        Replay(AppendAll(cfg, sp, points).dir, c);
        { AppendOneReplay(cfg, mid, p, c); AfterAll([r], c); }
        Replay(mid.dir, c) + [r];
        { AppendAllReplay(cfg, sp, init, c); }
        Replay(sp.dir, c) + NewRecords(cfg, sp.nextSeq, init) + [r];
        { NewRecordsSnoc(cfg, sp.nextSeq, points); }
        Replay(sp.dir, c) + NewRecords(cfg, sp.nextSeq, points);
      }
    }
  }

  /** Appending adds its records to the disk and disturbs nothing there. */
  lemma {:induction false} AppendAllOnDisk(cfg: Config, sp: SpoolState, points: seq<Point>)
    ensures var sp', rs := AppendAll(cfg, sp, points), NewRecords(cfg, sp.nextSeq, points);
      && (forall r: Record :: OnDisk(sp'.dir, r) <==> OnDisk(sp.dir, r) || r in rs)
      && sp'.nextSeq == sp.nextSeq + |points|
      && sp'.checkpoint == sp.checkpoint
  {
    if points != [] {
      var init, p := points[..|points| - 1], points[|points| - 1];
      AppendAllOnDisk(cfg, sp, init);
      NewRecordsSnoc(cfg, sp.nextSeq, points);
      AppendOneOnDisk(cfg, AppendAll(cfg, sp, init), p);
    }
  }

  lemma AppendOneOnDisk(cfg: Config, sp: SpoolState, p: Point)
    ensures forall r: Record ::
      OnDisk(AppendOne(cfg, sp, p).dir, r) <==> OnDisk(sp.dir, r) || r == RecordFor(cfg, sp.nextSeq, p)
  {
    var dir', last := AppendOne(cfg, sp, p).dir, RecordFor(cfg, sp.nextSeq, p);
    var start := AppendOne(cfg, sp, p).active.start;
    assert last in dir'[start];
    forall r: Record ensures OnDisk(dir', r) <==> OnDisk(sp.dir, r) || r == last {
      if OnDisk(dir', r) && r != last {
        var k :| k in dir' && r in dir'[k];
        assert k in sp.dir && r in sp.dir[k];
      }
      if OnDisk(sp.dir, r) {
        var k :| k in sp.dir && r in sp.dir[k];
        assert k in dir' && r in dir'[k];
      }
    }
  }

  /* ------------------------ appends that fail ----------------------- */

  /** What an append call that ends in an error did after the records it counted.
      `Stopped`: nothing of the next line was written, though its segment may have
      been closed or opened. `Landed`: the line is whole, but its sync failed. `Cut`:
      only part of the line was written. In no case is the number counted. */
  datatype Mishap = Stopped(active: Active) | Landed(next: Point) | Cut(next: Point)

  /** A segment opened for the next record, before its line is written. */
  function OpenedNext(cfg: Config, sp: SpoolState): Active {
    Open(sp.nextSeq, TotalBytes(cfg.lineBytes, Contents(sp.dir, sp.nextSeq)))
  }

  predicate Possible(cfg: Config, sp: SpoolState, m: Mishap) {
    m.Stopped? ==> m.active == sp.active || m.active == Closed || m.active == OpenedNext(cfg, sp)
  }

  /** Where the line of `p` would go. */
  function TargetOf(cfg: Config, sp: SpoolState, p: Point): Active {
    SegmentForWrite(cfg, sp, cfg.lineBytes(RecordFor(cfg, sp.nextSeq, p)))
  }

  function AfterMishap(cfg: Config, sp: SpoolState, m: Mishap): SpoolState {
    match m
    case Stopped(active) => sp.(active := active)
    case Landed(p) => AppendOne(cfg, sp, p).(nextSeq := sp.nextSeq)
    case Cut(p) => sp.(active := TargetOf(cfg, sp, p))
  }

  /** The segments that cannot be decoded any more. */
  function Damage(cfg: Config, sp: SpoolState, m: Mishap): set<nat> {
    match m
    case Cut(p) => {TargetOf(cfg, sp, p).start}
    case _ => {}
  }

  /** The points whose whole lines a failed call left behind. */
  function LeftBehind(points: seq<Point>, m: Mishap): seq<Point> {
    if m.Landed? then points + [m.next] else points
  }

  /** A failed call leaves what a longer successful one would, but for the counter
      and the open segment. */
  lemma FailedAppendDisk(cfg: Config, sp: SpoolState, points: seq<Point>, m: Mishap)
    ensures var sp', whole := AfterMishap(cfg, AppendAll(cfg, sp, points), m), AppendAll(cfg, sp, LeftBehind(points, m));
      && sp'.dir == whole.dir && sp'.checkpoint == whole.checkpoint
      && (m.Landed? ==> sp'.active == whole.active)
      && sp'.nextSeq == sp.nextSeq + |points|
  {
    AppendAllOnDisk(cfg, sp, points);
    if m.Landed? {
      assert (points + [m.next])[..|points|] == points;
    }
  }

  /** The disk after a failed call is in order, and the counter is above it unless the
      line landed. */
  lemma FailedAppendOrdered(cfg: Config, sp: SpoolState, points: seq<Point>, m: Mishap)
    requires SpoolOk(sp) && SeqFresh(sp) && Possible(cfg, AppendAll(cfg, sp, points), m)
    ensures var sp' := AfterMishap(cfg, AppendAll(cfg, sp, points), m);
      SpoolOk(sp') && (SeqFresh(sp') <==> !m.Landed?)
  {
    var mid := AppendAll(cfg, sp, points);
    AppendAllOrdered(cfg, sp, points);
    StartsBelowNext(mid);
    if m.Landed? {
      AppendOneOrdered(cfg, mid, m.next);
      AppendOneOnDisk(cfg, mid, m.next);
      var sp', r := AfterMishap(cfg, mid, m), RecordFor(cfg, mid.nextSeq, m.next);
      assert OnDisk(sp'.dir, r);
      var k :| k in sp'.dir && r in sp'.dir[k];
      assert !AllBelow(sp'.dir[k], sp'.nextSeq);
    }
  }

  /* --------------------- checkpoint and compaction ------------------- */

  /** The checkpoint file after a write of `n` that reported success. */
  function Advanced(c: CheckpointFile, n: nat): CheckpointFile {
    if n <= LastGood(c) then c else Holds(n)
  }

  function MaxInSegment(rs: seq<Record>, start: nat): nat {
    if rs == [] then (if start == 0 then 0 else start - 1) else MaxSeqNo(rs)
  }

  predicate Deletable(sp: SpoolState, k: nat) {
    && k in sp.dir
    && !(sp.active.Open? && sp.active.start == k)
    && k <= LastGood(sp.checkpoint)
    && MaxInSegment(sp.dir[k], k) <= LastGood(sp.checkpoint)
  }

  /** Compaction visits segments in ascending order; `bound` is where an I/O
      error stopped it (any number above the last start if none did). */
  function Compacted(sp: SpoolState, bound: nat): SpoolState {
    sp.(dir := map k | k in sp.dir && !(k < bound && Deletable(sp, k)) :: sp.dir[k])
  }

  /** Compaction preserves meaning: whatever the segments hold and wherever it
      stops, a replay returns the same records. */
  lemma CompactionKeepsReplay(sp: SpoolState, bound: nat)
    ensures Replay(Compacted(sp, bound).dir, LastGood(sp.checkpoint)) == Replay(sp.dir, LastGood(sp.checkpoint))
  {
    var c := LastGood(sp.checkpoint);
    forall k | k in sp.dir && k !in Compacted(sp, bound).dir ensures After(sp.dir[k], c) == [] {
      AfterNone(sp.dir[k], c);
    }
    ReplayWithout(sp.dir, Compacted(sp, bound).dir, c);
  }

  /** On an ordered spool compaction removes, up to where it stops, exactly the closed
      segments whose records have all been committed. */
  lemma CompactionRemovesIff(sp: SpoolState, bound: nat, k: nat)
    requires SpoolOk(sp) && k in sp.dir
    ensures k !in Compacted(sp, bound).dir <==>
      && k < bound && !(sp.active.Open? && sp.active.start == k)
      && forall r :: r in sp.dir[k] ==> r.seqNo <= LastGood(sp.checkpoint)
  {
    assert SegmentOk(k, sp.dir[k]);
    assert sp.dir[k][0] in sp.dir[k];
    MaxSeqNoBounds(sp.dir[k]);
  }

  /** On an ordered spool the deletable segments are a prefix. */
  lemma DeletableIsPrefix(sp: SpoolState, k: nat, earlier: nat)
    requires SpoolOk(sp) && Deletable(sp, k)
    requires earlier in sp.dir && earlier < k
    ensures Deletable(sp, earlier)
  {
    MaxSeqNoOfIncreasing(sp.dir[earlier]);
  }

  lemma CompactionKeepsOrder(sp: SpoolState, bound: nat)
    requires SpoolOk(sp)
    ensures SpoolOk(Compacted(sp, bound))
  {
    OrderedWithout(sp.dir, Compacted(sp, bound).dir);
  }

  lemma CompactionOnlyRemoves(sp: SpoolState, bound: nat)
    ensures forall r: Record :: OnDisk(Compacted(sp, bound).dir, r) ==> OnDisk(sp.dir, r)
  {
    var dir' := Compacted(sp, bound).dir;
    forall r: Record | OnDisk(dir', r) ensures OnDisk(sp.dir, r) {
      var k :| k in dir' && r in dir'[k];
      assert k in sp.dir && r in sp.dir[k];
    }
  }

  /** Nothing above the checkpoint leaves the disk. */
  lemma CompactionKeepsUncommitted(sp: SpoolState, bound: nat, r: Record)
    requires OnDisk(sp.dir, r) && r.seqNo > LastGood(sp.checkpoint)
    ensures OnDisk(Compacted(sp, bound).dir, r)
  {
    var c := LastGood(sp.checkpoint);
    ReplayMembers(sp.dir, c);
    CompactionKeepsReplay(sp, bound);
    ReplayMembers(Compacted(sp, bound).dir, c);
  }

  /* ---------------- the layout over one process life ----------------- */

  datatype SpoolOp = AppendOp(points: seq<Point>) | AdvanceOp(n: nat) | CompactOp(bound: nat) | CloseOp

  function Do(cfg: Config, sp: SpoolState, op: SpoolOp): SpoolState {
    match op
    case AppendOp(points) => AppendAll(cfg, sp, points)
    case AdvanceOp(n) => sp.(checkpoint := Advanced(sp.checkpoint, n))
    case CompactOp(bound) => Compacted(sp, bound)
    case CloseOp => sp.(active := Closed)
  }

  function DoAll(cfg: Config, ops: seq<SpoolOp>): SpoolState {
    if ops == [] then FRESH else Do(cfg, DoAll(cfg, ops[..|ops| - 1]), ops[|ops| - 1])
  }

  /** Everything a list of operations appended, in order. */
  function History(cfg: Config, ops: seq<SpoolOp>): seq<Record> {
    if ops == [] then []
    else
      var before := History(cfg, ops[..|ops| - 1]);
      match ops[|ops| - 1]
      case AppendOp(points) => before + NewRecords(cfg, |before| + 1, points)
      case _ => before
  }

  /** A segment is within the size limit unless a single record fills it. */
  ghost predicate WithinLimit(cfg: Config, dir: Directory) {
    cfg.segmentMaxBytes > 0 ==>
      forall k :: k in dir ==> TotalBytes(cfg.lineBytes, dir[k]) <= cfg.segmentMaxBytes || |dir[k]| == 1
  }

  ghost predicate SizeTracked(cfg: Config, sp: SpoolState) {
    sp.active.Open? ==> sp.active.size == TotalBytes(cfg.lineBytes, Contents(sp.dir, sp.active.start))
  }

  ghost predicate PositiveLines(cfg: Config) {
    forall r :: cfg.lineBytes(r) > 0
  }

  ghost predicate LayoutShape(cfg: Config, sp: SpoolState) {
    SpoolOk(sp) && DiskBelowNext(sp) && SizeTracked(cfg, sp) && WithinLimit(cfg, sp.dir)
  }

  /** The directory, read in start order, is the append history minus a prefix
      that the checkpoint has passed. */
  ghost predicate HoldsHistory(sp: SpoolState, history: seq<Record>, dropped: nat) {
    && sp.nextSeq == |history| + 1
    && (forall i :: 0 <= i < |history| ==> history[i].seqNo == i + 1)
    && dropped <= |history| && dropped <= LastGood(sp.checkpoint)
    && Replay(sp.dir, 0) == history[dropped..]
  }

  lemma AppendOneShape(cfg: Config, sp: SpoolState, p: Point)
    requires LayoutShape(cfg, sp) && PositiveLines(cfg)
    ensures LayoutShape(cfg, AppendOne(cfg, sp, p))
  {
    AppendOneOrdered(cfg, sp, p);
    AppendOneSizes(cfg, sp, p);
  }

  lemma AppendOneSizes(cfg: Config, sp: SpoolState, p: Point)
    requires LayoutShape(cfg, sp) && PositiveLines(cfg)
    ensures SizeTracked(cfg, AppendOne(cfg, sp, p)) && WithinLimit(cfg, AppendOne(cfg, sp, p).dir)
  {
    StartsBelowNext(sp);
    var start := AppendOne(cfg, sp, p).active.start;
    if start in sp.dir { NonEmptyHasBytes(cfg, sp.dir, start); }
    hide Ordered, DiskBelowNext;
    var before, r := Contents(sp.dir, start), RecordFor(cfg, sp.nextSeq, p);
    BytesSnoc(cfg.lineBytes, before, r);
  }

  lemma BytesSnoc(f: Record -> nat, rs: seq<Record>, r: Record)
    ensures TotalBytes(f, rs + [r]) == TotalBytes(f, rs) + f(r)
  {
    assert (rs + [r])[..|rs|] == rs;
  }

  lemma NonEmptyHasBytes(cfg: Config, dir: Directory, k: nat)
    requires Ordered(dir) && PositiveLines(cfg) && k in dir
    ensures TotalBytes(cfg.lineBytes, dir[k]) > 0
  {
    assert SegmentOk(k, dir[k]);
    assert cfg.lineBytes(dir[k][|dir[k]| - 1]) > 0;
  }

  lemma {:induction false} AppendAllShape(cfg: Config, sp: SpoolState, points: seq<Point>)
    requires LayoutShape(cfg, sp) && PositiveLines(cfg)
    ensures LayoutShape(cfg, AppendAll(cfg, sp, points))
  {
    if points != [] {
      AppendAllShape(cfg, sp, points[..|points| - 1]);
      AppendOneShape(cfg, AppendAll(cfg, sp, points[..|points| - 1]), points[|points| - 1]);
    }
  }

  lemma HistoryExtend(sp: SpoolState, sp': SpoolState, added: seq<Record>, history: seq<Record>, dropped: nat)
    requires HoldsHistory(sp, history, dropped)
    requires sp'.nextSeq == sp.nextSeq + |added| && sp'.checkpoint == sp.checkpoint
    requires forall i :: 0 <= i < |added| ==> added[i].seqNo == sp.nextSeq + i
    requires Replay(sp'.dir, 0) == Replay(sp.dir, 0) + added
    ensures HoldsHistory(sp', history + added, dropped)
  {
    assert (history + added)[dropped..] == history[dropped..] + added;
  }

  lemma HistoryAppend(cfg: Config, sp: SpoolState, points: seq<Point>, history: seq<Record>, dropped: nat)
    requires SpoolOk(sp) && DiskBelowNext(sp) && HoldsHistory(sp, history, dropped)
    ensures HoldsHistory(AppendAll(cfg, sp, points), history + NewRecords(cfg, sp.nextSeq, points), dropped)
  {
    hide AppendAll, Replay;
    AppendAllOrdered(cfg, sp, points);
    var sp', added := AppendAll(cfg, sp, points), NewRecords(cfg, sp.nextSeq, points);
    assert forall i :: 0 <= i < |added| ==> added[i].seqNo == sp.nextSeq + i;
    assert sp.nextSeq > 0;
    hide NewRecords, SpoolOk, DiskBelowNext, RecordFor, HoldsHistory;
    AppendAllReplay(cfg, sp, points, 0);
    HistoryExtend(sp, sp', added, history, dropped);
  }

  /** Compaction of an ordered spool keeps exactly the segments from some start on. */
  lemma CompactionCutsPrefix(sp: SpoolState, bound: nat) returns (cut: nat)
    requires SpoolOk(sp)
    ensures Compacted(sp, bound).dir == From(sp.dir, cut)
    ensures forall k :: k in sp.dir && k < cut ==> Deletable(sp, k)
  {
    var gone := set k | k in sp.dir && k < bound && Deletable(sp, k);
    cut := if gone == {} then 0 else MaxKey(gone) + 1;
    forall k | k in sp.dir ensures k < cut <==> k in gone {
      if k < cut && k < cut - 1 { DeletableIsPrefix(sp, cut - 1, k); }
    }
    assert Compacted(sp, bound).dir == From(sp.dir, cut) by {
      assert forall k :: k in sp.dir ==> (k in gone <==> k < bound && Deletable(sp, k));
    }
  }

  lemma HistoryCompact(sp: SpoolState, bound: nat, history: seq<Record>, dropped: nat) returns (dropped': nat)
    requires SpoolOk(sp) && HoldsHistory(sp, history, dropped)
    ensures HoldsHistory(Compacted(sp, bound), history, dropped')
  {
    var cut := CompactionCutsPrefix(sp, bound);
    var gone, left := Replay(Below(sp.dir, cut), 0), Replay(From(sp.dir, cut), 0);
    assert gone + left == history[dropped..] by { ReplaySplit(sp.dir, cut, 0); }
    dropped' := dropped + |gone|;
    SuffixOfSuffix(history, dropped, gone, left);
    if gone != [] {
      assert history[dropped' - 1] in gone;
      DroppedIsCommitted(sp, cut, history[dropped' - 1]);
    }
  }

  lemma SuffixOfSuffix(history: seq<Record>, dropped: nat, gone: seq<Record>, left: seq<Record>)
    requires dropped <= |history| && gone + left == history[dropped..]
    ensures dropped + |gone| <= |history| && left == history[dropped + |gone|..]
    ensures gone != [] ==> history[dropped + |gone| - 1] == gone[|gone| - 1]
  {
    var rest := history[dropped..];
    assert |rest| == |gone| + |left|;
    assert left == rest[|gone|..];
    assert gone != [] ==> rest[|gone| - 1] == gone[|gone| - 1];
  }

  lemma DroppedIsCommitted(sp: SpoolState, cut: nat, r: Record)
    requires r in Replay(Below(sp.dir, cut), 0)
    requires forall k :: k in sp.dir && k < cut ==> Deletable(sp, k)
    ensures r.seqNo <= LastGood(sp.checkpoint)
  {
    ReplayMembers(Below(sp.dir, cut), 0);
    var k :| k in Below(sp.dir, cut) && r in Below(sp.dir, cut)[k];
    MaxSeqNoBounds(sp.dir[k]);
  }

  /** Segment layout in one process life from an empty directory: segments carry
      their own first number, joined in start order they are the contiguous
      append history less a prefix at or below the checkpoint, and each respects
      the size limit or holds one record. */
  lemma {:induction false} LayoutOverLife(cfg: Config, ops: seq<SpoolOp>) returns (dropped: nat)
    requires PositiveLines(cfg)
    ensures LayoutShape(cfg, DoAll(cfg, ops))
    ensures HoldsHistory(DoAll(cfg, ops), History(cfg, ops), dropped)
  {
    if ops == [] {
      dropped := 0;
      assert Replay(FRESH.dir, 0) == [];
    } else {
      var before := ops[..|ops| - 1];
      var sp, history := DoAll(cfg, before), History(cfg, before);
      dropped := LayoutOverLife(cfg, before);
      match ops[|ops| - 1]
      case AppendOp(points) =>
        AppendAllShape(cfg, sp, points);
        HistoryAppend(cfg, sp, points, history, dropped);
      case CompactOp(bound) =>
        dropped := HistoryCompact(sp, bound, history, dropped);
        CompactionKeepsOrder(sp, bound);
      case AdvanceOp(n) =>
      case CloseOp =>
    }
  }

  /* ------------------------------ full segments ------------------------------ */

  /** `k'` is the start of the segment after `k`. */
  ghost predicate Adjacent(starts: set<nat>, k: nat, k': nat) {
    k in starts && k' in starts && k < k' && forall m :: m in starts ==> m <= k || k' <= m
  }

  /** Every segment but the last could not have taken in the next one's first line. */
  ghost predicate FilledUp(cfg: Config, dir: Directory) {
    forall k, k' :: Adjacent(dir.Keys, k, k') && dir[k'] != [] ==> Overfull(cfg, dir[k], dir[k'][0])
  }

  /** Something is on disk only with a segment open. */
  ghost predicate StaysOpen(sp: SpoolState) {
    if sp.active.Closed? then sp.dir == map[] else sp.active.start in sp.dir
  }

  ghost predicate IsLast(starts: set<nat>, k: nat) {
    k in starts && forall m :: m in starts ==> m <= k
  }

  /** `r` does not fit into this segment any more. */
  ghost predicate Overfull(cfg: Config, rs: seq<Record>, r: Record) {
    cfg.segmentMaxBytes > 0 && TotalBytes(cfg.lineBytes, rs) + cfg.lineBytes(r) > cfg.segmentMaxBytes
  }

  lemma LastGrows(cfg: Config, dir: Directory, last: nat, r: Record)
    requires FilledUp(cfg, dir) && IsLast(dir.Keys, last) && dir[last] != []
    ensures FilledUp(cfg, dir[last := dir[last] + [r]])
  {
    hide Overfull;
    var dir' := dir[last := dir[last] + [r]];
    assert dir'.Keys == dir.Keys;
    forall k, k' | Adjacent(dir.Keys, k, k') && dir'[k'] != [] ensures Overfull(cfg, dir'[k], dir'[k'][0]) {
      assert k != last && dir[k'] != [] && dir'[k'][0] == dir[k'][0];
    }
  }

  lemma NewLast(cfg: Config, dir: Directory, start: nat, r: Record)
    requires FilledUp(cfg, dir) && forall k :: k in dir ==> k < start
    requires forall k :: IsLast(dir.Keys, k) ==> Overfull(cfg, dir[k], r)
    ensures FilledUp(cfg, dir[start := [r]])
  {
    hide Overfull;
    var dir' := dir[start := [r]];
    assert dir'.Keys == dir.Keys + {start};
    forall k, k' | Adjacent(dir'.Keys, k, k') && dir'[k'] != [] ensures Overfull(cfg, dir'[k], dir'[k'][0]) {
      assert k in dir.Keys;
      if k' == start {
        assert IsLast(dir.Keys, k);
      } else {
        assert Adjacent(dir.Keys, k, k');
      }
    }
  }

  lemma RolloverFills(cfg: Config, sp: SpoolState, r: Record)
    requires LayoutShape(cfg, sp) && FilledUp(cfg, sp.dir) && StaysOpen(sp)
    requires NeedsNewSegment(cfg, sp.active, cfg.lineBytes(r))
    ensures FilledUp(cfg, sp.dir[sp.nextSeq := [r]]) && sp.nextSeq !in sp.dir
  {
    StartsBelowNext(sp);
    hide FilledUp, Ordered, DiskBelowNext, TotalBytes;
    forall k | IsLast(sp.dir.Keys, k) ensures Overfull(cfg, sp.dir[k], r) {
      assert sp.active.Open? && sp.active.start in sp.dir.Keys;
      assert k == sp.active.start;
    }
    NewLast(cfg, sp.dir, sp.nextSeq, r);
  }

  lemma GrowthFills(cfg: Config, sp: SpoolState, r: Record)
    requires SpoolOk(sp) && FilledUp(cfg, sp.dir) && StaysOpen(sp) && sp.active.Open?
    ensures var start := sp.active.start; FilledUp(cfg, sp.dir[start := sp.dir[start] + [r]])
  {
    assert SegmentOk(sp.active.start, sp.dir[sp.active.start]);
    hide FilledUp, Ordered;
    LastGrows(cfg, sp.dir, sp.active.start, r);
  }

  lemma AppendOneFills(cfg: Config, sp: SpoolState, p: Point)
    requires LayoutShape(cfg, sp) && FilledUp(cfg, sp.dir) && StaysOpen(sp)
    ensures FilledUp(cfg, AppendOne(cfg, sp, p).dir) && StaysOpen(AppendOne(cfg, sp, p))
  {
    var r := RecordFor(cfg, sp.nextSeq, p);
    hide FilledUp, TotalBytes, RecordFor;
    if NeedsNewSegment(cfg, sp.active, cfg.lineBytes(r)) {
      RolloverFills(cfg, sp, r);
      assert [] + [r] == [r];
    } else {
      GrowthFills(cfg, sp, r);
    }
  }

  lemma {:induction false} AppendAllFills(cfg: Config, sp: SpoolState, points: seq<Point>)
    requires LayoutShape(cfg, sp) && FilledUp(cfg, sp.dir) && StaysOpen(sp) && PositiveLines(cfg)
    ensures FilledUp(cfg, AppendAll(cfg, sp, points).dir) && StaysOpen(AppendAll(cfg, sp, points))
  {
    if points != [] {
      var init := points[..|points| - 1];
      AppendAllFills(cfg, sp, init);
      AppendAllShape(cfg, sp, init);
      hide LayoutShape, FilledUp, StaysOpen, AppendOne;
      AppendOneFills(cfg, AppendAll(cfg, sp, init), points[|points| - 1]);
    }
  }

  lemma CompactionFills(cfg: Config, sp: SpoolState, bound: nat)
    requires SpoolOk(sp) && FilledUp(cfg, sp.dir) && StaysOpen(sp)
    ensures FilledUp(cfg, Compacted(sp, bound).dir) && StaysOpen(Compacted(sp, bound))
  {
    var cut := CompactionCutsPrefix(sp, bound);
    var dir := Compacted(sp, bound).dir;
    forall k, k' | Adjacent(dir.Keys, k, k') ensures Adjacent(sp.dir.Keys, k, k') {
      forall m | m in sp.dir ensures m <= k || k' <= m {
        if m >= cut { assert m in dir; }
      }
    }
  }

  /** Segments roll over only when they must: as long as a process appends, advances and
      compacts, each segment but the last was too full for the next line. */
  lemma {:induction false} SegmentsAreFull(cfg: Config, ops: seq<SpoolOp>)
    requires PositiveLines(cfg) && forall k :: 0 <= k < |ops| ==> !ops[k].CloseOp?
    ensures FilledUp(cfg, DoAll(cfg, ops).dir) && StaysOpen(DoAll(cfg, ops))
  {
    if ops != [] {
      var before := ops[..|ops| - 1];
      var dropped := LayoutOverLife(cfg, before);
      SegmentsAreFull(cfg, before);
      match ops[|ops| - 1]
      case AppendOp(points) => AppendAllFills(cfg, DoAll(cfg, before), points);
      case CompactOp(bound) => CompactionFills(cfg, DoAll(cfg, before), bound);
      case AdvanceOp(n) =>
    }
  }
}
