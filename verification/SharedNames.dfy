/** What keeps the points of different users apart on their way to the database. The
    buffer remembers devices by name alone, and a point is known by a digest of its
    payload, while the tables tell users apart. This module proves exactly for which
    registered devices that goes well. */
module SharedNames {
  import opened Ingest
  import opened Buffer
  import opened Spool
  import opened Pipeline
  import opened PipelineBounds
  import opened PipelineSafety
  import opened PipelineProgress
  import opened PipelineLimits
  import Store

  /** A row of the devices table: whose it is and what it is called. */
  datatype Owner = Owner(userId: int, name: string)

  /** What a request body says, whoever sends it. */
  datatype Body = Body(sourceType: string, timestamp: int, lat: real, lon: real, payload: string)

  /** The point a handler makes of a body: the authenticated device names user and
      device, and the digest of the payload is its identity. */
  function PointOf(o: Owner, b: Body, digest: string -> string): Point {
    Point(o.userId, o.name, b.sourceType, b.timestamp, b.lat, b.lon, b.payload, digest(b.payload))
  }

  function OwnerOf(r: Record): Owner {
    Owner(r.point.userId, r.deviceId)
  }

  /** All requests of the run come from registered devices. */
  ghost predicate Feeds(devices: set<Owner>, digest: string -> string, steps: seq<Step>) {
    forall k, p :: 0 <= k < |steps| && steps[k].Append? && p in steps[k].points ==>
      Owner(p.userId, p.deviceId) in devices && p.hash == digest(p.payload)
  }

  /** No two users have a device of the same name. */
  ghost predicate NamesAreOwned(devices: set<Owner>) {
    forall a, b :: a in devices && b in devices && a.name == b.name ==> a.userId == b.userId
  }

  ghost predicate OneUser(devices: set<Owner>) {
    forall a, b :: a in devices && b in devices ==> a.userId == b.userId
  }

  /* ---------------------- where records come from ------------------------- */

  ghost predicate AllFrom(devices: set<Owner>, rs: seq<Record>) {
    forall r :: r in rs ==> OwnerOf(r) in devices
  }

  ghost predicate Registered(devices: set<Owner>, s: State) {
    && (forall r :: OnDisk(s.spool.dir, r) ==> OwnerOf(r) in devices)
    && (forall r :: r in s.issued ==> OwnerOf(r) in devices)
    && AllFrom(devices, s.recovering) && AllFrom(devices, s.accepted)
    && (forall i :: 0 <= i < |s.pending| ==> AllFrom(devices, s.pending[i]))
  }

  lemma FilterKeepsOwners(cfg: Config, devices: set<Owner>, rs: seq<Record>, last: map<string, DedupeState>)
    requires AllFrom(devices, rs)
    ensures AllFrom(devices, Filter(cfg, rs, last).out)
  {
    FilterShape(cfg, rs, last);
    var out := Filter(cfg, rs, last).out;
    forall e | e in out ensures OwnerOf(e) in devices {
      var i :| 0 <= i < |out| && out[i] == e;
      assert rs[i] in rs;
    }
  }

  lemma AppendKeepsOwners(cfg: Config, devices: set<Owner>, s: State, points: seq<Point>)
    requires Registered(devices, s) && Enabled(cfg, s, Append(points))
    requires forall p :: p in points ==> Owner(p.userId, p.deviceId) in devices
    ensures Registered(devices, Apply(cfg, s, Append(points)))
  {
    var s', rs := Apply(cfg, s, Append(points)), NewRecords(cfg, s.spool.nextSeq, points);
    AppendAllOnDisk(cfg, s.spool, points);
    forall r | r in rs ensures OwnerOf(r) in devices {
      var i :| 0 <= i < |rs| && rs[i] == r;
      assert points[i] in points;
    }
    assert forall i :: 0 <= i < |s'.pending| ==> s'.pending[i] in s.pending || s'.pending[i] == rs;
  }

  lemma StepKeepsOwners(cfg: Config, devices: set<Owner>, s: State, step: Step)
    requires Registered(devices, s) && Enabled(cfg, s, step)
    requires step.Append? ==> forall p :: p in step.points ==> Owner(p.userId, p.deviceId) in devices
    ensures Registered(devices, Apply(cfg, s, step))
  {
    match step
    case Append(points) => AppendKeepsOwners(cfg, devices, s, points);
    case Enqueue(i) =>
      FilterKeepsOwners(cfg, devices, s.pending[i], s.buffer.last);
      var s' := Apply(cfg, s, step);
      assert forall k :: 0 <= k < |s'.pending| ==> s'.pending[k] in s.pending;
    case Reload(n) => FilterKeepsOwners(cfg, devices, s.recovering[..n], s.buffer.last);
    case Restart(_) => ReplayMembers(s.spool.dir, LastGood(s.spool.checkpoint));
    case Compact(bound) => CompactionOnlyRemoves(s.spool, bound);
    case _ =>
  }

  lemma {:induction false} RunKeepsOwners(cfg: Config, devices: set<Owner>, digest: string -> string,
                                          s: State, steps: seq<Step>)
    requires Registered(devices, s) && Feeds(devices, digest, steps) && Exec(cfg, s, steps).Some?
    ensures Registered(devices, Exec(cfg, s, steps).value)
    decreases |steps|
  {
    hide Registered, Apply, Enabled;
    if steps != [] {
      StepKeepsOwners(cfg, devices, s, steps[0]);
      assert forall k :: 0 <= k < |steps[1..]| ==> steps[1..][k] == steps[k + 1];
      RunKeepsOwners(cfg, devices, digest, Apply(cfg, s, steps[0]), steps[1..]);
    }
  }

  lemma RunIsRegistered(cfg: Config, devices: set<Owner>, digest: string -> string, steps: seq<Step>)
    requires Feeds(devices, digest, steps) && Exec(cfg, INIT, steps).Some?
    ensures Registered(devices, Exec(cfg, INIT, steps).value)
  {
    assert Registered(devices, INIT);
    RunKeepsOwners(cfg, devices, digest, INIT, steps);
  }

  /* ----------------------------- suppression ------------------------------ */

  /** Every suppressed record was made redundant by one of the same user. */
  ghost predicate OwnSuppressors(acc: seq<Record>) {
    forall k, i :: PreviousRetained(acc, k, i) && acc[i].checkpointOnly ==> acc[k].point.userId == acc[i].point.userId
  }

  ghost predicate SuppressionKeepsUsersApart(cfg: Config, devices: set<Owner>, digest: string -> string) {
    forall steps :: Feeds(devices, digest, steps) && Exec(cfg, INIT, steps).Some? ==>
      OwnSuppressors(Exec(cfg, INIT, steps).value.accepted)
  }

  lemma OwnNamesSuppressOwn(cfg: Config, devices: set<Owner>, digest: string -> string)
    requires NamesAreOwned(devices)
    ensures SuppressionKeepsUsersApart(cfg, devices, digest)
  {
    forall steps | Feeds(devices, digest, steps) && Exec(cfg, INIT, steps).Some?
      ensures OwnSuppressors(Exec(cfg, INIT, steps).value.accepted)
    {
      var acc := Exec(cfg, INIT, steps).value.accepted;
      RunIsRegistered(cfg, devices, digest, steps);
      forall k, i | PreviousRetained(acc, k, i) ensures acc[k].point.userId == acc[i].point.userId {
        assert acc[k] in acc && acc[i] in acc;
        assert OwnerOf(acc[k]) in devices && OwnerOf(acc[i]) in devices;
      }
    }
  }

  /** Two records of one device name, close together, whoever they belong to. */
  ghost predicate Collide(cfg: Config, a: Record, b: Record) {
    && DedupeOn(cfg) && !a.checkpointOnly && !b.checkpointOnly
    && a.deviceId == b.deviceId && CloseTo(cfg, StateOf(a), b)
  }

  ghost predicate RoomForTwo(cfg: Config, a: Record, b: Record) {
    cfg.batchSize > 0 && cfg.maxPoints >= 2 && cfg.lineBytes(a) + cfg.lineBytes(Marker(b)) <= cfg.maxBytes
  }

  function Remembers(a: Record): map<string, DedupeState> {
    map[a.deviceId := StateOf(a)]
  }

  lemma FirstIsKept(cfg: Config, a: Record, b: Record)
    requires Collide(cfg, a, b) && RoomForTwo(cfg, a, b)
    ensures EnqueueDecision(cfg, EMPTY, [a]).Accepted?
    ensures Enqueued(cfg, EMPTY, [a]) == BufferState([a], Remembers(a))
  {
    assert [a][..0] == [];
    assert FilterAll(cfg, [], map[]) == FilterResult([], map[]);
    assert TotalBytes(cfg.lineBytes, []) == 0;
    assert [] + [a] == [a];
  }

  lemma FilteredToMarker(cfg: Config, a: Record, b: Record)
    requires Collide(cfg, a, b)
    ensures Filter(cfg, [b], Remembers(a)) == FilterResult([Marker(b)], Remembers(a))
  {
    assert [b][..0] == [];
    assert FilterAll(cfg, [], Remembers(a)) == FilterResult([], Remembers(a));
    assert IsNearDuplicate(cfg, b, Remembers(a));
  }

  lemma BytesOfOne(f: Record -> nat, r: Record)
    ensures TotalBytes(f, [r]) == f(r)
  {
    assert [r][..0] == [];
    assert TotalBytes(f, []) == 0;
  }

  lemma SecondIsMarked(cfg: Config, a: Record, b: Record)
    requires Collide(cfg, a, b) && RoomForTwo(cfg, a, b)
    ensures EnqueueDecision(cfg, BufferState([a], Remembers(a)), [b]).Accepted?
    ensures Enqueued(cfg, BufferState([a], Remembers(a)), [b]).queue == [a, Marker(b)]
  {
    FilteredToMarker(cfg, a, b);
    BytesOfOne(cfg.lineBytes, a);
    BytesOfOne(cfg.lineBytes, Marker(b));
    hide Filter, TotalBytes, Remembers, Collide, Marker;
    assert [a] + [Marker(b)] == [a, Marker(b)];
  }

  function TwoRequests(p: Point, q: Point): seq<Step> {
    [Append([p]), Enqueue(0)] + [Append([q]), Enqueue(0)]
  }

  /** A request of each of the two users ... */
  lemma RequestOfEach(cfg: Config, p: Point, q: Point) returns (s: State)
    requires Collide(cfg, RecordFor(cfg, 1, p), RecordFor(cfg, 2, q))
    requires RoomForTwo(cfg, RecordFor(cfg, 1, p), RecordFor(cfg, 2, q))
    ensures Exec(cfg, INIT, TwoRequests(p, q)) == Some(s)
    ensures s.up && s.spool.checkpoint == Absent && s.tables == Store.NO_ROWS && s.written == {} && s.flushed == []
    ensures InRam(s) == [RecordFor(cfg, 1, p), Marker(RecordFor(cfg, 2, q))]
    ensures s.acked == {RecordFor(cfg, 1, p), RecordFor(cfg, 2, q)}
  {
    var a, b := RecordFor(cfg, 1, p), RecordFor(cfg, 2, q);
    hide Exec, Collide, RoomForTwo, EnqueueDecision, Enqueued;
    FirstIsKept(cfg, a, b);
    var t := IngestAccepted(cfg, INIT, p);
    SecondIsMarked(cfg, a, b);
    s := IngestAccepted(cfg, t, q);
    ExecConcat(cfg, INIT, [Append([p]), Enqueue(0)], [Append([q]), Enqueue(0)]);
    assert [] + s.buffer.queue == s.buffer.queue;
  }

  lemma RequestsKeep(cfg: Config, p: Point, q: Point)
    requires Exec(cfg, INIT, TwoRequests(p, q)).Some?
    ensures Inv(cfg, Exec(cfg, INIT, TwoRequests(p, q)).value)
  {
    hide Exec, Inv;
    var steps := TwoRequests(p, q);
    assert steps == [Append([p]), Enqueue(0), Append([q]), Enqueue(0)];
    OneLifeCrashSafety(cfg, steps);
    RunIsInv(cfg, steps);
  }

  lemma FlushTwo(cfg: Config, t: State, a: Record, b: Record) returns (flush: seq<Step>, s: State)
    requires Inv(cfg, t) && t.up && cfg.batchSize > 0 && t.spool.checkpoint == Absent
    requires t.tables == Store.NO_ROWS && t.written == {} && InRam(t) == [a, Marker(b)]
    requires a.point.hash != b.point.hash
    ensures Exec(cfg, t, flush) == Some(s) && InRam(s) == [] && s.acked == t.acked && s.written <= {a}
    ensures b.seqNo <= LastGood(s.spool.checkpoint) && b.point.hash !in Store.Hashes(s.tables.raw)
  {
    assert Flushable(cfg, t);
    assert Marker(b) in InRam(t) && !KeptHash(InRam(t), b.point.hash);
    assert Store.Hashes(t.tables.raw) == {};
    hide Exec, Inv, Flushable, Store.Hashes, KeptHash;
    flush, s := FlushAll(cfg, t);
  }

  /** ... after a flush: both points are acknowledged and behind the checkpoint, and
      nothing of the second user was ever written. */
  lemma NeighbourIsDropped(cfg: Config, p: Point, q: Point) returns (steps: seq<Step>, s: State)
    requires p.userId != q.userId
    requires Collide(cfg, RecordFor(cfg, 1, p), RecordFor(cfg, 2, q))
    requires RoomForTwo(cfg, RecordFor(cfg, 1, p), RecordFor(cfg, 2, q))
    requires RecordFor(cfg, 1, p).point.hash != RecordFor(cfg, 2, q).point.hash
    ensures Exec(cfg, INIT, steps) == Some(s) && InRam(s) == []
    ensures RecordFor(cfg, 2, q) in s.acked && 2 <= LastGood(s.spool.checkpoint)
    ensures RecordFor(cfg, 2, q).point.hash !in Store.Hashes(s.tables.raw)
    ensures forall w :: w in s.written ==> w.point.userId != q.userId
  {
    var a, b := RecordFor(cfg, 1, p), RecordFor(cfg, 2, q);
    hide Exec, Collide, RoomForTwo;
    var t := RequestOfEach(cfg, p, q);
    RequestsKeep(cfg, p, q);
    var flush;
    flush, s := FlushTwo(cfg, t, a, b);
    steps := TwoRequests(p, q) + flush;
    ExecConcat(cfg, INIT, TwoRequests(p, q), flush);
  }

  /** A body that every pair of the registered devices could send one after the other,
      close enough to itself to be a near duplicate. */
  ghost predicate Sendable(cfg: Config, devices: set<Owner>, digest: string -> string, body: Body) {
    && body.timestamp != ZERO_TIME && digest(body.payload) != ""
    && cfg.distance(body.lat, body.lon, body.lat, body.lon) <= cfg.dedupeDistance
    && forall a, b :: a in devices && b in devices ==>
         RoomForTwo(cfg, RecordFor(cfg, 1, PointOf(a, body, digest)), RecordFor(cfg, 2, PointOf(b, body, digest)))
  }

  lemma RequestsFeed(devices: set<Owner>, digest: string -> string, a: Owner, b: Owner, body: Body)
    requires a in devices && b in devices
    ensures Feeds(devices, digest, TwoRequests(PointOf(a, body, digest), PointOf(b, body, digest)))
  {
    var p, q := PointOf(a, body, digest), PointOf(b, body, digest);
    assert TwoRequests(p, q) == [Append([p]), Enqueue(0), Append([q]), Enqueue(0)];
  }

  /** One body sent by two users under one name: the second is a marker of the first. */
  lemma SharedNameSuppresses(cfg: Config, devices: set<Owner>, digest: string -> string, a: Owner, b: Owner, body: Body)
    requires DedupeOn(cfg) && Sendable(cfg, devices, digest, body)
    requires a in devices && b in devices && a.name == b.name && a.userId != b.userId
    ensures !SuppressionKeepsUsersApart(cfg, devices, digest)
  {
    var p, q := PointOf(a, body, digest), PointOf(b, body, digest);
    RequestsFeed(devices, digest, a, b, body);
    assert Collide(cfg, RecordFor(cfg, 1, p), RecordFor(cfg, 2, q));
    hide Exec, Collide, RoomForTwo, Feeds;
    var s := RequestOfEach(cfg, p, q);
    FifoConservation(cfg, TwoRequests(p, q));
    assert s.accepted == [RecordFor(cfg, 1, p), Marker(RecordFor(cfg, 2, q))] by {
      assert s.flushed + BatchOf(s.flight) + s.buffer.queue == InRam(s);
    }
    assert PreviousRetained(s.accepted, 0, 1);
  }

  /** Suppression never mixes users, in any run fed by the registered devices, if and
      only if no two users registered the same device name. */
  lemma OwnSuppressorIff(cfg: Config, devices: set<Owner>, digest: string -> string, body: Body)
    requires DedupeOn(cfg) && Sendable(cfg, devices, digest, body)
    ensures SuppressionKeepsUsersApart(cfg, devices, digest) <==> NamesAreOwned(devices)
  {
    if NamesAreOwned(devices) {
      OwnNamesSuppressOwn(cfg, devices, digest);
    } else {
      var a, b :| a in devices && b in devices && a.name == b.name && a.userId != b.userId;
      SharedNameSuppresses(cfg, devices, digest, a, b, body);
    }
  }

  /* ------------------------------- the rows ------------------------------- */

  /** The record's hash has a row, and the row is its user's. */
  ghost predicate OwnRow(s: State, r: Record) {
    exists i :: 0 <= i < |s.tables.raw| && s.tables.raw[i].hash == r.point.hash
      && s.tables.raw[i].userId == Store.OwnerOf(r)
  }

  /** The user's own data accounts for the record: its row, or the row of an earlier
      retained near duplicate of the same user. */
  ghost predicate OwnCovered(cfg: Config, s: State, r: Record) {
    || OwnRow(s, r)
    || exists w :: w in s.written && Suppresses(cfg, w, r) && Store.OwnerOf(w) == Store.OwnerOf(r) && OwnRow(s, w)
  }

  /** What every acknowledgement behind the checkpoint should mean to its user. */
  ghost predicate UsersKeepTheirs(cfg: Config, s: State) {
    forall r :: r in s.acked && r.seqNo <= LastGood(s.spool.checkpoint) ==> OwnCovered(cfg, s, r)
  }

  ghost predicate RunsKeepTheirs(cfg: Config, devices: set<Owner>, digest: string -> string) {
    forall steps :: Feeds(devices, digest, steps) && OrderlyRun(cfg, INIT, steps) && Exec(cfg, INIT, steps).Some? ==>
      UsersKeepTheirs(cfg, Exec(cfg, INIT, steps).value)
  }

  lemma RowOfOneUser(devices: set<Owner>, s: State, r: Record)
    requires OneUser(devices) && Registered(devices, s) && TablesOk(s) && s.written <= s.issued && r in s.issued
    requires r.point.hash in Store.Hashes(s.tables.raw)
    ensures OwnRow(s, r)
  {
    var i :| 0 <= i < |s.tables.raw| && s.tables.raw[i].hash == r.point.hash;
    var row := s.tables.raw[i];
    assert RowFromWritten(s, row);
    var w :| w in s.written && w.seqNo == row.seqNo && w.point.hash == row.hash && Store.OwnerOf(w) == row.userId;
    assert OwnerOf(w) in devices && OwnerOf(r) in devices;
  }

  lemma OneUserKeeps(cfg: Config, devices: set<Owner>, s: State)
    requires OneUser(devices) && Registered(devices, s) && Inv(cfg, s)
    ensures UsersKeepTheirs(cfg, s)
  {
    forall r | r in s.acked && r.seqNo <= LastGood(s.spool.checkpoint) ensures OwnCovered(cfg, s, r) {
      assert Covered(cfg, s, r);
      if r.point.hash in Store.Hashes(s.tables.raw) {
        RowOfOneUser(devices, s, r);
      } else {
        var w :| w in s.written && Suppresses(cfg, w, r) && w.point.hash in Store.Hashes(s.tables.raw);
        RowOfOneUser(devices, s, w);
        assert OwnerOf(w) in devices && OwnerOf(r) in devices;
      }
    }
  }

  /** The second of two equal hashes is flushed, itself or as a marker, and leaves no
      row. */
  lemma SecondLeavesNoRow(cfg: Config, s: State, a: Record, b: Record)
    requires s.up && s.flight.Idle? && (s.buffer.queue == [b] || s.buffer.queue == [Marker(b)]) && cfg.batchSize >= 1
    requires !b.checkpointOnly && s.spool.checkpoint == Holds(a.seqNo) && a.seqNo < b.seqNo
    requires s.tables == Store.InsertOne(Store.NO_ROWS, a) && a.point.hash == b.point.hash
    ensures var e := Exec(cfg, s, FLUSH_STEPS);
      && e.Some? && e.value.tables.raw == s.tables.raw && e.value.acked == s.acked
      && e.value.spool.checkpoint == Holds(b.seqNo)
  {
    Store.InsertOneHashes(Store.NO_ROWS, a);
    if s.buffer.queue == [b] {
      FlushSingle(cfg, s, b);
    } else {
      FlushMarker(cfg, s, Marker(b));
    }
  }

  lemma FlushMarker(cfg: Config, s: State, m: Record)
    requires s.up && s.flight.Idle? && s.buffer.queue == [m] && m.checkpointOnly && cfg.batchSize >= 1
    requires !s.spool.checkpoint.Torn? && m.seqNo > LastGood(s.spool.checkpoint)
    ensures var e := Exec(cfg, s, FLUSH_STEPS);
      && e.Some? && e.value.tables == s.tables && e.value.acked == s.acked
      && e.value.spool.checkpoint == Holds(m.seqNo)
  {
    hide Exec;
    DrainSingle(cfg, s, m);
    var s1 := Apply(cfg, s, Drain);
    CommitMarker(cfg, s1, m);
    var s2 := Apply(cfg, s1, CommitOk);
    CheckpointSingle(cfg, s2, m);
    Exec2(cfg, s1, CommitOk, CheckpointOk);
    assert FLUSH_STEPS == [Drain] + [CommitOk, CheckpointOk];
    ExecCons(cfg, s, Drain, [CommitOk, CheckpointOk]);
  }

  lemma CommitMarker(cfg: Config, s: State, m: Record)
    requires s.flight == Drained([m]) && m.checkpointOnly
    ensures Enabled(cfg, s, CommitOk)
    ensures Apply(cfg, s, CommitOk) == s.(flight := Committed([m], m.seqNo))
  {
    assert [m][..0] == [];
    assert Writes([]) == [] && Writes([m]) == [];
    assert Members([]) == {};
    assert MaxSeqNo([]) == 0 && MaxSeqNo([m]) == m.seqNo;
    assert Store.InsertAll(s.tables, []) == s.tables && Store.Insertable(s.tables, []);
  }

  function TwoFlushes(p: Point, q: Point): seq<Step> {
    [Append([p]), Enqueue(0)] + FLUSH_STEPS + [Append([q]), Enqueue(0)] + FLUSH_STEPS
  }

  /** Two requests with one hash, each flushed: the second has no row of its own. */
  lemma SameHashOneRow(cfg: Config, p: Point, q: Point) returns (s: State)
    requires Fits(cfg, RecordFor(cfg, 1, p)) && Fits(cfg, RecordFor(cfg, 2, q))
    requires RecordFor(cfg, 1, p).point.hash == RecordFor(cfg, 2, q).point.hash
    ensures Exec(cfg, INIT, TwoFlushes(p, q)) == Some(s)
    ensures RecordFor(cfg, 2, q) in s.acked && s.spool.checkpoint == Holds(2)
    ensures |s.tables.raw| == 1 && s.tables.raw[0].userId == Store.OwnerOf(RecordFor(cfg, 1, p))
  {
    var a, b := RecordFor(cfg, 1, p), RecordFor(cfg, 2, q);
    var first := [Append([p]), Enqueue(0)] + FLUSH_STEPS;
    IngestAndFlush(cfg, p);
    var t := Exec(cfg, INIT, first).value;
    assert Store.Hashes(Store.NO_ROWS.raw) == {};
    assert Store.InsertOne(Store.NO_ROWS, a).raw == [Store.RowFor(a, 1)];
    hide Exec, Fits, Store.InsertOne;
    SingleIsAccepted(cfg, t.buffer, b);
    var u := IngestAccepted(cfg, t, q);
    SecondLeavesNoRow(cfg, u, a, b);
    s := Exec(cfg, u, FLUSH_STEPS).value;
    ExecConcat(cfg, INIT, first, [Append([q]), Enqueue(0)]);
    ExecConcat(cfg, INIT, first + [Append([q]), Enqueue(0)], FLUSH_STEPS);
  }

  lemma FlushesAreOrderly(cfg: Config, devices: set<Owner>, digest: string -> string, a: Owner, b: Owner, body: Body)
    requires a in devices && b in devices
    requires Exec(cfg, INIT, TwoFlushes(PointOf(a, body, digest), PointOf(b, body, digest))).Some?
    ensures var steps := TwoFlushes(PointOf(a, body, digest), PointOf(b, body, digest));
      Feeds(devices, digest, steps) && OrderlyRun(cfg, INIT, steps)
  {
    hide Exec, OrderlyRun;
    var p, q := PointOf(a, body, digest), PointOf(b, body, digest);
    assert TwoFlushes(p, q) == [Append([p]), Enqueue(0), Drain, CommitOk, CheckpointOk,
                                Append([q]), Enqueue(0), Drain, CommitOk, CheckpointOk];
    OneLifeCrashSafety(cfg, TwoFlushes(p, q));
  }

  /** One body sent by two users: the second is told it is safe, and nothing of it is
      theirs. */
  lemma SharedBodyDrops(cfg: Config, devices: set<Owner>, digest: string -> string, a: Owner, b: Owner, body: Body)
    requires a in devices && b in devices && a.userId != b.userId && a.userId > 0 && b.userId > 0
    requires digest(body.payload) != ""
    requires Fits(cfg, RecordFor(cfg, 1, PointOf(a, body, digest)))
    requires Fits(cfg, RecordFor(cfg, 2, PointOf(b, body, digest)))
    ensures !RunsKeepTheirs(cfg, devices, digest)
  {
    var p, q := PointOf(a, body, digest), PointOf(b, body, digest);
    var r := RecordFor(cfg, 2, q);
    hide Exec, OrderlyRun, Fits, Feeds;
    var s := SameHashOneRow(cfg, p, q);
    FlushesAreOrderly(cfg, devices, digest, a, b, body);
    OtherRowOnly(cfg, s, r);
    hide OwnCovered;
  }

  lemma OtherRowOnly(cfg: Config, s: State, r: Record)
    requires |s.tables.raw| == 1 && s.tables.raw[0].userId != Store.OwnerOf(r)
    ensures !OwnCovered(cfg, s, r)
  {
  }

  /** Every acknowledged record behind the checkpoint is in the database under its own
      user, or suppressed by one that is, in all orderly runs fed by the registered
      devices, if and only if they all belong to one user: the digest that identifies
      a point covers its payload only. */
  lemma OwnRowIff(cfg: Config, devices: set<Owner>, digest: string -> string, body: Body)
    requires forall o :: o in devices ==> o.userId > 0
    requires digest(body.payload) != ""
    requires forall o :: o in devices ==>
      Fits(cfg, RecordFor(cfg, 1, PointOf(o, body, digest))) && Fits(cfg, RecordFor(cfg, 2, PointOf(o, body, digest)))
    ensures RunsKeepTheirs(cfg, devices, digest) <==> OneUser(devices)
  {
    if OneUser(devices) {
      forall steps | Feeds(devices, digest, steps) && OrderlyRun(cfg, INIT, steps) && Exec(cfg, INIT, steps).Some?
        ensures UsersKeepTheirs(cfg, Exec(cfg, INIT, steps).value)
      {
        RunIsRegistered(cfg, devices, digest, steps);
        RunIsInv(cfg, steps);
        OneUserKeeps(cfg, devices, Exec(cfg, INIT, steps).value);
      }
    } else {
      var a, b :| a in devices && b in devices && a.userId != b.userId;
      SharedBodyDrops(cfg, devices, digest, a, b, body);
    }
  }
}
