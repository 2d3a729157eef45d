/** The durable tables behind the pipeline: `raw_points` keyed by ingest hash,
    its derived `points`, and `devices`. Row ids are positions plus one. */
module Store {
  import opened Ingest
  import opened Text

  datatype RawRow = RawRow(
    seqNo: nat,
    userId: int,
    device: nat,
    sourceType: string,
    timestamp: int,
    lat: real,
    lon: real,
    payload: string,
    hash: string)

  datatype PointRow = PointRow(rawId: nat, userId: int, device: nat, timestamp: int, lat: real, lon: real)

  datatype DeviceRow = DeviceRow(userId: int, name: string, sourceType: string, lastSeq: nat)

  datatype Tables = Tables(raw: seq<RawRow>, points: seq<PointRow>, devices: seq<DeviceRow>)

  const NO_ROWS := Tables([], [], [])

  const DEFAULT_USER: int := 1

  function OwnerOf(r: Record): int {
    if r.point.userId > 0 then r.point.userId else DEFAULT_USER
  }

  function DeviceName(r: Record): string {
    var name := TrimSpace(r.deviceId);
    if name == "" then "unknown-device" else name
  }

  function SourceType(r: Record): string {
    var source := TrimSpace(r.point.sourceType);
    if source == "" then "unknown" else source
  }

  function Hashes(raw: seq<RawRow>): set<string> {
    set i | 0 <= i < |raw| :: raw[i].hash
  }

  function SeqNos(raw: seq<RawRow>): set<nat> {
    set i | 0 <= i < |raw| :: raw[i].seqNo
  }

  predicate Owns(d: DeviceRow, r: Record) {
    d.userId == OwnerOf(r) && d.name == DeviceName(r)
  }

  /** The first matching device row, or the end of the table. */
  function FindDevice(devices: seq<DeviceRow>, r: Record): (i: nat)
    ensures i <= |devices|
    ensures i < |devices| ==> Owns(devices[i], r)
    ensures forall j :: 0 <= j < i ==> !Owns(devices[j], r)
  {
    if devices == [] || Owns(devices[0], r) then 0 else 1 + FindDevice(devices[1..], r)
  }

  function EnsureDevice(devices: seq<DeviceRow>, r: Record): seq<DeviceRow> {
    if FindDevice(devices, r) < |devices| then devices
    else devices + [DeviceRow(OwnerOf(r), DeviceName(r), SourceType(r), 0)]
  }

  function Bump(devices: seq<DeviceRow>, i: nat, seqNo: nat): seq<DeviceRow>
    requires i < |devices|
  {
    if devices[i].lastSeq < seqNo then devices[i := devices[i].(lastSeq := seqNo)] else devices
  }

  function RowFor(r: Record, device: nat): RawRow {
    RawRow(r.seqNo, OwnerOf(r), device, SourceType(r), r.point.timestamp, r.point.lat, r.point.lon,
           r.point.payload, r.point.hash)
  }

  function PointFor(row: RawRow, rawId: nat): PointRow {
    PointRow(rawId, row.userId, row.device, row.timestamp, row.lat, row.lon)
  }

  /** A known hash is skipped; a new hash under a used sequence number violates
      the uniqueness of `raw_points.seq` and aborts the transaction. */
  predicate Conflicts(t: Tables, r: Record) {
    r.point.hash !in Hashes(t.raw) && r.seqNo in SeqNos(t.raw)
  }

  function InsertOne(t: Tables, r: Record): Tables {
    var device := FindDevice(t.devices, r);
    var devices := Bump(EnsureDevice(t.devices, r), device, r.seqNo);
    if r.point.hash in Hashes(t.raw) then t.(devices := devices)
    else
      var row := RowFor(r, device + 1);
      Tables(t.raw + [row], t.points + [PointFor(row, |t.raw| + 1)], devices)
  }

  function InsertAll(t: Tables, rs: seq<Record>): Tables {
    if rs == [] then t else InsertOne(InsertAll(t, rs[..|rs| - 1]), rs[|rs| - 1])
  }

  /** Whether the whole batch passes the constraints. */
  predicate Insertable(t: Tables, rs: seq<Record>) {
    rs != [] ==>
      var init := rs[..|rs| - 1];
      Insertable(t, init) && !Conflicts(InsertAll(t, init), rs[|rs| - 1])
  }

  /** An insertable batch is insertable record by record. */
  lemma {:induction false} InsertablePrefix(t: Tables, rs: seq<Record>, i: nat)
    requires Insertable(t, rs) && i < |rs|
    ensures !Conflicts(InsertAll(t, rs[..i]), rs[i])
  {
    hide Conflicts, InsertOne, InsertAll;
    var n := |rs| - 1;
    if i < n {
      InsertablePrefix(t, rs[..n], i);
      assert rs[..n][..i] == rs[..i];
    }
  }

  /* ------------------------- what the tables keep ------------------------ */

  /** Hashes and sequence numbers are unique, and `points` mirrors `raw_points`
      row for row. */
  ghost predicate Consistent(t: Tables) {
    && (forall i, j :: 0 <= i < j < |t.raw| ==> t.raw[i].hash != t.raw[j].hash)
    && (forall i, j :: 0 <= i < j < |t.raw| ==> t.raw[i].seqNo != t.raw[j].seqNo)
    && |t.points| == |t.raw|
    && (forall i :: 0 <= i < |t.raw| ==> t.points[i] == PointFor(t.raw[i], i + 1))
  }

  lemma InsertOneKeeps(t: Tables, r: Record)
    requires Consistent(t) && !Conflicts(t, r)
    ensures Consistent(InsertOne(t, r))
  {
  }

  lemma {:induction false} InsertAllKeeps(t: Tables, rs: seq<Record>)
    requires Consistent(t) && Insertable(t, rs)
    ensures Consistent(InsertAll(t, rs))
  {
    if rs != [] {
      InsertAllKeeps(t, rs[..|rs| - 1]);
      InsertOneKeeps(InsertAll(t, rs[..|rs| - 1]), rs[|rs| - 1]);
    }
  }

  /** The table already reflects the record: nothing is left to change. */
  predicate Reflects(t: Tables, r: Record) {
    var i := FindDevice(t.devices, r);
    r.point.hash in Hashes(t.raw) && i < |t.devices| && r.seqNo <= t.devices[i].lastSeq
  }

  /** Rows are never rewritten: tables only grow, and device marks only rise. */
  ghost predicate Extends(t: Tables, t': Tables) {
    && t.raw <= t'.raw && t.points <= t'.points
    && |t.devices| <= |t'.devices|
    && forall i :: 0 <= i < |t.devices| ==>
         && t'.devices[i].userId == t.devices[i].userId
         && t'.devices[i].name == t.devices[i].name
         && t.devices[i].lastSeq <= t'.devices[i].lastSeq
  }

  lemma {:induction false} FindDeviceStable(devices: seq<DeviceRow>, devices': seq<DeviceRow>, r: Record)
    requires FindDevice(devices, r) < |devices| <= |devices'|
    requires forall i :: 0 <= i < |devices| ==>
      devices'[i].userId == devices[i].userId && devices'[i].name == devices[i].name
    ensures FindDevice(devices', r) == FindDevice(devices, r)
  {
    var i := FindDevice(devices, r);
    assert Owns(devices'[i], r);
    forall j | 0 <= j < i ensures !Owns(devices'[j], r) {
      assert !Owns(devices[j], r);
    }
  }

  lemma FindDeviceAppended(devices: seq<DeviceRow>, r: Record)
    ensures FindDevice(EnsureDevice(devices, r), r) == FindDevice(devices, r) < |EnsureDevice(devices, r)|
  {
    var d' := EnsureDevice(devices, r);
    var i := FindDevice(devices, r);
    assert Owns(d'[i], r);
    forall j | 0 <= j < i ensures !Owns(d'[j], r) {
      assert !Owns(devices[j], r);
    }
  }

  lemma InsertOneHashes(t: Tables, r: Record)
    ensures Hashes(InsertOne(t, r).raw) == Hashes(t.raw) + {r.point.hash}
  {
    var t' := InsertOne(t, r);
    if r.point.hash !in Hashes(t.raw) {
      assert t'.raw[|t.raw|].hash == r.point.hash;
      forall h | h in Hashes(t.raw) ensures h in Hashes(t'.raw) {
        var k :| 0 <= k < |t.raw| && t.raw[k].hash == h;
        assert t'.raw[k].hash == h;
      }
    }
  }

  lemma InsertOneExtends(t: Tables, r: Record)
    ensures Extends(t, InsertOne(t, r))
  {
  }

  lemma InsertOneEffect(t: Tables, r: Record)
    ensures Extends(t, InsertOne(t, r)) && Reflects(InsertOne(t, r), r)
    ensures Hashes(InsertOne(t, r).raw) == Hashes(t.raw) + {r.point.hash}
  {
    InsertOneExtends(t, r);
    InsertOneHashes(t, r);
    FindDeviceAppended(t.devices, r);
    FindDeviceStable(EnsureDevice(t.devices, r), InsertOne(t, r).devices, r);
  }

  lemma ReflectsStable(t: Tables, t': Tables, r: Record)
    requires Reflects(t, r) && Extends(t, t')
    ensures Reflects(t', r)
  {
    FindDeviceStable(t.devices, t'.devices, r);
    var k :| 0 <= k < |t.raw| && t.raw[k].hash == r.point.hash;
    assert t'.raw[k].hash == r.point.hash;
  }

  lemma {:induction false} InsertAllExtends(t: Tables, rs: seq<Record>)
    ensures Extends(t, InsertAll(t, rs))
  {
    if rs != [] {
      InsertAllExtends(t, rs[..|rs| - 1]);
      InsertOneExtends(InsertAll(t, rs[..|rs| - 1]), rs[|rs| - 1]);
    }
  }

  lemma {:induction false} InsertAllReflects(t: Tables, rs: seq<Record>, r: Record)
    requires r in rs
    ensures Reflects(InsertAll(t, rs), r)
  {
    var init, last := rs[..|rs| - 1], rs[|rs| - 1];
    InsertOneEffect(InsertAll(t, init), last);
    if r != last {
      assert r in init;
      InsertAllReflects(t, init, r);
      ReflectsStable(InsertAll(t, init), InsertAll(t, rs), r);
    }
  }

  lemma {:induction false} InsertAllHashes(t: Tables, rs: seq<Record>, h: string)
    ensures h in Hashes(InsertAll(t, rs).raw) <==> h in Hashes(t.raw) || exists r :: r in rs && r.point.hash == h
  {
    hide InsertOne, Hashes;
    if rs != [] {
      var init, last := rs[..|rs| - 1], rs[|rs| - 1];
      InsertAllHashes(t, init, h);
      InsertOneHashes(InsertAll(t, init), last);
      assert rs == init + [last];
      assert last in rs;
    }
  }

  /** What a committed batch does: rows are added and kept, and every record of the
      batch is reflected. */
  lemma InsertAllEffect(t: Tables, rs: seq<Record>)
    ensures Extends(t, InsertAll(t, rs))
    ensures forall r :: r in rs ==> Reflects(InsertAll(t, rs), r)
    ensures forall h ::
      h in Hashes(InsertAll(t, rs).raw) <==> h in Hashes(t.raw) || exists r :: r in rs && r.point.hash == h
  {
    InsertAllExtends(t, rs);
    forall r | r in rs ensures Reflects(InsertAll(t, rs), r) {
      InsertAllReflects(t, rs, r);
    }
    forall h
      ensures h in Hashes(InsertAll(t, rs).raw) <==> h in Hashes(t.raw) || exists r :: r in rs && r.point.hash == h
    {
      InsertAllHashes(t, rs, h);
    }
  }

  /** Every row after an insert was there before or comes from the batch. */
  lemma {:induction false} InsertAllRows(t: Tables, rs: seq<Record>, i: nat)
    requires i < |InsertAll(t, rs).raw|
    ensures
      var row := InsertAll(t, rs).raw[i];
      row in t.raw ||
      exists r :: r in rs && r.seqNo == row.seqNo && r.point.hash == row.hash && OwnerOf(r) == row.userId
  {
    if rs != [] {
      var init, last := rs[..|rs| - 1], rs[|rs| - 1];
      assert last in rs;
      if i < |InsertAll(t, init).raw| {
        InsertAllRows(t, init, i);
      }
    }
  }

  /* -------------------- what the rows say, field by field ------------------- */

  /** `name` is `given` without the white space around it, or `default` if that
      leaves nothing. */
  ghost predicate Named(given: string, default: string, name: string) {
    if TrimsTo(given, "") then name == default else TrimsTo(given, name)
  }

  /** Row `i` of `raw_points` and row `i` of `points` carry the record's own values, and
      the device they point to is its sender's. */
  ghost predicate StoredAt(t: Tables, i: nat, r: Record) {
    && i < |t.raw| && i < |t.points|
    && var raw, point, p := t.raw[i], t.points[i], r.point;
    && raw.seqNo == r.seqNo && raw.hash == p.hash && raw.payload == p.payload
    && raw.timestamp == p.timestamp && raw.lat == p.lat && raw.lon == p.lon
    && raw.userId == (if p.userId > 0 then p.userId else 1)
    && Named(p.sourceType, "unknown", raw.sourceType)
    && 0 < raw.device <= |t.devices|
    && t.devices[raw.device - 1].userId == raw.userId
    && Named(r.deviceId, "unknown-device", t.devices[raw.device - 1].name)
    && point.rawId == i + 1 && point.userId == raw.userId && point.device == raw.device
    && point.timestamp == p.timestamp && point.lat == p.lat && point.lon == p.lon
  }

  lemma NamesAreTrimmed(r: Record)
    ensures Named(r.deviceId, "unknown-device", DeviceName(r)) && Named(r.point.sourceType, "unknown", SourceType(r))
  {
    TrimSpaceIff(r.deviceId, "");
    TrimSpaceIff(r.deviceId, TrimSpace(r.deviceId));
    TrimSpaceIff(r.point.sourceType, "");
    TrimSpaceIff(r.point.sourceType, TrimSpace(r.point.sourceType));
  }

  lemma InsertOneStores(t: Tables, r: Record)
    requires |t.points| == |t.raw| && r.point.hash !in Hashes(t.raw)
    ensures StoredAt(InsertOne(t, r), |t.raw|, r)
    ensures |InsertOne(t, r).points| == |InsertOne(t, r).raw| == |t.raw| + 1
  {
    FindDeviceAppended(t.devices, r);
    NamesAreTrimmed(r);
    hide Named;
    assert Owns(EnsureDevice(t.devices, r)[FindDevice(t.devices, r)], r);
  }

  lemma StoredStays(t: Tables, t': Tables, i: nat, r: Record)
    requires StoredAt(t, i, r) && Extends(t, t')
    ensures StoredAt(t', i, r)
  {
    hide Named;
  }

  /** Record `k` is the first of the batch with its hash, and the table did not have it. */
  ghost predicate NewIn(t: Tables, rs: seq<Record>, k: int) {
    && 0 <= k < |rs| && rs[k].point.hash !in Hashes(t.raw)
    && forall j :: 0 <= j < k ==> rs[j].point.hash != rs[k].point.hash
  }

  /** Row `i` was added for some record of the batch. */
  ghost predicate StoredFrom(t: Tables, i: nat, rs: seq<Record>) {
    exists r :: r in rs && StoredAt(t, i, r)
  }

  /** Some row from `from` on was added for `r`. */
  ghost predicate StoredSince(t: Tables, from: nat, r: Record) {
    exists i :: from <= i < |t.raw| && StoredAt(t, i, r)
  }

  lemma StoredFromStays(t: Tables, t': Tables, i: nat, rs: seq<Record>, last: Record)
    requires StoredFrom(t, i, rs) && Extends(t, t')
    ensures StoredFrom(t', i, rs + [last])
  {
    var r :| r in rs && StoredAt(t, i, r);
    StoredStays(t, t', i, r);
    assert r in rs + [last];
  }

  lemma StoredSinceStays(t: Tables, t': Tables, from: nat, r: Record)
    requires StoredSince(t, from, r) && Extends(t, t')
    ensures StoredSince(t', from, r)
  {
    var i :| from <= i < |t.raw| && StoredAt(t, i, r);
    StoredStays(t, t', i, r);
  }

  lemma InsertOneAdds(t: Tables, rs: seq<Record>, r: Record)
    requires |t.points| == |t.raw|
    ensures var t' := InsertOne(t, r);
      && |t'.points| == |t'.raw| >= |t.raw| && Extends(t, t')
      && (forall i :: |t.raw| <= i < |t'.raw| ==> StoredFrom(t', i, rs + [r]))
      && (r.point.hash !in Hashes(t.raw) ==> StoredSince(t', |t.raw|, r))
  {
    InsertOneExtends(t, r);
    if r.point.hash !in Hashes(t.raw) {
      InsertOneStores(t, r);
      hide StoredAt, InsertOne, Hashes, Extends;
      assert r in rs + [r];
    }
  }

  /** What a batch stores: the first record of each new hash gets a row in both tables
      with its own values, and no other row is added. */
  lemma {:induction false} InsertAllStores(t: Tables, rs: seq<Record>)
    requires |t.points| == |t.raw|
    ensures var t' := InsertAll(t, rs);
      && |t'.points| == |t'.raw| >= |t.raw|
      && (forall i :: |t.raw| <= i < |t'.raw| ==> StoredFrom(t', i, rs))
      && (forall k :: NewIn(t, rs, k) ==> StoredSince(t', |t.raw|, rs[k]))
  {
    hide StoredAt, StoredFrom, StoredSince, InsertOne, Hashes, Extends;
    if rs != [] {
      var init, last := rs[..|rs| - 1], rs[|rs| - 1];
      var mid, t' := InsertAll(t, init), InsertAll(t, rs);
      assert rs == init + [last];
      InsertAllStores(t, init);
      InsertOneAdds(mid, init, last);
      forall i | |t.raw| <= i < |t'.raw| ensures StoredFrom(t', i, rs) {
        if i < |mid.raw| { StoredFromStays(mid, t', i, init, last); }
      }
      forall k | NewIn(t, rs, k) ensures StoredSince(t', |t.raw|, rs[k]) {
        if k < |init| {
          assert NewIn(t, init, k);
          StoredSinceStays(mid, t', |t.raw|, init[k]);
        } else {
          FirstIsNew(t, rs);
          SinceEarlier(t', |t.raw|, |mid.raw|, last);
        }
      }
    }
  }

  lemma FirstIsNew(t: Tables, rs: seq<Record>)
    requires rs != [] && NewIn(t, rs, |rs| - 1)
    ensures rs[|rs| - 1].point.hash !in Hashes(InsertAll(t, rs[..|rs| - 1]).raw)
  {
    hide Hashes, InsertAll;
    InsertAllHashes(t, rs[..|rs| - 1], rs[|rs| - 1].point.hash);
  }

  lemma SinceEarlier(t: Tables, from: nat, later: nat, r: Record)
    requires from <= later && StoredSince(t, later, r)
    ensures StoredSince(t, from, r)
  {
  }

  /** The device row is the record's: its owner and its name. */
  ghost predicate Matches(d: DeviceRow, r: Record) {
    d.userId == (if r.point.userId > 0 then r.point.userId else 1) && Named(r.deviceId, "unknown-device", d.name)
  }

  lemma OwnsIff(d: DeviceRow, r: Record)
    ensures Owns(d, r) <==> Matches(d, r)
  {
    NamesAreTrimmed(r);
    TrimSpaceIff(r.deviceId, "");
    TrimSpaceIff(r.deviceId, d.name);
  }

  /** `d` was made for record `k`, the first of the batch it matches. */
  ghost predicate MadeFor(d: DeviceRow, rs: seq<Record>, k: int) {
    && 0 <= k < |rs| && Matches(d, rs[k]) && Named(rs[k].point.sourceType, "unknown", d.sourceType)
    && forall j :: 0 <= j < k ==> !Matches(d, rs[j])
  }

  /** The row at `i` is an old one, with owner, name and source as they were, or was
      made for the batch. */
  ghost predicate Explained(t: Tables, rs: seq<Record>, i: nat, d: DeviceRow) {
    if i < |t.devices| then d == t.devices[i].(lastSeq := d.lastSeq) else exists k :: MadeFor(d, rs, k)
  }

  /** Device rows keep owner, name and source, and a new one is made for the first
      record of the batch it matches. */
  lemma {:induction false} InsertAllDevices(t: Tables, rs: seq<Record>, i: nat)
    requires i < |InsertAll(t, rs).devices|
    ensures Explained(t, rs, i, InsertAll(t, rs).devices[i])
  {
    hide Explained, InsertOne, FindDevice, Owns, SourceType;
    if rs == [] {
      ExplainedAtFirst(t, i);
    } else {
      var init, last := rs[..|rs| - 1], rs[|rs| - 1];
      var mid := InsertAll(t, init);
      assert rs == init + [last];
      InsertAllExtends(t, init);
      DevicesStep(mid, last, i);
      if i < |mid.devices| {
        InsertAllDevices(t, init, i);
        ExplainedStays(t, init, i, mid.devices[i], InsertAll(t, rs).devices[i], last);
      } else {
        NewDeviceIsFirst(t, init, last, i, InsertAll(t, rs).devices[i]);
      }
    }
  }

  lemma ExplainedAtFirst(t: Tables, i: nat)
    requires i < |t.devices|
    ensures Explained(t, [], i, t.devices[i])
  {
  }

  lemma DevicesStep(t: Tables, r: Record, i: nat)
    requires i < |InsertOne(t, r).devices|
    ensures var d := InsertOne(t, r).devices[i];
      if i < |t.devices| then d == t.devices[i].(lastSeq := d.lastSeq)
      else FindDevice(t.devices, r) == |t.devices| && Owns(d, r) && d.sourceType == SourceType(r)
  {
  }

  lemma ExplainedStays(t: Tables, rs: seq<Record>, i: nat, d: DeviceRow, d': DeviceRow, last: Record)
    requires Explained(t, rs, i, d) && d' == d.(lastSeq := d'.lastSeq)
    ensures Explained(t, rs + [last], i, d')
  {
    if i >= |t.devices| {
      var k :| MadeFor(d, rs, k);
      assert MadeFor(d', rs + [last], k);
    }
  }

  lemma NewDeviceIsFirst(t: Tables, rs: seq<Record>, r: Record, i: nat, d: DeviceRow)
    requires FindDevice(InsertAll(t, rs).devices, r) == |InsertAll(t, rs).devices| && i >= |t.devices|
    requires Owns(d, r) && d.sourceType == SourceType(r)
    ensures Explained(t, rs + [r], i, d)
  {
    NamesAreTrimmed(r);
    OwnsIff(d, r);
    forall j | 0 <= j < |rs| ensures !Matches(d, rs[j]) {
      OwnsIff(d, rs[j]);
      var devices := InsertAll(t, rs).devices;
      InsertAllReflects(t, rs, rs[j]);
      assert Owns(devices[FindDevice(devices, rs[j])], rs[j]);
    }
    assert MadeFor(d, rs + [r], |rs|);
  }

  lemma ReflectedIsNoop(t: Tables, r: Record)
    requires Reflects(t, r)
    ensures InsertOne(t, r) == t && !Conflicts(t, r)
  {
  }

  lemma {:induction false} ReplayIsNoop(t: Tables, rs: seq<Record>)
    requires forall r :: r in rs ==> Reflects(t, r)
    ensures Insertable(t, rs) && InsertAll(t, rs) == t
  {
    if rs != [] {
      assert rs[|rs| - 1] in rs;
      ReplayIsNoop(t, rs[..|rs| - 1]);
      ReflectedIsNoop(t, rs[|rs| - 1]);
    }
  }

  /* --------------------------- lists of batches -------------------------- */

  function CommitAll(t: Tables, batches: seq<seq<Record>>): Tables {
    if batches == [] then t else InsertAll(CommitAll(t, batches[..|batches| - 1]), batches[|batches| - 1])
  }

  lemma {:induction false} CommitAllReflects(t: Tables, batches: seq<seq<Record>>)
    ensures forall b, r :: b in batches && r in b ==> Reflects(CommitAll(t, batches), r)
  {
    if batches != [] {
      var init, last := batches[..|batches| - 1], batches[|batches| - 1];
      CommitAllReflects(t, init);
      InsertAllEffect(CommitAll(t, init), last);
      forall b, r | b in batches && r in b ensures Reflects(CommitAll(t, batches), r) {
        if b in init {
          ReflectsStable(CommitAll(t, init), CommitAll(t, batches), r);
        } else {
          assert b == last;
        }
      }
    }
  }

  /** Idempotence: once a list of batches is in, replaying any of them, in any
      order and any number of times, is accepted and changes no table. */
  lemma {:induction false} ReplayBatchesIsNoop(t: Tables, batches: seq<seq<Record>>, again: seq<seq<Record>>)
    requires forall b :: b in again ==> b in batches
    ensures CommitAll(CommitAll(t, batches), again) == CommitAll(t, batches)
    ensures again != [] ==> Insertable(CommitAll(t, batches), again[|again| - 1])
  {
    if again != [] {
      var last := again[|again| - 1];
      assert last in again;
      ReplayBatchesIsNoop(t, batches, again[..|again| - 1]);
      CommitAllReflects(t, batches);
      ReplayIsNoop(CommitAll(t, batches), last);
    }
  }

  /** The highest sequence number among the records of one device. */
  function MaxSeqFor(rs: seq<Record>, userId: int, name: string): nat {
    if rs == [] then 0
    else
      var before := MaxSeqFor(rs[..|rs| - 1], userId, name);
      var r := rs[|rs| - 1];
      if OwnerOf(r) == userId && DeviceName(r) == name && r.seqNo > before then r.seqNo else before
  }

  ghost predicate UniqueDevices(devices: seq<DeviceRow>) {
    forall i, j :: 0 <= i < j < |devices| ==>
      devices[i].userId != devices[j].userId || devices[i].name != devices[j].name
  }

  /** Every committed record has a device row, and each row carries the maximum
      sequence number committed for it. */
  ghost predicate MarksMatch(devices: seq<DeviceRow>, rs: seq<Record>) {
    && (forall i :: 0 <= i < |devices| ==>
         devices[i].lastSeq == MaxSeqFor(rs, devices[i].userId, devices[i].name))
    && (forall r :: r in rs ==> FindDevice(devices, r) < |devices|)
  }

  /** The device table after one record. */
  function Touched(devices: seq<DeviceRow>, r: Record): seq<DeviceRow> {
    FindDeviceAppended(devices, r);
    Bump(EnsureDevice(devices, r), FindDevice(devices, r), r.seqNo)
  }

  lemma TouchedUnique(devices: seq<DeviceRow>, r: Record)
    requires UniqueDevices(devices)
    ensures UniqueDevices(Touched(devices, r))
  {
    assert forall j :: 0 <= j < FindDevice(devices, r) ==> !Owns(devices[j], r);
  }

  lemma TouchedMarks(devices: seq<DeviceRow>, rs: seq<Record>, r: Record, i: nat)
    requires UniqueDevices(devices) && MarksMatch(devices, rs) && i < |Touched(devices, r)|
    ensures var d := Touched(devices, r)[i];
      d.lastSeq == MaxSeqFor(rs + [r], d.userId, d.name)
  {
    assert (rs + [r])[..|rs|] == rs;
    if i == |devices| {
      NoDeviceNoRecords(devices, rs, r);
    } else if i != FindDevice(devices, r) {
      assert !Owns(devices[i], r);
    }
  }

  lemma MarksMatchStep(devices: seq<DeviceRow>, rs: seq<Record>, r: Record)
    requires UniqueDevices(devices) && MarksMatch(devices, rs)
    ensures UniqueDevices(Touched(devices, r)) && MarksMatch(Touched(devices, r), rs + [r])
  {
    TouchedUnique(devices, r);
    var devices' := Touched(devices, r);
    forall i | 0 <= i < |devices'|
      ensures devices'[i].lastSeq == MaxSeqFor(rs + [r], devices'[i].userId, devices'[i].name)
    {
      TouchedMarks(devices, rs, r, i);
    }
    forall x | x in rs + [r] ensures FindDevice(devices', x) < |devices'| {
      if x in rs {
        FindDeviceStable(devices, devices', x);
      } else {
        FindDeviceAppended(devices, r);
        FindDeviceStable(EnsureDevice(devices, r), devices', r);
      }
    }
  }

  lemma NoDeviceNoRecords(devices: seq<DeviceRow>, rs: seq<Record>, r: Record)
    requires MarksMatch(devices, rs) && FindDevice(devices, r) == |devices|
    ensures MaxSeqFor(rs, OwnerOf(r), DeviceName(r)) == 0
  {
    var m := MaxSeqFor(rs, OwnerOf(r), DeviceName(r));
    MaxSeqForWitness(rs, OwnerOf(r), DeviceName(r));
    if m > 0 {
      var x :| x in rs && OwnerOf(x) == OwnerOf(r) && DeviceName(x) == DeviceName(r);
      assert Owns(devices[FindDevice(devices, x)], r);
      assert false;
    }
  }

  lemma {:induction false} MaxSeqForWitness(rs: seq<Record>, userId: int, name: string)
    ensures MaxSeqFor(rs, userId, name) > 0 ==>
      exists r :: r in rs && OwnerOf(r) == userId && DeviceName(r) == name && r.seqNo == MaxSeqFor(rs, userId, name)
    ensures forall r :: r in rs && OwnerOf(r) == userId && DeviceName(r) == name ==>
      r.seqNo <= MaxSeqFor(rs, userId, name)
  {
    if rs != [] {
      var init := rs[..|rs| - 1];
      MaxSeqForWitness(init, userId, name);
      assert rs == init + [rs[|rs| - 1]];
      assert rs[|rs| - 1] in rs;
    }
  }

  /** From empty tables, `last_seq_received` of every device is the maximum
      sequence number ever committed for it, skipped duplicates included. */
  lemma {:induction false} LastSeqIsMaximum(rs: seq<Record>)
    ensures UniqueDevices(InsertAll(NO_ROWS, rs).devices) && MarksMatch(InsertAll(NO_ROWS, rs).devices, rs)
  {
    hide UniqueDevices, MarksMatch, Touched, InsertOne;
    if rs == [] {
      NothingMarked();
    } else {
      var init, last := rs[..|rs| - 1], rs[|rs| - 1];
      LastSeqIsMaximum(init);
      MarksMatchStep(InsertAll(NO_ROWS, init).devices, init, last);
      InsertOneTouches(InsertAll(NO_ROWS, init), last);
      assert init + [last] == rs;
    }
  }

  lemma NothingMarked()
    ensures UniqueDevices([]) && MarksMatch([], [])
  {
  }

  lemma InsertOneTouches(t: Tables, r: Record)
    ensures InsertOne(t, r).devices == Touched(t.devices, r)
  {
  }

  /* ------------------------------ the store ------------------------------ */

  function MarkOf(marks: map<nat, nat>, i: nat): nat {
    if i in marks then marks[i] else 0
  }

  /** `devices` once the postponed `marks` are applied is `done`. */
  ghost predicate Postponed(devices: seq<DeviceRow>, marks: map<nat, nat>, done: seq<DeviceRow>) {
    && |devices| == |done|
    && (forall i :: i in marks ==> i < |devices|)
    && (forall i :: 0 <= i < |devices| ==>
         done[i] == devices[i].(lastSeq :=
           if devices[i].lastSeq < MarkOf(marks, i) then MarkOf(marks, i) else devices[i].lastSeq))
  }

  lemma FindDeviceSame(devices: seq<DeviceRow>, devices': seq<DeviceRow>, r: Record)
    requires |devices| == |devices'|
    requires forall i :: 0 <= i < |devices| ==>
      devices'[i].userId == devices[i].userId && devices'[i].name == devices[i].name
    ensures FindDevice(devices', r) == FindDevice(devices, r)
  {
    assert forall j :: 0 <= j < |devices| ==> (Owns(devices[j], r) <==> Owns(devices'[j], r));
  }

  function Raise(marks: map<nat, nat>, device: nat, seqNo: nat): map<nat, nat> {
    if seqNo > MarkOf(marks, device) then marks[device := seqNo] else marks
  }

  lemma PostponedStep(devices: seq<DeviceRow>, marks: map<nat, nat>, done: seq<DeviceRow>, r: Record)
    requires Postponed(devices, marks, done)
    ensures var at := FindDevice(devices, r);
      && at == FindDevice(done, r)
      && Postponed(EnsureDevice(devices, r), Raise(marks, at, r.seqNo), Bump(EnsureDevice(done, r), at, r.seqNo))
  {
    FindDeviceSame(devices, done, r);
    PostponedEnsure(devices, marks, done, r);
    PostponedRaise(EnsureDevice(devices, r), marks, EnsureDevice(done, r), FindDevice(devices, r), r.seqNo);
  }

  lemma PostponedEnsure(devices: seq<DeviceRow>, marks: map<nat, nat>, done: seq<DeviceRow>, r: Record)
    requires Postponed(devices, marks, done) && FindDevice(devices, r) == FindDevice(done, r)
    ensures Postponed(EnsureDevice(devices, r), marks, EnsureDevice(done, r))
  {
  }

  lemma PostponedRaise(devices: seq<DeviceRow>, marks: map<nat, nat>, done: seq<DeviceRow>, i: nat, seqNo: nat)
    requires Postponed(devices, marks, done) && i < |devices|
    ensures Postponed(devices, Raise(marks, i, seqNo), Bump(done, i, seqNo))
  {
  }

  /** A transaction in progress: rows are in, device marks are still collected. */
  ghost predicate Pending(tx: Tables, marks: map<nat, nat>, done: Tables) {
    tx.raw == done.raw && tx.points == done.points && Postponed(tx.devices, marks, done.devices)
  }

  class SQLiteStore {
    var raw: seq<RawRow>
    var points: seq<PointRow>
    var devices: seq<DeviceRow>

    ghost function View(): Tables
      reads this
    {
      Tables(raw, points, devices)
    }

    constructor ()
      ensures View() == NO_ROWS
    {
      raw, points, devices := [], [], [];
    }

    /** One transaction: either every record went through and the device marks
        rose, or nothing changed. A `calm` call meets no database error, and then only
        the table constraints decide. */
    method InsertSpoolBatch(records: seq<Record>, calm: bool) returns (committed: Option<nat>)
      modifies this
      ensures committed.Some? ==>
        && Insertable(old(View()), records)
        && View() == InsertAll(old(View()), records)
        && committed.value == MaxSeqNo(records)
      ensures committed.None? ==> View() == old(View())
      ensures calm && Insertable(old(View()), records) ==> committed.Some?
    {
      if |records| == 0 {
        return Some(0);
      }
      hide InsertAll, Insertable;
      var ok, tx := RunTransaction(Tables(raw, points, devices), records, calm);
      if !ok {
        return None;
      }
      raw, points, devices := tx.raw, tx.points, tx.devices;
      var maxSeq := HighestSeq(records);
      return Some(maxSeq);
    }

    method HighestSeq(records: seq<Record>) returns (maxSeq: nat)
      ensures maxSeq == MaxSeqNo(records)
    {
      maxSeq := 0;
      for n := 0 to |records|
        invariant maxSeq == MaxSeqNo(records[..n])
      {
        assert records[..n + 1][..n] == records[..n];
        if records[n].seqNo > maxSeq {
          maxSeq := records[n].seqNo;
        }
      }
      assert records[..|records|] == records;
    }

    /** The statements of the transaction against a private copy of the tables;
        device marks are collected on the way and applied at the end. */
    method RunTransaction(start: Tables, records: seq<Record>, calm: bool) returns (ok: bool, tx: Tables)
      ensures ok ==> Insertable(start, records) && tx == InsertAll(start, records)
      ensures calm && Insertable(start, records) ==> ok
    {
      tx := start;
      var marks: map<nat, nat> := map[];
      for n := 0 to |records|
        invariant Insertable(start, records[..n])
        invariant Pending(tx, marks, InsertAll(start, records[..n]))
      {
        ghost var done := InsertAll(start, records[..n]);
        assert records[..n + 1][..n] == records[..n];
        ok, tx, marks := InsertRecord(tx, marks, records[n], done, calm);
        if !ok {
          if Insertable(start, records) { InsertablePrefix(start, records, n); }
          return;
        }
      }
      assert records[..|records|] == records;
      var devices := ApplyMarks(tx.devices, marks, InsertAll(start, records).devices);
      tx := tx.(devices := devices);
      var commitFails: bool :| calm ==> !commitFails;
      ok := !commitFails;
    }

    method InsertRecord(tx: Tables, marks: map<nat, nat>, r: Record, ghost done: Tables, calm: bool)
      returns (ok: bool, tx': Tables, marks': map<nat, nat>)
      requires Pending(tx, marks, done)
      ensures ok ==> !Conflicts(done, r) && Pending(tx', marks', InsertOne(done, r))
      ensures calm && !Conflicts(done, r) ==> ok
    {
      PostponedStep(tx.devices, marks, done.devices, r);
      var device := FindDevice(tx.devices, r);
      var devices := EnsureDevice(tx.devices, r);
      marks' := Raise(marks, device, r.seqNo);
      tx' := tx.(devices := devices);
      var statementFails: bool :| calm ==> !statementFails;
      if statementFails {
        return false, tx', marks';
      }
      if r.point.hash !in Hashes(tx.raw) {
        if r.seqNo in SeqNos(tx.raw) {
          return false, tx', marks';
        }
        var row := RowFor(r, device + 1);
        tx' := Tables(tx.raw + [row], tx.points + [PointFor(row, |tx.raw| + 1)], devices);
      }
      ok := true;
    }

    /** The closing loop over the devices touched by the batch, in any order. */
    method ApplyMarks(devices0: seq<DeviceRow>, marks: map<nat, nat>, ghost done: seq<DeviceRow>)
      returns (out: seq<DeviceRow>)
      requires Postponed(devices0, marks, done)
      ensures out == done
    {
      out := devices0;
      var todo := marks;
      while todo.Keys != {}
        invariant Postponed(out, todo, done)
        decreases todo.Keys
      {
        var i :| i in todo;
        out := Bump(out, i, todo[i]);
        todo := todo - {i};
      }
    }
  }
}
