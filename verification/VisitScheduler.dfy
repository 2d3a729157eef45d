/** The incremental visit scheduler: which devices a run picks, and what
    processing a device does to its stored visits and watermark. */
module VisitScheduler {
  import opened Arithmetic
  import opened Ingest
  import opened Detector
  import opened VisitTable

  /* ------------------------------- round robin ------------------------------ */

  /** Where the cursor stands after `rounds` selections. */
  function CursorAfter(n: nat, batch: nat, start: nat, rounds: nat): nat
    requires n > 0
  {
    if rounds == 0 then start % n
    else (CursorAfter(n, batch, start, rounds - 1) + batch) % n
  }

  lemma {:induction false} CursorClosedForm(n: nat, batch: nat, start: nat, rounds: nat)
    requires n > 0
    ensures CursorAfter(n, batch, start, rounds) == (start + rounds * batch) % n
  {
    if rounds > 0 {
      CursorClosedForm(n, batch, start, rounds - 1);
      RemainderAdd(start + (rounds - 1) * batch, batch, n);
      assert start + (rounds - 1) * batch + batch == start + rounds * batch;
    }
  }

  /** The device indices selected when the cursor stands at `at`. */
  function Picked(n: nat, batch: nat, at: nat): seq<nat>
    requires n > 0
  {
    seq(batch, i requires 0 <= i < batch => (at + i) % n)
  }

  /** A batch smaller than the list never picks a device twice. */
  lemma PickedDistinct(n: nat, batch: nat, at: nat, i: nat, j: nat)
    requires n > 0 && batch <= n && at < n && i < j < batch
    ensures Picked(n, batch, at)[i] != Picked(n, batch, at)[j]
  {
    RemainderWrap(at + i, n);
    RemainderWrap(at + j, n);
  }

  lemma RoundExists(offset: nat, n: nat, batch: nat, rounds: nat)
    requires offset < n <= rounds * batch && batch > 0
    ensures offset / batch < rounds
  {
    var round := offset / batch;
    assert round * batch <= offset;
    if round >= rounds {
      assert false;
    }
  }

  lemma OffsetHits(n: nat, start: nat, device: nat) returns (offset: nat)
    requires n > 0 && device < n
    ensures offset < n && (start + offset) % n == device
  {
    var s := start % n;
    offset := if device >= s then device - s else device + n - s;
    RemainderAdd(start, offset, n);
    RemainderWrap(s + offset, n);
  }

  lemma CursorPicks(n: nat, batch: nat, start: nat, round: nat, i: nat)
    requires n > 0 && i < batch
    ensures Picked(n, batch, CursorAfter(n, batch, start, round))[i] == (start + round * batch + i) % n
  {
    CursorClosedForm(n, batch, start, round);
    RemainderAdd(start + round * batch, i, n);
  }

  /** Fairness: any `rounds` consecutive selections with rounds * batch >= n pick
      every device at least once. */
  lemma EveryDeviceIsPicked(n: nat, batch: nat, start: nat, rounds: nat, device: nat) returns (round: nat)
    requires n > 0 && batch > 0 && device < n && rounds * batch >= n
    ensures round < rounds && device in Picked(n, batch, CursorAfter(n, batch, start, round))
  {
    var offset := OffsetHits(n, start, device);
    RoundExists(offset, n, batch, rounds);
    round := offset / batch;
    var i := offset % batch;
    assert offset == round * batch + i;
    CursorPicks(n, batch, start, round, i);
    assert Picked(n, batch, CursorAfter(n, batch, start, round))[i] == device;
  }

  /* --------------------------------- devices -------------------------------- */

  datatype Device = Device(id: int, name: string)

  ghost predicate StrictlyById(ds: seq<Device>) {
    forall i, j :: 0 <= i < j < |ds| ==> ds[i].id < ds[j].id
  }

  function InsertById(d: Device, ds: seq<Device>): seq<Device> {
    if ds == [] then [d] else if d.id < ds[0].id then [d] + ds else [ds[0]] + InsertById(d, ds[1..])
  }

  lemma {:induction false} InsertByIdFacts(d: Device, ds: seq<Device>)
    requires StrictlyById(ds) && forall x :: x in ds ==> x.id != d.id
    ensures StrictlyById(InsertById(d, ds))
    ensures forall x :: x in InsertById(d, ds) <==> x == d || x in ds
  {
    if ds != [] {
      assert ds[0] in ds;
      if ds[0].id < d.id {
        InsertByIdFacts(d, ds[1..]);
        var tail := InsertById(d, ds[1..]);
        forall j | 0 <= j < |tail| ensures ds[0].id < tail[j].id {
          assert tail[j] in tail;
        }
      }
    }
  }

  /** `d` is the first device of the list with its id. */
  ghost predicate FirstWithId(devices: seq<Device>, d: Device) {
    exists k :: 0 <= k < |devices| && devices[k] == d && forall j :: 0 <= j < k ==> devices[j].id != d.id
  }

  lemma FirstStaysFirst(devices: seq<Device>, n: nat, d: Device)
    requires n < |devices| && FirstWithId(devices[..n], d)
    ensures FirstWithId(devices[..n + 1], d)
  {
    var a, b := devices[..n], devices[..n + 1];
    var k :| 0 <= k < |a| && a[k] == d && forall j :: 0 <= j < k ==> a[j].id != d.id;
    assert b[k] == d && forall j :: 0 <= j < k ==> b[j] == a[j];
  }

  lemma NewIsFirst(devices: seq<Device>, n: nat)
    requires n < |devices| && forall j :: 0 <= j < n ==> devices[j].id != devices[n].id
    ensures FirstWithId(devices[..n + 1], devices[n])
  {
    var b := devices[..n + 1];
    assert b[n] == devices[n] && forall j :: 0 <= j < n ==> b[j] == devices[j];
  }

  predicate HasId(ds: seq<Device>, id: int) {
    exists i :: 0 <= i < |ds| && ds[i].id == id
  }

  function SortedUnique(devices: seq<Device>): seq<Device> {
    if devices == [] then []
    else
      var before := SortedUnique(devices[..|devices| - 1]);
      var d := devices[|devices| - 1];
      if d.id > 0 && !HasId(before, d.id) then InsertById(d, before) else before
  }

  /** Ascending ids, each once, and every positive id of the list is there. */
  lemma {:induction false} SortedUniqueIds(devices: seq<Device>)
    ensures StrictlyById(SortedUnique(devices))
    ensures forall k :: 0 <= k < |devices| && devices[k].id > 0 ==> HasId(SortedUnique(devices), devices[k].id)
  {
    if devices != [] {
      var n := |devices| - 1;
      var init, d := devices[..n], devices[n];
      SortedUniqueIds(init);
      assert forall j :: 0 <= j < n ==> devices[j] == init[j];
      if d.id > 0 && !HasId(SortedUnique(init), d.id) {
        InsertByIdFacts(d, SortedUnique(init));
        InsertKeepsIds(d, SortedUnique(init));
      }
    }
  }

  /** Each device kept has a positive id and is the first of the list with it. */
  lemma {:induction false} SortedUniqueFirst(devices: seq<Device>, x: Device)
    requires x in SortedUnique(devices)
    ensures x.id > 0 && FirstWithId(devices, x)
  {
    var n := |devices| - 1;
    var init, d := devices[..n], devices[n];
    assert devices[..n + 1] == devices;
    SortedUniqueIds(init);
    if d.id > 0 && !HasId(SortedUnique(init), d.id) {
      InsertByIdFacts(d, SortedUnique(init));
    }
    if x in SortedUnique(init) {
      SortedUniqueFirst(init, x);
      FirstStaysFirst(devices, n, x);
    } else {
      forall j | 0 <= j < n ensures devices[j].id != d.id {
        assert devices[j] == init[j];
      }
      NewIsFirst(devices, n);
    }
  }

  lemma InsertKeepsIds(d: Device, ds: seq<Device>)
    requires StrictlyById(ds) && !HasId(ds, d.id)
    ensures forall id :: HasId(InsertById(d, ds), id) <==> id == d.id || HasId(ds, id)
  {
    InsertByIdFacts(d, ds);
    var out := InsertById(d, ds);
    forall id ensures HasId(out, id) <==> id == d.id || HasId(ds, id) {
      if HasId(out, id) {
        var i :| 0 <= i < |out| && out[i].id == id;
        assert out[i] in out;
      }
      if HasId(ds, id) {
        var i :| 0 <= i < |ds| && ds[i].id == id;
        assert ds[i] in out;
      }
      assert d in out;
    }
  }

  method SortedUniqueDevicesByID(devices: seq<Device>) returns (out: seq<Device>)
    ensures out == SortedUnique(devices)
  {
    var seen: set<int> := {};
    out := [];
    for n := 0 to |devices|
      invariant out == SortedUnique(devices[..n])
      invariant forall id :: id in seen <==> HasId(out, id)
    {
      var d := devices[n];
      assert devices[..n + 1][..n] == devices[..n];
      SortedUniqueIds(devices[..n]);
      if d.id > 0 && d.id !in seen {
        InsertKeepsIds(d, out);
        seen := seen + {d.id};
        out := InsertById(d, out);
      }
    }
    assert devices[..|devices|] == devices;
  }

  /* -------------------------------- processing ------------------------------ */

  function MaxPointSeq(rows: seq<PointRow>, device: nat): nat {
    if rows == [] then 0
    else
      var before := MaxPointSeq(rows[..|rows| - 1], device);
      var r := rows[|rows| - 1];
      if r.device == device && r.seqNo > before then r.seqNo else before
  }

  /** The timestamp of the device's point with this sequence number. */
  function TimeOfSeq(rows: seq<PointRow>, device: nat, seqNo: nat): Option<int> {
    if rows == [] || seqNo == 0 then None
    else if rows[0].device == device && rows[0].seqNo == seqNo then Some(rows[0].fix.at)
    else TimeOfSeq(rows[1..], device, seqNo)
  }

  /** Where the rewrite window opens: a lookback before the last processed point. */
  function WindowStart(rows: seq<PointRow>, watermark: map<nat, nat>, device: nat, lookback: int): Option<int> {
    if device in watermark && watermark[device] > 0 then
      match TimeOfSeq(rows, device, watermark[device])
      case Some(at) => Some(at - lookback)
      case None => None
    else None
  }

  /** Nothing to do: no usable device, no points, or none beyond the watermark. */
  predicate UpToDate(rows: seq<PointRow>, watermark: map<nat, nat>, device: int) {
    || device <= 0
    || MaxPointSeq(rows, device) == 0
    || (device in watermark && MaxPointSeq(rows, device) <= watermark[device])
  }

  /** How far the processing of a device got: to its end, to an error before the
      rewrite, or to one between the rewrite and the watermark. */
  datatype Attempt = Finished | FailedEarly | FailedLate

  /** The device's window is rewritten. */
  predicate Rewrites(rows: seq<PointRow>, watermark: map<nat, nat>, device: int, attempt: Attempt) {
    !attempt.FailedEarly? && !UpToDate(rows, watermark, device)
  }

  /** `during` are the points that are committed after the watermark was read and
      before the rewrite reads: it sees them, the watermark does not. */
  function VisitsAfter(cfg: DetectConfig, lookback: int, rows: seq<PointRow>, during: seq<PointRow>,
                       visits: seq<VisitRow>, watermark: map<nat, nat>, device: int, attempt: Attempt): seq<VisitRow> {
    if Rewrites(rows, watermark, device, attempt)
    then Rebuilt(cfg, rows + during, visits, device, WindowStart(rows, watermark, device, lookback), None)
    else visits
  }

  function WatermarkAfter(rows: seq<PointRow>, watermark: map<nat, nat>, device: int, attempt: Attempt): map<nat, nat> {
    if Rewrites(rows, watermark, device, attempt) && attempt.Finished?
    then watermark[device := MaxPointSeq(rows, device)]
    else watermark
  }

  /* ------------------------ processing, without its terms -------------------- */

  lemma {:induction false} MaxPointSeqIs(rows: seq<PointRow>, device: nat)
    ensures forall r :: r in rows && r.device == device ==> r.seqNo <= MaxPointSeq(rows, device)
    ensures MaxPointSeq(rows, device) > 0 ==>
      exists r :: r in rows && r.device == device && r.seqNo == MaxPointSeq(rows, device)
  {
    if rows != [] {
      var init, last := rows[..|rows| - 1], rows[|rows| - 1];
      MaxPointSeqIs(init, device);
      assert rows == init + [last];
      assert last in rows;
    }
  }

  /** The last processed number of a device, 0 before its first run. */
  function ProcessedUpTo(watermark: map<nat, nat>, device: nat): nat {
    if device in watermark then watermark[device] else 0
  }

  /** A device is up to date if and only if it has no point numbered above its
      watermark. */
  lemma UpToDateIff(rows: seq<PointRow>, watermark: map<nat, nat>, device: int)
    requires device > 0
    ensures UpToDate(rows, watermark, device) <==>
      forall r :: r in rows && r.device == device ==> r.seqNo <= ProcessedUpTo(watermark, device)
  {
    MaxPointSeqIs(rows, device);
  }

  lemma {:induction false} TimeOfSeqIs(rows: seq<PointRow>, device: nat, seqNo: nat)
    requires DistinctRows(rows) && seqNo > 0
    ensures forall r :: r in rows && r.device == device && r.seqNo == seqNo ==>
      TimeOfSeq(rows, device, seqNo) == Some(r.fix.at)
    ensures TimeOfSeq(rows, device, seqNo).Some? ==>
      exists r :: r in rows && r.device == device && r.seqNo == seqNo
  {
    if rows != [] {
      TimeOfSeqIs(rows[1..], device, seqNo);
      assert rows == [rows[0]] + rows[1..];
      assert rows[0] in rows;
      forall r | r in rows[1..] && r.seqNo == seqNo ensures rows[0].seqNo != seqNo {
        var i :| 0 <= i < |rows[1..]| && rows[1..][i] == r;
      }
    }
  }

  /** The window opens a lookback before the last processed point, and there is none
      as long as no stored point of the device was processed. */
  lemma WindowStartIff(rows: seq<PointRow>, watermark: map<nat, nat>, device: nat, lookback: int, from: int)
    requires DistinctRows(rows)
    ensures WindowStart(rows, watermark, device, lookback) == Some(from) <==>
      exists r :: r in rows && r.device == device && r.seqNo == ProcessedUpTo(watermark, device) > 0
        && from == r.fix.at - lookback
  {
    if ProcessedUpTo(watermark, device) > 0 {
      TimeOfSeqIs(rows, device, watermark[device]);
    }
  }

  /* ------------------------------- many devices ------------------------------ */

  /** The tables the scheduler works on. */
  datatype Board = Board(rows: seq<PointRow>, visits: seq<VisitRow>, watermark: map<nat, nat>)

  /** One device processed: what was committed meanwhile, and how far it got. */
  datatype Job = Job(device: int, during: seq<PointRow>, attempt: Attempt)

  function Work(cfg: DetectConfig, lookback: int, b: Board, job: Job): Board {
    Board(b.rows + job.during,
          VisitsAfter(cfg, lookback, b.rows, job.during, b.visits, b.watermark, job.device, job.attempt),
          WatermarkAfter(b.rows, b.watermark, job.device, job.attempt))
  }

  function WorkAll(cfg: DetectConfig, lookback: int, b: Board, jobs: seq<Job>): Board {
    if jobs == [] then b else Work(cfg, lookback, WorkAll(cfg, lookback, b, jobs[..|jobs| - 1]), jobs[|jobs| - 1])
  }

  /** How many visits a finished job stored. */
  function CreatedBy(cfg: DetectConfig, lookback: int, b: Board, job: Job): nat {
    if Rewrites(b.rows, b.watermark, job.device, job.attempt) && job.attempt.Finished?
    then |Detected(cfg, Points(b.rows + job.during, job.device,
                               WindowStart(b.rows, b.watermark, job.device, lookback), None))|
    else 0
  }

  /** The counters after one more job: it counts once, as failed, skipped or updated. */
  function Counted(cfg: DetectConfig, lookback: int, t: RunResult, b: Board, job: Job): RunResult {
    var idle := job.attempt.Finished? && UpToDate(b.rows, b.watermark, job.device);
    RunResult(
      t.processed + 1,
      t.skipped + if idle then 1 else 0,
      t.updated + if job.attempt.Finished? && !idle then 1 else 0,
      t.created + CreatedBy(cfg, lookback, b, job),
      t.errors + if job.attempt.Finished? then 0 else 1)
  }

  /** The counters of a run. */
  function Tally(cfg: DetectConfig, lookback: int, b: Board, jobs: seq<Job>): RunResult {
    if jobs == [] then RunResult(0, 0, 0, 0, 0)
    else
      var init := jobs[..|jobs| - 1];
      Counted(cfg, lookback, Tally(cfg, lookback, b, init), WorkAll(cfg, lookback, b, init), jobs[|jobs| - 1])
  }

  lemma NothingDone(cfg: DetectConfig, lookback: int, b: Board)
    ensures WorkAll(cfg, lookback, b, []) == b && Tally(cfg, lookback, b, []) == RunResult(0, 0, 0, 0, 0)
  {
  }

  lemma OneMoreJob(cfg: DetectConfig, lookback: int, b: Board, jobs: seq<Job>, job: Job)
    ensures var at := WorkAll(cfg, lookback, b, jobs);
      && WorkAll(cfg, lookback, b, jobs + [job]) == Work(cfg, lookback, at, job)
      && Tally(cfg, lookback, b, jobs + [job]) == Counted(cfg, lookback, Tally(cfg, lookback, b, jobs), at, job)
  {
    hide Work, Counted;
    assert (jobs + [job])[..|jobs|] == jobs;
  }

  lemma {:induction false} TallyAddsUp(cfg: DetectConfig, lookback: int, b: Board, jobs: seq<Job>)
    ensures var t := Tally(cfg, lookback, b, jobs);
      t.processed == |jobs| == t.skipped + t.updated + t.errors
    ensures b.rows <= WorkAll(cfg, lookback, b, jobs).rows
  {
    if jobs != [] { TallyAddsUp(cfg, lookback, b, jobs[..|jobs| - 1]); }
  }

  /** What the reads at the start of processing a device lead to. */
  datatype Plan = Skip | Unreadable | Rewrite(maxSeq: nat, from: Option<int>)

  datatype RunResult = RunResult(processed: nat, skipped: nat, updated: nat, created: nat, errors: nat)

  class Scheduler {
    const cfg: DetectConfig
    const lookback: int
    const batchSize: nat
    var roundRobinStart: nat
    var running: bool
    var rows: seq<PointRow>
    var visits: seq<VisitRow>
    var watermark: map<nat, nat>

    constructor (cfg: DetectConfig, lookback: int, batchSize: int)
      ensures roundRobinStart == 0 && !running && rows == [] && visits == [] && watermark == map[]
      ensures this.batchSize == (if batchSize <= 0 then 10 else batchSize)
      ensures Usable(this.cfg)
    {
      this.cfg := cfg.(minDwell := if cfg.minDwell <= 0 then 900 else cfg.minDwell,
                       maxRadius := if cfg.maxRadius <= 0.0 then 35.0 else cfg.maxRadius);
      this.lookback := if lookback <= 0 then 7200 else lookback;
      this.batchSize := if batchSize <= 0 then 10 else batchSize;
      roundRobinStart, running, rows, visits, watermark := 0, false, [], [], map[];
    }

    /** Everybody when the list fits a batch; otherwise the next batch in turn. */
    method SelectDeviceBatch(devices: seq<Device>) returns (batch: seq<Device>)
      modifies this`roundRobinStart
      ensures Selects(devices, batchSize, old(roundRobinStart), batch, roundRobinStart)
    {
      if |devices| <= batchSize {
        return devices;
      }
      var start := roundRobinStart % |devices|;
      batch := [];
      for i := 0 to batchSize
        invariant |batch| == i
        invariant forall k :: 0 <= k < i ==> batch[k] == devices[Picked(|devices|, batchSize, start)[k]]
      {
        var idx := (start + i) % |devices|;
        batch := batch + [devices[idx]];
      }
      roundRobinStart := (start + batchSize) % |devices|;
    }

    /** Detect the points of the window and replace the visits that start in it, in
        one transaction. */
    method RebuildVisitsForDeviceRange(device: int, from: Option<int>, to: Option<int>, calm: bool)
      returns (created: Option<nat>)
      modifies this`visits
      ensures created.Some? ==>
        && device > 0
        && visits == Rebuilt(cfg, rows, old(visits), device, from, to)
        && created.value == |Detected(cfg, Points(rows, device, from, to))|
      ensures created.None? ==> visits == old(visits)
      ensures calm && device > 0 ==> created.Some?
    {
      var queryFails: bool :| calm ==> !queryFails;
      if device <= 0 || queryFails {
        return None;
      }
      var detected := Detect(Points(rows, device, from, to), cfg);
      var table := DeleteInRange(device, from, to);
      table := InsertAll(table, device, detected);
      var commitFails: bool :| calm ==> !commitFails;
      if commitFails {
        return None;
      }
      visits := table;
      return Some(|detected|);
    }

    method DeleteInRange(device: nat, from: Option<int>, to: Option<int>) returns (table: seq<VisitRow>)
      ensures table == Kept(visits, device, from, to)
    {
      table := [];
      for i := 0 to |visits|
        invariant table == Kept(visits[..i], device, from, to)
      {
        assert visits[..i + 1][..i] == visits[..i];
        if !Replaced(visits[i], device, from, to) {
          table := table + [visits[i]];
        }
      }
      assert visits[..|visits|] == visits;
    }

    method InsertAll(kept: seq<VisitRow>, device: nat, detected: seq<Visit>) returns (table: seq<VisitRow>)
      ensures table == kept + RowsFor(device, detected)
    {
      table := kept;
      for i := 0 to |detected|
        invariant table == kept + RowsFor(device, detected[..i])
      {
        table := table + [VisitRow(device, detected[i])];
        assert RowsFor(device, detected[..i + 1]) == RowsFor(device, detected[..i]) + [VisitRow(device, detected[i])];
      }
      assert detected[..|detected|] == detected;
    }

    /** A device is skipped exactly when it is up to date (or an error hides that);
        otherwise its window is rewritten and the watermark follows. An error after
        the rewrite leaves the watermark behind, so the next run repeats it. Points
        go on being committed meanwhile; `during` are those that arrive between the
        reading of the watermark and the rewrite. */
    method ProcessDevice(device: int, during: seq<PointRow>, calm: bool)
      returns (created: nat, updated: bool, skipped: bool, failed: bool, ghost attempt: Attempt)
      modifies this`rows, this`visits, this`watermark
      ensures (if updated then 1 else 0) + (if skipped then 1 else 0) + (if failed then 1 else 0) == 1
      ensures rows == old(rows) + during
      ensures skipped ==> attempt.Finished? && UpToDate(old(rows), old(watermark), device)
      ensures updated ==>
        && attempt.Finished? && !UpToDate(old(rows), old(watermark), device)
        && var from := WindowStart(old(rows), old(watermark), device, lookback);
           created == |Detected(cfg, Points(rows, device, from, None))|
      ensures failed ==> !attempt.Finished? && !calm
      ensures visits == VisitsAfter(cfg, lookback, old(rows), during, old(visits), old(watermark), device, attempt)
      ensures watermark == WatermarkAfter(old(rows), old(watermark), device, attempt)
      ensures updated ==> device in watermark && exists r ::
        r in old(rows) && r.device == device && r.seqNo == watermark[device] > ProcessedUpTo(old(watermark), device)
    {
      if device > 0 { MaxPointSeqIs(rows, device); }
      var plan := PlanDevice(device, calm);
      rows := rows + during;
      match plan
      case Skip => return 0, false, true, false, Finished;
      case Unreadable => return 0, false, false, true, FailedEarly;
      case Rewrite(maxSeq, from) =>
        var rebuilt := RebuildVisitsForDeviceRange(device, from, None, calm);
        if rebuilt.None? {
          return 0, false, false, true, FailedEarly;
        }
        var upsertFails: bool :| calm ==> !upsertFails;
        if upsertFails {
          return 0, false, false, true, FailedLate;
        }
        watermark := watermark[device := maxSeq];
        return rebuilt.value, true, false, false, Finished;
    }

    /** The reading half: is there anything new, and from where on? */
    method PlanDevice(device: int, calm: bool) returns (plan: Plan)
      ensures plan.Skip? ==> UpToDate(rows, watermark, device)
      ensures calm ==> !plan.Unreadable?
      ensures plan.Rewrite? ==>
        && !UpToDate(rows, watermark, device)
        && plan == Rewrite(MaxPointSeq(rows, device), WindowStart(rows, watermark, device, lookback))
    {
      if device <= 0 {
        return Skip;
      }
      var readFails: bool :| calm ==> !readFails;
      if readFails {
        return Unreadable;
      }
      var maxSeq := MaxPointSeq(rows, device);
      if maxSeq == 0 {
        return Skip;
      }
      if device in watermark && maxSeq <= watermark[device] {
        return Skip;
      }
      return Rewrite(maxSeq, WindowStart(rows, watermark, device, lookback));
    }

    ghost function View(): Board
      reads this
    {
      Board(rows, visits, watermark)
    }

    /** One scheduler run: the listed devices, deduplicated and ordered, a batch of
        them in turn, each processed. Nothing happens while another run is under way
        or when the list (`None`) cannot be read. */
    method RunOnce(devices: Option<seq<Device>>, calm: bool)
      returns (result: RunResult, failed: bool, ghost picked: seq<Device>, ghost jobs: seq<Job>)
      modifies this
      ensures old(running) || devices.None? ==>
        && result == RunResult(0, 0, 0, 0, 0) && picked == [] && jobs == []
        && roundRobinStart == old(roundRobinStart)
      ensures failed <==> !old(running) && devices.None?
      ensures !old(running) && devices.Some? ==>
        Selects(SortedUnique(devices.value), batchSize, old(roundRobinStart), picked, roundRobinStart)
      ensures Does(picked, jobs) && running == old(running)
      ensures View() == WorkAll(cfg, lookback, old(View()), jobs)
      ensures result == Tally(cfg, lookback, old(View()), jobs)
      ensures calm ==> forall i :: 0 <= i < |jobs| ==> jobs[i].attempt.Finished?
    {
      if running {
        return RunResult(0, 0, 0, 0, 0), false, [], [];
      }
      running := true;
      if devices.None? {
        running := false;
        return RunResult(0, 0, 0, 0, 0), true, [], [];
      }
      var unique := SortedUniqueDevicesByID(devices.value);
      var batch := SelectDeviceBatch(unique);
      result, jobs := RunBatch(batch, calm);
      running, failed, picked := false, false, batch;
    }

    /** One run over a batch: every device is processed in turn and counted once, as
        skipped, updated or failed. */
    method RunBatch(batch: seq<Device>, calm: bool) returns (result: RunResult, ghost jobs: seq<Job>)
      modifies this`rows, this`visits, this`watermark
      ensures Does(batch, jobs)
      ensures View() == WorkAll(cfg, lookback, old(View()), jobs)
      ensures result == Tally(cfg, lookback, old(View()), jobs)
      ensures calm ==> forall i :: 0 <= i < |jobs| ==> jobs[i].attempt.Finished?
    {
      hide Work, Tally, Counted;
      result, jobs := RunResult(0, 0, 0, 0, 0), [];
      NothingDone(cfg, lookback, View());
      for i := 0 to |batch|
        invariant Does(batch[..i], jobs)
        invariant View() == WorkAll(cfg, lookback, old(View()), jobs)
        invariant result == Tally(cfg, lookback, old(View()), jobs)
        invariant calm ==> forall k :: 0 <= k < |jobs| ==> jobs[k].attempt.Finished?
      {
        ghost var job;
        result, job := ProcessAndCount(batch[i].id, result, calm);
        OneMoreJob(cfg, lookback, old(View()), jobs, job);
        jobs := jobs + [job];
      }
      assert batch[..|batch|] == batch;
    }

    method ProcessAndCount(device: int, result: RunResult, calm: bool) returns (result': RunResult, ghost job: Job)
      modifies this`rows, this`visits, this`watermark
      ensures job.device == device && (calm ==> job.attempt.Finished?)
      ensures View() == Work(cfg, lookback, old(View()), job)
      ensures result' == Counted(cfg, lookback, result, old(View()), job)
    {
      result' := result.(processed := result.processed + 1);
      var during: seq<PointRow> := *;
      ghost var attempt;
      var created, updated, skipped, failed;
      created, updated, skipped, failed, attempt := ProcessDevice(device, during, calm);
      job := Job(device, during, attempt);
      if failed {
        result' := result'.(errors := result'.errors + 1);
      } else if skipped {
        result' := result'.(skipped := result'.skipped + 1);
      } else {
        if updated {
          result' := result'.(updated := result'.updated + 1);
        }
        result' := result'.(created := result'.created + created);
      }
    }

    /** The scheduler's loop: a run at every tick, each with its own reading of the
        devices table. As long as those readings agree, enough successful ones process
        every device. */
    method Loop(listings: seq<Option<seq<Device>>>, calm: bool, ghost devices: seq<Device>) returns (ghost picks: seq<seq<Device>>)
      requires !running && batchSize > 0
      requires forall k :: 0 <= k < |listings| && listings[k].Some? ==> SortedUnique(listings[k].value) == devices
      modifies this
      ensures |picks| == Readings(listings) && !running
      ensures picks != [] && |picks| * batchSize >= |devices| ==>
        forall d :: d in devices ==> exists k :: 0 <= k < |picks| && d in picks[k]
    {
      picks := [];
      ghost var start := roundRobinStart;
      for i := 0 to |listings|
        invariant !running && |picks| == Readings(listings[..i])
        invariant InTurn(devices, batchSize, start, picks, roundRobinStart)
      {
        assert listings[..i + 1][..i] == listings[..i];
        ghost var at := roundRobinStart;
        var result, failed, picked, jobs := RunOnce(listings[i], calm);
        if listings[i].Some? {
          TurnStep(devices, batchSize, start, picks, at, picked, roundRobinStart);
          picks := picks + [picked];
        }
      }
      assert listings[..|listings|] == listings;
      if picks != [] && |picks| * batchSize >= |devices| {
        EveryTurnComes(devices, batchSize, start, picks, roundRobinStart);
      }
    }
  }

  /* -------------------------------- fairness -------------------------------- */

  /** The jobs are those devices, one each, in order. */
  ghost predicate Does(devices: seq<Device>, jobs: seq<Job>) {
    |jobs| == |devices| && forall i :: 0 <= i < |jobs| ==> jobs[i].device == devices[i].id
  }

  /** How many of the readings succeeded. */
  function Readings(listings: seq<Option<seq<Device>>>): nat {
    if listings == [] then 0
    else Readings(listings[..|listings| - 1]) + if listings[|listings| - 1].Some? then 1 else 0
  }

  /** The devices at the indices picked from `at` on. */
  function BatchAt(devices: seq<Device>, batch: nat, at: nat): seq<Device>
    requires devices != []
  {
    seq(batch, i requires 0 <= i < batch => devices[Picked(|devices|, batch, at)[i]])
  }

  /** `picked` is the selection from `devices` with the cursor at `start`, which moves
      on to `next`. */
  ghost predicate Selects(devices: seq<Device>, batch: nat, start: nat, picked: seq<Device>, next: nat) {
    var n := |devices|;
    if n <= batch then picked == devices && next == start
    else picked == BatchAt(devices, batch, CursorAfter(n, batch, start, 0)) && next == CursorAfter(n, batch, start, 1)
  }

  /** The selections of consecutive runs, the first with the cursor at `start`. */
  ghost predicate InTurn(devices: seq<Device>, batch: nat, start: nat, picks: seq<seq<Device>>, at: nat) {
    var n := |devices|;
    if n <= batch then at == start && forall k :: 0 <= k < |picks| ==> picks[k] == devices
    else
      && at % n == CursorAfter(n, batch, start, |picks|)
      && forall k :: 0 <= k < |picks| ==> picks[k] == BatchAt(devices, batch, CursorAfter(n, batch, start, k))
  }

  lemma CursorStep(n: nat, batch: nat, start: nat, rounds: nat, at: nat)
    requires n > 0 && at % n == CursorAfter(n, batch, start, rounds)
    ensures CursorAfter(n, batch, at, 0) == CursorAfter(n, batch, start, rounds)
    ensures CursorAfter(n, batch, at, 1) == CursorAfter(n, batch, start, rounds + 1)
    ensures CursorAfter(n, batch, start, rounds + 1) < n
  {
    assert CursorAfter(n, batch, at, 1) == (CursorAfter(n, batch, at, 0) + batch) % n;
  }

  lemma TurnStep(devices: seq<Device>, batch: nat, start: nat, picks: seq<seq<Device>>, at: nat,
                 picked: seq<Device>, next: nat)
    requires InTurn(devices, batch, start, picks, at) && Selects(devices, batch, at, picked, next)
    ensures InTurn(devices, batch, start, picks + [picked], next)
  {
    hide CursorAfter, BatchAt;
    var n := |devices|;
    if n > batch {
      CursorStep(n, batch, start, |picks|, at);
      RemainderWrap(next, n);
    }
  }

  lemma EveryTurnComes(devices: seq<Device>, batch: nat, start: nat, picks: seq<seq<Device>>, at: nat)
    requires InTurn(devices, batch, start, picks, at) && batch > 0
    requires picks != [] && |picks| * batch >= |devices|
    ensures forall d :: d in devices ==> exists k :: 0 <= k < |picks| && d in picks[k]
  {
    hide CursorAfter;
    var n := |devices|;
    forall d | d in devices ensures exists k :: 0 <= k < |picks| && d in picks[k] {
      if n <= batch {
        assert d in picks[0];
      } else {
        var j :| 0 <= j < n && devices[j] == d;
        var k := EveryDeviceIsPicked(n, batch, start, |picks|, j);
        DeviceInBatch(devices, batch, CursorAfter(n, batch, start, k), j);
        assert d in picks[k];
      }
    }
  }

  lemma DeviceInBatch(devices: seq<Device>, batch: nat, at: nat, j: nat)
    requires j < |devices| && j in Picked(|devices|, batch, at)
    ensures devices[j] in BatchAt(devices, batch, at)
  {
    var i :| 0 <= i < batch && Picked(|devices|, batch, at)[i] == j;
    assert BatchAt(devices, batch, at)[i] == devices[j];
  }

  /* ------------------------------ one rewrite ------------------------------- */

  /** A rewrite by the scheduler leaves exactly the detection of all points it reads
      if and only if they disturb nothing before its window, provided the stored
      visits were the detection of the old points. The first rewrite of a device has
      no window and is always exact. */
  lemma ProcessedIsFullIff(cfg: DetectConfig, old_: seq<PointRow>, added: seq<PointRow>,
                           visits: seq<VisitRow>, device: nat, from: Option<int>)
    requires DeviceVisits(visits, device) == Detected(cfg, AllPoints(old_, device))
    ensures
      DeviceVisits(Rebuilt(cfg, old_ + added, visits, device, from, None), device)
        == Detected(cfg, AllPoints(old_ + added, device))
      <==> StartUndisturbed(cfg, old_, added, device, from)
  {
    match from
    case None => FullRebuild(cfg, old_ + added, visits, device);
    case Some(at) => IncrementalIsFullIff(cfg, old_, added, visits, device, at);
  }

  ghost predicate StartUndisturbed(cfg: DetectConfig, old_: seq<PointRow>, added: seq<PointRow>,
                                   device: nat, from: Option<int>) {
    from.Some? ==> WindowUndisturbed(cfg, old_, added, device, from.value)
  }
}
