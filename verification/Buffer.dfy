/** The bounded RAM queue with near-duplicate suppression. */
module Buffer {
  import opened Ingest

  /** What the buffer remembers of a device: its latest retained point. */
  datatype DedupeState = DedupeState(timestamp: int, lat: real, lon: real)

  datatype BufferState = BufferState(queue: seq<Record>, last: map<string, DedupeState>)

  datatype EnqueueOutcome = Accepted | MaxPointsExceeded | MaxBytesExceeded

  datatype FilterResult = FilterResult(out: seq<Record>, last: map<string, DedupeState>)

  const EMPTY := BufferState([], map[])

  predicate DedupeOn(cfg: Config) {
    cfg.dedupeTime != 0 || cfg.dedupeDistance != 0.0
  }

  function StateOf(r: Record): DedupeState {
    DedupeState(r.point.timestamp, r.point.lat, r.point.lon)
  }

  /** A suppressed record: it keeps its place in the sequence and drops its payload. */
  function Marker(r: Record): Record {
    r.(checkpointOnly := true, point := r.point.(payload := ""))
  }

  function Abs(x: int): nat {
    if x < 0 then -x else x
  }

  predicate CloseTo(cfg: Config, prev: DedupeState, r: Record) {
    && r.point.timestamp != ZERO_TIME
    && prev.timestamp != ZERO_TIME
    && Abs(r.point.timestamp - prev.timestamp) <= cfg.dedupeTime
    && cfg.distance(prev.lat, prev.lon, r.point.lat, r.point.lon) <= cfg.dedupeDistance
  }

  predicate IsNearDuplicate(cfg: Config, r: Record, last: map<string, DedupeState>) {
    r.deviceId in last && CloseTo(cfg, last[r.deviceId], r)
  }

  function FilterOne(cfg: Config, before: FilterResult, r: Record): FilterResult {
    if IsNearDuplicate(cfg, r, before.last)
    then before.(out := before.out + [Marker(r)])
    else FilterResult(before.out + [r], before.last[r.deviceId := StateOf(r)])
  }

  function FilterAll(cfg: Config, records: seq<Record>, last: map<string, DedupeState>): FilterResult {
    if records == [] then FilterResult([], last)
    else FilterOne(cfg, FilterAll(cfg, records[..|records| - 1], last), records[|records| - 1])
  }

  function Filter(cfg: Config, records: seq<Record>, last: map<string, DedupeState>): FilterResult {
    if !DedupeOn(cfg) then FilterResult(records, last) else FilterAll(cfg, records, last)
  }

  function EnqueueDecision(cfg: Config, b: BufferState, records: seq<Record>): EnqueueOutcome {
    var out := Filter(cfg, records, b.last).out;
    if records == [] then Accepted
    else if |b.queue| + |out| > cfg.maxPoints then MaxPointsExceeded
    else if TotalBytes(cfg.lineBytes, b.queue) + TotalBytes(cfg.lineBytes, out) > cfg.maxBytes then MaxBytesExceeded
    else Accepted
  }

  /** The state after an enqueue that was accepted. */
  function Enqueued(cfg: Config, b: BufferState, records: seq<Record>): BufferState {
    var f := Filter(cfg, records, b.last);
    BufferState(b.queue + f.out, f.last)
  }

  function AfterEnqueue(cfg: Config, b: BufferState, records: seq<Record>): BufferState {
    if EnqueueDecision(cfg, b, records) == Accepted then Enqueued(cfg, b, records) else b
  }

  function DrainCount(b: BufferState, n: nat): nat {
    if n > |b.queue| then |b.queue| else n
  }

  /* ------------------------------------------------------------------
     Dedupe over a whole history. `accepted` is everything one process life
     let into the queue, in order.
     ------------------------------------------------------------------ */

  /** The dedupe memory that a history leaves behind. */
  function LastRetained(cfg: Config, accepted: seq<Record>): map<string, DedupeState> {
    if accepted == [] || !DedupeOn(cfg) then map[]
    else
      var before := LastRetained(cfg, accepted[..|accepted| - 1]);
      var r := accepted[|accepted| - 1];
      if r.checkpointOnly then before else before[r.deviceId := StateOf(r)]
  }

  /** Every record of the history is a marker exactly when it was a near
      duplicate of what had been retained before it. */
  ghost predicate WellFiltered(cfg: Config, accepted: seq<Record>) {
    forall i :: 0 <= i < |accepted| ==>
      (accepted[i].checkpointOnly <==>
        DedupeOn(cfg) && IsNearDuplicate(cfg, accepted[i], LastRetained(cfg, accepted[..i])))
  }

  /** `w` is an earlier record that was kept and makes `r` redundant. */
  predicate Suppresses(cfg: Config, w: Record, r: Record) {
    && !w.checkpointOnly
    && w.seqNo < r.seqNo
    && w.deviceId == r.deviceId
    && CloseTo(cfg, StateOf(w), r)
  }

  lemma {:induction false} FilterAllShape(cfg: Config, records: seq<Record>, last: map<string, DedupeState>)
    ensures var out := FilterAll(cfg, records, last).out;
      && |out| == |records|
      && forall i :: 0 <= i < |out| ==> out[i] == records[i] || out[i] == Marker(records[i])
  {
    if records != [] {
      FilterAllShape(cfg, records[..|records| - 1], last);
    }
  }

  /** Suppression never drops or reorders: the output lines up with the input,
      each record itself or its marker. */
  lemma FilterShape(cfg: Config, records: seq<Record>, last: map<string, DedupeState>)
    ensures var out := Filter(cfg, records, last).out;
      && |out| == |records|
      && forall i :: 0 <= i < |out| ==> out[i] == records[i] || out[i] == Marker(records[i])
  {
    FilterAllShape(cfg, records, last);
  }

  /** The history with `out` behind it is well filtered and remembered as `last`. */
  ghost predicate Continues(cfg: Config, history: seq<Record>, f: FilterResult) {
    WellFiltered(cfg, history + f.out) && f.last == LastRetained(cfg, history + f.out)
  }

  lemma LastRetainedSnoc(cfg: Config, history: seq<Record>, e: Record)
    requires DedupeOn(cfg)
    ensures LastRetained(cfg, history + [e]) ==
      if e.checkpointOnly then LastRetained(cfg, history) else LastRetained(cfg, history)[e.deviceId := StateOf(e)]
  {
    assert (history + [e])[..|history|] == history;
  }

  lemma MarkerIsAsClose(cfg: Config, r: Record, last: map<string, DedupeState>)
    ensures IsNearDuplicate(cfg, Marker(r), last) == IsNearDuplicate(cfg, r, last)
  {
  }

  lemma FilterOneExtends(cfg: Config, history: seq<Record>, g: FilterResult, r: Record)
    requires DedupeOn(cfg) && Continues(cfg, history, g) && !r.checkpointOnly
    ensures Continues(cfg, history, FilterOne(cfg, g, r))
  {
    hide IsNearDuplicate, WellFiltered, LastRetained;
    var e := if IsNearDuplicate(cfg, r, g.last) then Marker(r) else r;
    var h := history + g.out;
    MarkerIsAsClose(cfg, r, g.last);
    WellFilteredSnoc(cfg, h, e);
    LastRetainedSnoc(cfg, h, e);
    assert history + (g.out + [e]) == h + [e];
  }

  lemma {:induction false} FilterAllExtends(cfg: Config, history: seq<Record>, records: seq<Record>)
    requires DedupeOn(cfg) && WellFiltered(cfg, history)
    requires forall r :: r in records ==> !r.checkpointOnly
    ensures Continues(cfg, history, FilterAll(cfg, records, LastRetained(cfg, history)))
  {
    if records == [] {
      assert history + [] == history;
    } else {
      var init, r := records[..|records| - 1], records[|records| - 1];
      assert r in records;
      FilterAllExtends(cfg, history, init);
      FilterOneExtends(cfg, history, FilterAll(cfg, init, LastRetained(cfg, history)), r);
    }
  }

  lemma WellFilteredSnoc(cfg: Config, history: seq<Record>, e: Record)
    requires WellFiltered(cfg, history)
    requires e.checkpointOnly <==> DedupeOn(cfg) && IsNearDuplicate(cfg, e, LastRetained(cfg, history))
    ensures WellFiltered(cfg, history + [e])
    ensures (history + [e])[..|history|] == history
  {
    var h := history + [e];
    forall i | 0 <= i < |h|
      ensures h[i].checkpointOnly <==> DedupeOn(cfg) && IsNearDuplicate(cfg, h[i], LastRetained(cfg, h[..i]))
    {
      if i < |history| {
        assert h[..i] == history[..i];
      } else {
        assert h[..i] == history;
      }
    }
  }

  /** An accepted enqueue keeps the whole history well filtered and the dedupe
      memory equal to what the history implies. */
  lemma FilterExtendsHistory(cfg: Config, history: seq<Record>, records: seq<Record>)
    requires WellFiltered(cfg, history)
    requires forall r :: r in records ==> !r.checkpointOnly
    ensures Continues(cfg, history, Filter(cfg, records, LastRetained(cfg, history)))
  {
    if DedupeOn(cfg) {
      FilterAllExtends(cfg, history, records);
    } else {
      var h := history + records;
      forall i | 0 <= i < |h| ensures !h[i].checkpointOnly {
        if i >= |history| { assert h[i] in records; }
      }
    }
  }

  lemma {:induction false} LastRetainedWitness(cfg: Config, history: seq<Record>, device: string) returns (k: nat)
    requires device in LastRetained(cfg, history)
    ensures k < |history|
    ensures !history[k].checkpointOnly && history[k].deviceId == device
    ensures LastRetained(cfg, history)[device] == StateOf(history[k])
    ensures forall j :: k < j < |history| && history[j].deviceId == device ==> history[j].checkpointOnly
  {
    var n := |history| - 1;
    var r := history[n];
    if !r.checkpointOnly && r.deviceId == device {
      k := n;
    } else {
      k := LastRetainedWitness(cfg, history[..n], device);
    }
  }

  lemma {:induction false} LastRetainedComplete(cfg: Config, history: seq<Record>, k: nat)
    requires DedupeOn(cfg) && k < |history| && !history[k].checkpointOnly
    ensures history[k].deviceId in LastRetained(cfg, history)
  {
    if k < |history| - 1 {
      LastRetainedComplete(cfg, history[..|history| - 1], k);
    }
  }

  /** Soundness of suppression: every marker of a life has an earlier retained
      record of the same device inside both thresholds. */
  lemma MarkerHasWitness(cfg: Config, accepted: seq<Record>, i: nat) returns (k: nat)
    requires WellFiltered(cfg, accepted) && Increasing(accepted)
    requires i < |accepted| && accepted[i].checkpointOnly
    ensures k < i && Suppresses(cfg, accepted[k], accepted[i])
  {
    k := LastRetainedWitness(cfg, accepted[..i], accepted[i].deviceId);
  }

  /** Two consecutive retained records of one device are never near duplicates. */
  lemma RetainedAreApart(cfg: Config, accepted: seq<Record>, i: nat, j: nat)
    requires DedupeOn(cfg) && WellFiltered(cfg, accepted)
    requires i < j < |accepted|
    requires accepted[i].deviceId == accepted[j].deviceId
    requires !accepted[i].checkpointOnly && !accepted[j].checkpointOnly
    requires forall m :: i < m < j && accepted[m].deviceId == accepted[i].deviceId ==> accepted[m].checkpointOnly
    ensures !CloseTo(cfg, StateOf(accepted[i]), accepted[j])
  {
    var before := accepted[..j];
    LastRetainedComplete(cfg, before, i);
    var k := LastRetainedWitness(cfg, before, accepted[j].deviceId);
    assert k == i;
  }

  /* ------------------------------------------------------------------
     The manager itself.
     ------------------------------------------------------------------ */

  datatype Entry = Entry(record: Record, sizeBytes: nat)

  function RecordsOf(q: seq<Entry>): seq<Record> {
    seq(|q|, i requires 0 <= i < |q| => q[i].record)
  }

  function CountFor(rs: seq<Record>, device: string): nat {
    if rs == [] then 0
    else CountFor(rs[..|rs| - 1], device) + if rs[|rs| - 1].deviceId == device then 1 else 0
  }

  ghost predicate CountsMatch(counts: map<string, int>, rs: seq<Record>) {
    forall d :: (d in counts <==> CountFor(rs, d) > 0) && (d in counts ==> counts[d] == CountFor(rs, d))
  }

  lemma {:induction false} CountForConcat(a: seq<Record>, b: seq<Record>, device: string)
    ensures CountFor(a + b, device) == CountFor(a, device) + CountFor(b, device)
  {
    if b == [] {
      assert a + b == a;
    } else {
      CountForConcat(a, b[..|b| - 1], device);
      assert (a + b)[..|a + b| - 1] == a + b[..|b| - 1];
    }
  }

  function Bump(counts: map<string, int>, device: string): map<string, int> {
    counts[device := (if device in counts then counts[device] else 0) + 1]
  }

  lemma CountsMatchSnoc(counts: map<string, int>, rs: seq<Record>, r: Record)
    requires CountsMatch(counts, rs)
    ensures CountsMatch(Bump(counts, r.deviceId), rs + [r])
  {
    assert (rs + [r])[..|rs|] == rs;
  }

  function Unbump(counts: map<string, int>, device: string): map<string, int>
    requires device in counts
  {
    if counts[device] - 1 <= 0 then counts - {device} else counts[device := counts[device] - 1]
  }

  lemma UnbumpHead(f: Record -> nat, counts: map<string, int>, rs: seq<Record>)
    requires rs != [] && CountsMatch(counts, rs)
    ensures rs[0].deviceId in counts && CountsMatch(Unbump(counts, rs[0].deviceId), rs[1..])
    ensures TotalBytes(f, rs) == f(rs[0]) + TotalBytes(f, rs[1..])
  {
    assert rs == [rs[0]] + rs[1..];
    TotalBytesConcat(f, [rs[0]], rs[1..]);
    assert [rs[0]][..0] == [];
    assert TotalBytes(f, [rs[0]]) == TotalBytes(f, []) + f(rs[0]);
    forall d ensures CountFor(rs, d) == CountFor(rs[1..], d) + if rs[0].deviceId == d then 1 else 0 {
      CountForConcat([rs[0]], rs[1..], d);
      assert CountFor([rs[0]], d) == CountFor([], d) + if rs[0].deviceId == d then 1 else 0;
    }
  }

  /** Totals do not depend on the order of the queue. */
  lemma SwapAccounts(f: Record -> nat, counts: map<string, int>, a: seq<Record>, b: seq<Record>)
    requires CountsMatch(counts, a + b)
    ensures CountsMatch(counts, b + a) && TotalBytes(f, b + a) == TotalBytes(f, a + b)
  {
    TotalBytesConcat(f, a, b);
    TotalBytesConcat(f, b, a);
    forall d ensures CountFor(b + a, d) == CountFor(a + b, d) {
      CountForConcat(a, b, d);
      CountForConcat(b, a, d);
    }
  }

  class Manager {
    const cfg: Config
    var totalPoints: int
    var totalBytes: int
    var queue: seq<Entry>
    var deviceCounts: map<string, int>
    var lastByDevice: map<string, DedupeState>

    /** The running totals and per-device counts always describe the queue. */
    ghost predicate Valid()
      reads this
    {
      && totalPoints == |queue|
      && totalBytes == TotalBytes(cfg.lineBytes, RecordsOf(queue))
      && (forall i :: 0 <= i < |queue| ==> queue[i].sizeBytes == cfg.lineBytes(queue[i].record))
      && CountsMatch(deviceCounts, RecordsOf(queue))
    }

    ghost function View(): BufferState
      reads this
    {
      BufferState(RecordsOf(queue), lastByDevice)
    }

    constructor (cfg: Config)
      ensures this.cfg == cfg && Valid() && View() == EMPTY
    {
      this.cfg := cfg;
      totalPoints, totalBytes, queue := 0, 0, [];
      deviceCounts, lastByDevice := map[], map[];
    }

    method FilterNearDuplicates(records: seq<Record>)
      returns (out: seq<Record>, updated: map<string, DedupeState>)
      ensures out == Filter(cfg, records, lastByDevice).out
      ensures lastByDevice + updated == Filter(cfg, records, lastByDevice).last
    {
      if cfg.dedupeTime == 0 && cfg.dedupeDistance == 0.0 {
        return records, map[];
      }
      var candidate := lastByDevice;
      updated, out := map[], [];
      for i := 0 to |records|
        invariant FilterResult(out, candidate) == FilterAll(cfg, records[..i], lastByDevice)
        invariant candidate == lastByDevice + updated
      {
        var r := records[i];
        assert records[..i + 1][..i] == records[..i];
        if IsNearDuplicate(cfg, r, candidate) {
          out := out + [Marker(r)];
        } else {
          candidate := candidate[r.deviceId := StateOf(r)];
          updated := updated[r.deviceId := StateOf(r)];
          out := out + [r];
        }
      }
      assert records[..|records|] == records;
    }

    method SizeOf(records: seq<Record>) returns (bytes: nat)
      ensures bytes == TotalBytes(cfg.lineBytes, records)
    {
      bytes := 0;
      for i := 0 to |records|
        invariant bytes == TotalBytes(cfg.lineBytes, records[..i])
      {
        assert records[..i + 1][..i] == records[..i];
        bytes := bytes + cfg.lineBytes(records[i]);
      }
      assert records[..|records|] == records;
    }

    /** All or nothing: a rejected call leaves queue, totals and dedupe memory alone. */
    method Enqueue(records: seq<Record>) returns (outcome: EnqueueOutcome)
      requires Valid()
      modifies this
      ensures Valid()
      ensures outcome == EnqueueDecision(cfg, old(View()), records)
      ensures View() == AfterEnqueue(cfg, old(View()), records)
    {
      if records == [] {
        assert RecordsOf(queue) + [] == RecordsOf(queue);
        return Accepted;
      }
      var filtered, nextDedupe := FilterNearDuplicates(records);
      FilterShape(cfg, records, lastByDevice);

      var incoming := SizeOf(filtered);
      if totalPoints + |filtered| > cfg.maxPoints {
        return MaxPointsExceeded;
      }
      if totalBytes + incoming > cfg.maxBytes {
        return MaxBytesExceeded;
      }

      PushAll(filtered);
      lastByDevice := lastByDevice + nextDedupe;
      return Accepted;
    }

    method PushAll(records: seq<Record>)
      requires Valid()
      modifies this
      ensures Valid() && lastByDevice == old(lastByDevice)
      ensures RecordsOf(queue) == old(RecordsOf(queue)) + records
    {
      for i := 0 to |records|
        invariant Valid()
        invariant RecordsOf(queue) == old(RecordsOf(queue)) + records[..i]
        invariant lastByDevice == old(lastByDevice)
      {
        Push(records[i]);
        assert records[..i + 1] == records[..i] + [records[i]];
      }
      assert records[..|records|] == records;
    }

    /** The body of the append loop: one entry and its accounting. */
    method Push(r: Record)
      requires Valid()
      modifies this
      ensures Valid() && lastByDevice == old(lastByDevice)
      ensures RecordsOf(queue) == old(RecordsOf(queue)) + [r]
    {
      CountsMatchSnoc(deviceCounts, RecordsOf(queue), r);
      TotalBytesConcat(cfg.lineBytes, RecordsOf(queue), [r]);
      assert TotalBytes(cfg.lineBytes, [r]) == TotalBytes(cfg.lineBytes, []) + cfg.lineBytes(r) by {
        assert [r][..0] == [];
      }
      var size := cfg.lineBytes(r);
      ghost var before := RecordsOf(queue);
      queue := queue + [Entry(r, size)];
      assert RecordsOf(queue) == before + [r];
      totalPoints := totalPoints + 1;
      totalBytes := totalBytes + size;
      deviceCounts := Bump(deviceCounts, r.deviceId);
    }

    /** The accounting for one entry that leaves; `rs` is what was accounted for. */
    method Discount(item: Entry, ghost rs: seq<Record>)
      requires rs != [] && item == Entry(rs[0], cfg.lineBytes(rs[0])) && CountsMatch(deviceCounts, rs)
      modifies this`totalPoints, this`totalBytes, this`deviceCounts
      ensures totalPoints == old(totalPoints) - 1
      ensures totalBytes == old(totalBytes) - cfg.lineBytes(rs[0])
      ensures CountsMatch(deviceCounts, rs[1..])
      ensures TotalBytes(cfg.lineBytes, rs) == cfg.lineBytes(rs[0]) + TotalBytes(cfg.lineBytes, rs[1..])
    {
      UnbumpHead(cfg.lineBytes, deviceCounts, rs);
      totalPoints := totalPoints - 1;
      totalBytes := totalBytes - item.sizeBytes;
      deviceCounts := Unbump(deviceCounts, item.record.deviceId);
    }

    /** Removes up to `maxPoints` records from the front, in order. */
    method DrainBatch(maxPoints: int) returns (drained: seq<Record>)
      requires Valid()
      modifies this
      ensures Valid()
      ensures maxPoints <= 0 ==> drained == [] && View() == old(View())
      ensures maxPoints > 0 ==>
        var n := DrainCount(old(View()), maxPoints);
        drained == old(View()).queue[..n] && View() == old(View()).(queue := old(View()).queue[n..])
    {
      if maxPoints <= 0 || |queue| == 0 {
        assert RecordsOf(queue)[..0] == [] && RecordsOf(queue)[0..] == RecordsOf(queue);
        return [];
      }
      var count := maxPoints;
      if count > |queue| {
        count := |queue|;
      }
      drained := TakeFront(count);
    }

    method TakeFront(count: nat) returns (drained: seq<Record>)
      requires Valid() && count <= |queue|
      modifies this
      ensures Valid() && lastByDevice == old(lastByDevice)
      ensures drained == old(RecordsOf(queue))[..count] && RecordsOf(queue) == old(RecordsOf(queue))[count..]
    {
      ghost var all := RecordsOf(queue);
      drained := [];
      assert all[0..] == all;
      for i := 0 to count
        invariant queue == old(queue) && lastByDevice == old(lastByDevice)
        invariant drained == all[..i]
        invariant totalPoints == |queue| - i
        invariant totalBytes == TotalBytes(cfg.lineBytes, all[i..])
        invariant CountsMatch(deviceCounts, all[i..])
      {
        drained := drained + [queue[i].record];
        Discount(queue[i], all[i..]);
        assert all[i..][1..] == all[i + 1..];
      }
      queue := queue[count..];
      assert RecordsOf(queue) == all[count..];
    }

    /** The accounting for one entry that comes back. */
    method Recount(r: Record, ghost rs: seq<Record>)
      requires CountsMatch(deviceCounts, rs)
      modifies this`totalPoints, this`totalBytes, this`deviceCounts
      ensures totalPoints == old(totalPoints) + 1
      ensures totalBytes == old(totalBytes) + cfg.lineBytes(r)
      ensures CountsMatch(deviceCounts, rs + [r])
      ensures TotalBytes(cfg.lineBytes, rs + [r]) == TotalBytes(cfg.lineBytes, rs) + cfg.lineBytes(r)
    {
      CountsMatchSnoc(deviceCounts, rs, r);
      assert (rs + [r])[..|rs|] == rs;
      totalPoints := totalPoints + 1;
      totalBytes := totalBytes + cfg.lineBytes(r);
      deviceCounts := Bump(deviceCounts, r.deviceId);
    }

    /** Puts a drained batch back in front, ignoring the limits. */
    method RequeueFront(records: seq<Record>)
      requires Valid()
      modifies this
      ensures Valid()
      ensures View() == old(View()).(queue := records + old(View()).queue)
    {
      ghost var rest := RecordsOf(queue);
      var prefix: seq<Entry> := [];
      assert rest + records[..0] == rest;
      for i := 0 to |records|
        invariant queue == old(queue) && lastByDevice == old(lastByDevice)
        invariant RecordsOf(prefix) == records[..i]
        invariant forall k :: 0 <= k < |prefix| ==> prefix[k].sizeBytes == cfg.lineBytes(prefix[k].record)
        invariant totalPoints == |queue| + i
        invariant totalBytes == TotalBytes(cfg.lineBytes, rest + records[..i])
        invariant CountsMatch(deviceCounts, rest + records[..i])
      {
        assert rest + records[..i + 1] == rest + records[..i] + [records[i]];
        Recount(records[i], rest + records[..i]);
        prefix := prefix + [Entry(records[i], cfg.lineBytes(records[i]))];
      }
      assert records[..|records|] == records;
      SwapAccounts(cfg.lineBytes, deviceCounts, rest, records);
      queue := prefix + queue;
      assert RecordsOf(queue) == records + rest;
    }

    /** The count the flusher reads. */
    method BufferedPoints() returns (n: nat)
      requires Valid()
      ensures n == |View().queue|
    {
      n := totalPoints;
    }
  }
}
