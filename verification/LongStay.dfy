/** What the rewrite does when its window opens in the middle of a stay: two visits
    for one as long as the device does not move, no harm once it has left. */
module LongStay {
  import opened Ingest
  import opened Detector
  import opened DetectorSplit
  import opened DetectorCut
  import opened VisitTable
  import opened VisitScheduler
  import opened VisitRounds

  /** All points are set and at one place, at no distance from itself. */
  ghost predicate Parked(cfg: DetectConfig, ps: seq<Fix>, lat: real, lon: real) {
    && Usable(cfg) && cfg.distance(lat, lon, lat, lon) == 0.0
    && forall i :: 0 <= i < |ps| ==> ps[i].lat == lat && ps[i].lon == lon && !Unset(ps[i])
  }

  lemma {:induction false} SumsOfParked(cfg: DetectConfig, ps: seq<Fix>, lat: real, lon: real, i: nat, j: nat)
    requires Parked(cfg, ps, lat, lon) && i <= j < |ps|
    ensures SumLat(ps, i, j) == (j - i + 1) as real * lat
    ensures SumLon(ps, i, j) == (j - i + 1) as real * lon
    decreases j
  {
    if i < j {
      SumsOfParked(cfg, ps, lat, lon, i, j - 1);
      var n := (j - i) as real;
      assert (j - i + 1) as real == n + 1.0;
      assert (n + 1.0) * lat == n * lat + lat && (n + 1.0) * lon == n * lon + lon;
    }
  }

  lemma MeanOfMultiple(n: real, x: real)
    requires n > 0.0
    ensures (n * x) / n == x
  {
  }

  lemma ParkedExtends(cfg: DetectConfig, ps: seq<Fix>, lat: real, lon: real, i: nat, j: nat)
    requires Parked(cfg, ps, lat, lon) && i <= j < |ps|
    ensures Extends(cfg, ps, i, j)
  {
    SumsOfParked(cfg, ps, lat, lon, i, j);
    var n := (j - i + 1) as real;
    MeanOfMultiple(n, lat);
    MeanOfMultiple(n, lon);
    assert MeanLat(ps, i, j) == lat && MeanLon(ps, i, j) == lon;
  }

  lemma {:induction false} ParkedReach(cfg: DetectConfig, ps: seq<Fix>, lat: real, lon: real, j: nat)
    requires Parked(cfg, ps, lat, lon) && j < |ps|
    ensures Reach(cfg, ps, 0, j) == |ps| - 1
    decreases |ps| - j
  {
    if j + 1 < |ps| {
      ParkedExtends(cfg, ps, lat, lon, 0, j + 1);
      ParkedReach(cfg, ps, lat, lon, j + 1);
    }
  }

  /** A parked device has one visit, the whole stay, once it is long enough. */
  lemma ParkedIsOneVisit(cfg: DetectConfig, ps: seq<Fix>, lat: real, lon: real)
    requires Parked(cfg, ps, lat, lon) && |ps| >= 2 && ps[|ps| - 1].at - ps[0].at >= cfg.minDwell
    ensures Detected(cfg, ps) == [VisitOf(ps, Window(0, |ps| - 1))]
  {
    ParkedReach(cfg, ps, lat, lon, 0);
    assert VisitsFrom(cfg, ps, |ps|) == [];
  }

  /** A parked history long enough to be a visit. */
  ghost predicate LongParked(cfg: DetectConfig, ps: seq<Fix>, lat: real, lon: real) {
    Parked(cfg, ps, lat, lon) && |ps| >= 2 && ps[|ps| - 1].at - ps[0].at >= cfg.minDwell
  }

  function WholeStay(ps: seq<Fix>): Visit
    requires ps != []
  {
    VisitOf(ps, Window(0, |ps| - 1))
  }

  /** A rewrite whose window opens inside a stay splits it: the stored visit from
      before the window survives with its old end, and a second, overlapping one is
      added, where detection of the whole history reports a single visit. */
  lemma LongStayIsDoubled(cfg: DetectConfig, old_: seq<PointRow>, added: seq<PointRow>, visits: seq<VisitRow>,
                          device: nat, from: int, lat: real, lon: real)
    requires LongParked(cfg, AllPoints(old_, device), lat, lon)
    requires LongParked(cfg, AllPoints(old_ + added, device), lat, lon)
    requires LongParked(cfg, Points(old_ + added, device, Some(from), None), lat, lon)
    requires DeviceVisits(visits, device) == Detected(cfg, AllPoints(old_, device))
    requires EarlierPoints(old_, device, from) != []
    ensures Detected(cfg, AllPoints(old_ + added, device)) == [WholeStay(AllPoints(old_ + added, device))]
    ensures DeviceVisits(Rebuilt(cfg, old_ + added, visits, device, Some(from), None), device) ==
      [WholeStay(AllPoints(old_, device)), WholeStay(Points(old_ + added, device, Some(from), None))]
  {
    hide Select, Sort, Detected, MeanLat, MeanLon, EarlierPoints, Kept, DeviceVisits, FixesOf, AllPoints, Points;
    var before, q := AllPoints(old_, device), Points(old_ + added, device, Some(from), None);
    ParkedIsOneVisit(cfg, AllPoints(old_ + added, device), lat, lon);
    ParkedIsOneVisit(cfg, q, lat, lon);
    ParkedIsOneVisit(cfg, before, lat, lon);
    WindowedRebuild(cfg, old_ + added, visits, device, from);
    FirstIsEarlier(old_, device, from);
    OneBefore(WholeStay(before), from);
  }

  lemma FirstIsEarlier(rows: seq<PointRow>, device: nat, from: int)
    requires EarlierPoints(rows, device, from) != []
    ensures AllPoints(rows, device) != [] && AllPoints(rows, device)[0].at < from
  {
    PointsSplit(rows, device, from);
    PointsFacts(rows, device, None, Some(from - 1));
    assert AllPoints(rows, device)[0] == EarlierPoints(rows, device, from)[0];
  }

  lemma OneBefore(v: Visit, from: int)
    requires v.startAt < from
    ensures StartingBefore([v], from) == [v]
  {
    assert [v][..0] == [];
    assert StartingBefore([], from) == [];
  }

  /* ------------------------------- two inputs ------------------------------- */

  /** Distance along a meridian, enough for the inputs below. */
  const SMALL := DetectConfig(10, 1.0, (a: real, b: real, c: real, d: real) => if a < c then c - a else a - c)

  function RowAt(seqNo: nat, at: int, lat: real): PointRow {
    PointRow(1, seqNo, Fix(at, lat, 0.0))
  }

  /** Rows of one device that are already in order are read as they are. */
  ghost predicate InOrder(rows: seq<PointRow>) {
    && (forall i :: 0 <= i < |rows| ==> rows[i].device == 1)
    && (forall i, j :: 0 <= i < j < |rows| ==> rows[i].fix.at < rows[j].fix.at)
  }

  lemma {:induction false} InsertLast(x: PointRow, rows: seq<PointRow>)
    requires forall i :: 0 <= i < |rows| ==> rows[i].fix.at < x.fix.at
    ensures Insert(x, rows) == rows + [x]
  {
    if rows != [] { InsertLast(x, rows[1..]); }
  }

  lemma {:induction false} SortInOrder(rows: seq<PointRow>)
    requires InOrder(rows)
    ensures Sort(rows) == rows
  {
    if rows != [] {
      SortInOrder(rows[..|rows| - 1]);
      InsertLast(rows[|rows| - 1], rows[..|rows| - 1]);
    }
  }

  lemma {:induction false} SelectConcat(a: seq<PointRow>, b: seq<PointRow>, from: Option<int>, to: Option<int>)
    ensures Select(a + b, 1, from, to) == Select(a, 1, from, to) + Select(b, 1, from, to)
  {
    if b == [] {
      assert a + b == a;
    } else {
      SelectConcat(a, b[..|b| - 1], from, to);
      assert (a + b)[..|a + b| - 1] == a + b[..|b| - 1];
    }
  }

  lemma {:induction false} SelectUniform(rows: seq<PointRow>, from: Option<int>, to: Option<int>, all: bool)
    requires forall k :: 0 <= k < |rows| ==> rows[k].device == 1 && InWindow(rows[k].fix.at, from, to) == all
    ensures Select(rows, 1, from, to) == if all then rows else []
  {
    if rows != [] { SelectUniform(rows[..|rows| - 1], from, to, all); }
  }

  /** A window over rows in order reads a stretch of them. */
  lemma PointsInOrder(a: seq<PointRow>, b: seq<PointRow>, c: seq<PointRow>, from: Option<int>, to: Option<int>)
    requires InOrder(a + b + c) && InOrder(b)
    requires forall k :: 0 <= k < |a| ==> a[k].device == 1 && !InWindow(a[k].fix.at, from, to)
    requires forall k :: 0 <= k < |b| ==> InWindow(b[k].fix.at, from, to)
    requires forall k :: 0 <= k < |c| ==> c[k].device == 1 && !InWindow(c[k].fix.at, from, to)
    ensures Points(a + b + c, 1, from, to) == FixesOf(b)
  {
    SelectConcat(a + b, c, from, to);
    SelectConcat(a, b, from, to);
    SelectUniform(a, from, to, false);
    SelectUniform(b, from, to, true);
    SelectUniform(c, from, to, false);
    assert Select(a + b + c, 1, from, to) == [] + b + [] == b;
    SortInOrder(b);
  }

  lemma AllInOrder(rows: seq<PointRow>)
    requires InOrder(rows)
    ensures Points(rows, 1, None, None) == FixesOf(rows)
  {
    SelectUniform(rows, None, None, true);
    SortInOrder(rows);
  }

  lemma ParkedRows(rows: seq<PointRow>)
    requires |rows| >= 2 && rows[|rows| - 1].fix.at - rows[0].fix.at >= 10
    requires forall k :: 0 <= k < |rows| ==> rows[k].fix.at > 0 && rows[k].fix.lat == 0.0 && rows[k].fix.lon == 0.0
    ensures LongParked(SMALL, FixesOf(rows), 0.0, 0.0)
  {
  }

  /** Three points of a parked device ... */
  const PARKED := [RowAt(1, 1, 0.0), RowAt(2, 20, 0.0), RowAt(3, 40, 0.0)]

  /** ... and a fourth that comes in. */
  const LATER := [RowAt(4, 50, 0.0)]

  lemma ParkedOld()
    ensures LongParked(SMALL, AllPoints(PARKED, 1), 0.0, 0.0)
  {
    hide Points, LongParked, FixesOf;
    AllInOrder(PARKED);
    ParkedRows(PARKED);
  }

  lemma ParkedEarlier()
    ensures EarlierPoints(PARKED, 1, 15) != []
  {
    hide Points, LongParked;
    assert [] + PARKED[..1] + PARKED[1..] == PARKED;
    PointsInOrder([], PARKED[..1], PARKED[1..], None, Some(14));
  }

  lemma ParkedAll()
    ensures LongParked(SMALL, AllPoints(PARKED + LATER, 1), 0.0, 0.0)
  {
    hide Points, LongParked, FixesOf;
    var all := [RowAt(1, 1, 0.0), RowAt(2, 20, 0.0), RowAt(3, 40, 0.0), RowAt(4, 50, 0.0)];
    assert PARKED + LATER == all;
    AllInOrder(all);
    ParkedRows(all);
  }

  lemma ParkedWindow()
    ensures LongParked(SMALL, Points(PARKED + LATER, 1, Some(15), None), 0.0, 0.0)
  {
    hide Points, LongParked, FixesOf;
    var first, more := PARKED[..1], PARKED[1..] + LATER;
    assert first + more + [] == PARKED + LATER;
    PointsInOrder(first, more, [], Some(15), None);
    ParkedRows(more);
  }

  /** With a window that opens after the first point, one stay is stored as two. */
  lemma ParkedExample(visits: seq<VisitRow>)
    requires DeviceVisits(visits, 1) == Detected(SMALL, AllPoints(PARKED, 1))
    ensures |Detected(SMALL, AllPoints(PARKED + LATER, 1))| == 1
    ensures |DeviceVisits(Rebuilt(SMALL, PARKED + LATER, visits, 1, Some(15), None), 1)| == 2
    ensures !WindowUndisturbed(SMALL, PARKED, LATER, 1, 15)
  {
    hide *;
    ParkedOld();
    ParkedEarlier();
    ParkedAll();
    ParkedWindow();
    LongStayIsDoubled(SMALL, PARKED, LATER, visits, 1, 15, 0.0, 0.0);
    IncrementalIsFullIff(SMALL, PARKED, LATER, visits, 1, 15);
  }

  /** The highest number of rows whose last one has it. */
  lemma {:induction false} MaxPointSeqLast(rows: seq<PointRow>, device: nat)
    requires rows != [] && rows[|rows| - 1].device == device && rows[|rows| - 1].seqNo > 0
    requires forall i :: 0 <= i < |rows| ==> rows[i].seqNo <= rows[|rows| - 1].seqNo
    ensures MaxPointSeq(rows, device) == rows[|rows| - 1].seqNo
  {
    MaxPointSeqAtMost(rows[..|rows| - 1], device, rows[|rows| - 1].seqNo);
  }

  lemma {:induction false} MaxPointSeqAtMost(rows: seq<PointRow>, device: nat, n: nat)
    requires forall i :: 0 <= i < |rows| ==> rows[i].seqNo <= n
    ensures MaxPointSeq(rows, device) <= n
  {
    if rows != [] { MaxPointSeqAtMost(rows[..|rows| - 1], device, n); }
  }

  lemma {:induction false} TimeOfRow(rows: seq<PointRow>, k: nat)
    requires k < |rows| && rows[k].device == 1 && rows[k].seqNo > 0
    requires forall i :: 0 <= i < k ==> rows[i].seqNo != rows[k].seqNo
    ensures TimeOfSeq(rows, 1, rows[k].seqNo) == Some(rows[k].fix.at)
  {
    if k > 0 { TimeOfRow(rows[1..], k - 1); }
  }

  /** The first run over a device: everything is read, and the watermark is the last
      row's number. */
  lemma FirstRound(cfg: DetectConfig, lookback: int, rows: seq<PointRow>) returns (d: Desk)
    requires rows != [] && rows[|rows| - 1].device == 1 && rows[|rows| - 1].seqNo > 0
    requires forall i :: 0 <= i < |rows| ==> rows[i].seqNo <= rows[|rows| - 1].seqNo
    ensures d == Play(cfg, lookback, 1, EMPTY_DESK, Round(rows, [], Finished))
    ensures d.rows == rows && d.watermark == map[1 := rows[|rows| - 1].seqNo] && d.seen == |rows|
    ensures DeviceVisits(d.visits, 1) == Detected(cfg, AllPoints(rows, 1))
  {
    hide Detected, AllPoints, DeviceVisits, Rebuilt, MaxPointSeq;
    d := Play(cfg, lookback, 1, EMPTY_DESK, Round(rows, [], Finished));
    assert [] + (rows + []) == rows && [] + rows == rows && rows + [] == rows;
    MaxPointSeqLast(rows, 1);
    FullRebuild(cfg, rows, [], 1);
  }

  /** A later run whose watermark is the number of row `k`: it rewrites from a lookback
      before that row on. */
  lemma NextRound(cfg: DetectConfig, lookback: int, d: Desk, added: seq<PointRow>, k: nat) returns (d': Desk)
    requires k < |d.rows| && d.rows[k].device == 1 && d.rows[k].seqNo > 0
    requires forall i :: 0 <= i < k ==> d.rows[i].seqNo != d.rows[k].seqNo
    requires d.watermark == map[1 := d.rows[k].seqNo]
    requires added != [] && added[|added| - 1].device == 1 && added[|added| - 1].seqNo > d.rows[k].seqNo
    requires forall r :: r in d.rows + added ==> r.seqNo <= added[|added| - 1].seqNo
    ensures var round := Round(added, [], Finished); var from := Some(d.rows[k].fix.at - lookback);
      && d' == Play(cfg, lookback, 1, d, round)
      && Rewriting(1, d, round) && WindowOf(lookback, 1, d, round) == from
      && d'.rows == d.rows + added && d'.watermark == map[1 := added[|added| - 1].seqNo]
      && d'.visits == Rebuilt(cfg, d.rows + added, d.visits, 1, from, None)
  {
    var rows := d.rows + added;
    d' := Play(cfg, lookback, 1, d, Round(added, [], Finished));
    assert d.rows + (added + []) == rows && rows + [] == rows;
    forall i | 0 <= i < |rows| ensures rows[i].seqNo <= added[|added| - 1].seqNo {
      assert rows[i] in rows;
    }
    MaxPointSeqLast(rows, 1);
    assert forall i :: 0 <= i <= k ==> rows[i] == d.rows[i];
    TimeOfRow(rows, k);
  }

  function TwoRounds(a: seq<PointRow>, b: seq<PointRow>): seq<Round> {
    [Round(a, [], Finished), Round(b, [], Finished)]
  }

  lemma PlayTwo(cfg: DetectConfig, lookback: int, a: seq<PointRow>, b: seq<PointRow>)
    ensures PlayAll(cfg, lookback, 1, EMPTY_DESK, TwoRounds(a, b)) ==
      Play(cfg, lookback, 1, Play(cfg, lookback, 1, EMPTY_DESK, Round(a, [], Finished)), Round(b, [], Finished))
  {
    hide Play;
    var rounds := TwoRounds(a, b);
    var d := Play(cfg, lookback, 1, EMPTY_DESK, rounds[0]);
    assert rounds[1..] == [rounds[1]] && rounds[1..][1..] == [];
    assert PlayAll(cfg, lookback, 1, d, rounds[1..]) ==
      PlayAll(cfg, lookback, 1, Play(cfg, lookback, 1, d, rounds[1]), []);
  }

  /** The scheduler gets there by itself: with a lookback of 25 its second run opens
      the window at 15, and the stay is stored twice. */
  lemma ParkedIsScheduled()
    ensures !Current(SMALL, 1, PlayAll(SMALL, 25, 1, EMPTY_DESK, TwoRounds(PARKED, LATER)))
  {
    hide Play, PlayAll, Detected, AllPoints, DeviceVisits, Rebuilt, WindowUndisturbed;
    PlayTwo(SMALL, 25, PARKED, LATER);
    var d := FirstRound(SMALL, 25, PARKED);
    var d' := NextRound(SMALL, 25, d, LATER, 2);
    ParkedExample(d.visits);
  }

  /* ------------------------- a straddle that does no harm ------------------- */

  /** Far enough apart that no two neighbours make a window. */
  ghost predicate Scattered(ps: seq<Fix>) {
    forall i :: 0 <= i < |ps| - 1 ==> ps[i + 1].lat > ps[i].lat + 2.0
  }

  lemma ScatteredStart(ps: seq<Fix>, i: nat)
    requires Scattered(ps) && i < |ps|
    ensures !StartsVisit(SMALL, ps, i)
  {
    if i + 1 < |ps| {
      assert SumLat(ps, i, i + 1) == SumLat(ps, i, i) + ps[i + 1].lat == ps[i].lat + ps[i + 1].lat;
      assert MeanLat(ps, i, i + 1) == (ps[i].lat + ps[i + 1].lat) / 2.0;
      assert !Tight(SMALL, ps, i, i + 1);
    }
  }

  lemma {:induction false} ScatteredHasNone(ps: seq<Fix>, i: nat)
    requires Scattered(ps) && i <= |ps|
    ensures VisitsFrom(SMALL, ps, i) == []
    decreases |ps| - i
  {
    if i < |ps| {
      ScatteredStart(ps, i);
      ScatteredHasNone(ps, i + 1);
    }
  }

  /** Two points in one place and the next one far away. */
  ghost predicate StayThenGone(ps: seq<Fix>) {
    |ps| >= 3 && ps[0] == Fix(1, 0.0, 0.0) && ps[1] == Fix(12, 0.0, 0.0) && ps[2].lat == 100.0
  }

  lemma StayThenGoneStraddles(ps: seq<Fix>)
    requires StayThenGone(ps)
    ensures StraddlingWindow(SMALL, ps, 1) == Some(Window(0, 1))
    ensures VisitOf(ps, Window(0, 1)) == Visit(1, 12, 0.0, 0.0, 2)
  {
    assert SumLat(ps, 0, 1) == SumLat(ps, 0, 0) + ps[1].lat == 0.0;
    assert SumLon(ps, 0, 1) == SumLon(ps, 0, 0) + ps[1].lon == 0.0;
    assert Extends(SMALL, ps, 0, 1);
    assert SumLat(ps, 0, 2) == SumLat(ps, 0, 1) + ps[2].lat == 100.0;
    assert MeanLat(ps, 0, 2) == 100.0 / 3.0;
    assert !Tight(SMALL, ps, 0, 2);
    assert Reach(SMALL, ps, 0, 0) == Reach(SMALL, ps, 0, 1) == 1;
  }

  /** A visit that has ended straddles the start of the window before and after, and
      a rewrite of what follows it is exact all the same. */
  lemma EndedStayIsHarmless(p: seq<Fix>, q: seq<Fix>, q': seq<Fix>)
    requires |p| == 1 && StayThenGone(p + q) && StayThenGone(p + q') && Scattered(q')
    ensures StraddlingWindow(SMALL, p + q', |p|) == Some(Window(0, 1))
    ensures Undisturbed(SMALL, p, q, q')
  {
    StayThenGoneStraddles(p + q);
    StayThenGoneStraddles(p + q');
    hide StraddlingWindow, VisitOf;
    assert TailLength(SMALL, p + q', 1) == 1;
    assert Scattered(q'[1..]);
    ScatteredHasNone(q', 0);
    ScatteredHasNone(q'[1..], 0);
  }

  lemma EndedStayExample()
    ensures var p, q := [Fix(1, 0.0, 0.0)], [Fix(12, 0.0, 0.0), Fix(20, 100.0, 0.0)];
      var q' := q + [Fix(25, 200.0, 0.0)];
      StraddlingWindow(SMALL, p + q', |p|).Some? && Undisturbed(SMALL, p, q, q')
  {
    var p, q := [Fix(1, 0.0, 0.0)], [Fix(12, 0.0, 0.0), Fix(20, 100.0, 0.0)];
    EndedStayIsHarmless(p, q, q + [Fix(25, 200.0, 0.0)]);
  }
}
