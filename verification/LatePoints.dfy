/** Points that come in older than the rewrite window, as from a phone that uploads
    what it recorded offline: when they are missed, for how long, and what brings them
    back. */
module LatePoints {
  import opened Ingest
  import opened Detector
  import opened DetectorSplit
  import opened DetectorCut
  import opened VisitTable
  import opened VisitScheduler
  import opened VisitRounds
  import opened LongStay

  /* ---------------------------- missed for good ----------------------------- */

  lemma {:induction false} FirstPartStillVisits(cfg: DetectConfig, p: seq<Fix>, q: seq<Fix>, i: nat)
    requires i <= |p| && Ascending(p + q) && VisitsFrom(cfg, p, i) != []
    ensures VisitsUntil(cfg, p + q, i, |p|) != []
    decreases |p| - i
  {
    if i < |p| && !StartsVisit(cfg, p + q, i) {
      StartBeforeCut(cfg, p, q, i);
      FirstPartStillVisits(cfg, p, q, i + 1);
    }
  }

  /** No new point of these rounds is older than `t`. */
  ghost predicate AllInTime(rounds: seq<Round>, device: nat, t: int) {
    forall k :: 0 <= k < |rounds| ==> InTime(NewRows(rounds[k]), device, t)
  }

  lemma {:induction false} EarlierStays(cfg: DetectConfig, lookback: int, device: nat, d: Desk, rounds: seq<Round>, t: int)
    requires AllInTime(rounds, device, t)
    ensures EarlierPoints(PlayAll(cfg, lookback, device, d, rounds).rows, device, t) == EarlierPoints(d.rows, device, t)
    decreases |rounds|
  {
    if rounds != [] {
      EarlierUnchanged(d.rows, NewRows(rounds[0]), device, t);
      assert forall k :: 0 <= k < |rounds[1..]| ==> rounds[1..][k] == rounds[k + 1];
      EarlierStays(cfg, lookback, device, Play(cfg, lookback, device, d, rounds[0]), rounds[1..], t);
    }
  }

  /** A backlog older than `t` that holds a visit by itself, none of which is stored:
      as long as windows open at `t` or later and no more late points come in, no run
      ever leaves what a full rebuild would. */
  lemma BacklogIsLost(cfg: DetectConfig, lookback: int, device: nat, d: Desk, rounds: seq<Round>, t: int)
    requires Detected(cfg, EarlierPoints(d.rows, device, t)) != []
    requires StartingBefore(DeviceVisits(d.visits, device), t) == []
    requires OpensFrom(cfg, lookback, device, d, rounds, t) && AllInTime(rounds, device, t)
    ensures !Current(cfg, device, PlayAll(cfg, lookback, device, d, rounds))
  {
    hide PlayAll, Current;
    var rows := PlayAll(cfg, lookback, device, d, rounds).rows;
    var p, q := EarlierPoints(rows, device, t), Points(rows, device, Some(t), None);
    EarlierStays(cfg, lookback, device, d, rounds, t);
    FrozenBefore(cfg, lookback, device, d, rounds, t);
    KeptOfDetected(cfg, rows, device, t);
    PointsSplit(rows, device, t);
    ShortHistory(cfg, p);
    FirstPartStillVisits(cfg, p, q, 0);
  }

  /* ------------------------------- found again ------------------------------ */

  /** A window that opens before every point and every stored visit is always right. */
  lemma WindowBeforeAll(cfg: DetectConfig, rows: seq<PointRow>, visits: seq<VisitRow>, device: nat, from: int)
    requires EarlierPoints(rows, device, from) == [] && StartingBefore(DeviceVisits(visits, device), from) == []
    ensures WindowIsRight(cfg, rows, visits, device, from)
  {
    var q := Points(rows, device, Some(from), None);
    assert [] + q == q && q[0..] == q;
  }

  /* ------------------------- a point inside a visit ------------------------- */

  ghost predicate Strict(ps: seq<Fix>) {
    forall i, j :: 0 <= i < j < |ps| ==> ps[i].at < ps[j].at
  }

  ghost function TimesIn(ps: seq<Fix>, w: Window): set<int>
    requires w.first <= w.last < |ps|
  {
    set k | w.first <= k <= w.last :: ps[k].at
  }

  lemma {:induction false} CountTimes(ps: seq<Fix>, w: Window)
    requires Strict(ps) && w.first <= w.last < |ps|
    ensures |TimesIn(ps, w)| == w.last - w.first + 1
    decreases w.last
  {
    if w.first < w.last {
      var shorter := Window(w.first, w.last - 1);
      CountTimes(ps, shorter);
      assert TimesIn(ps, w) == TimesIn(ps, shorter) + {ps[w.last].at};
    } else {
      assert TimesIn(ps, w) == {ps[w.last].at};
    }
  }

  lemma {:induction false} SelectFinds(rows: seq<PointRow>, device: nat, r: PointRow)
    ensures r in Select(rows, device, None, None) <==> r in rows && r.device == device
  {
    if rows != [] {
      SelectFinds(rows[..|rows| - 1], device, r);
      assert rows == rows[..|rows| - 1] + [rows[|rows| - 1]];
    }
  }

  lemma PointsFind(rows: seq<PointRow>, device: nat, r: PointRow) returns (k: nat)
    requires r in rows && r.device == device
    ensures k < |AllPoints(rows, device)| && AllPoints(rows, device)[k] == r.fix
  {
    var sel := Select(rows, device, None, None);
    SelectFinds(rows, device, r);
    SortFacts(sel);
    k :| 0 <= k < |Sort(sel)| && Sort(sel)[k] == r;
  }

  lemma PointsFrom(rows: seq<PointRow>, device: nat, k: nat) returns (r: PointRow)
    requires k < |AllPoints(rows, device)|
    ensures r in rows && r.device == device && r.fix == AllPoints(rows, device)[k]
  {
    var sel := Select(rows, device, None, None);
    SortFacts(sel);
    r := Sort(sel)[k];
    assert r in Sort(sel);
    SelectFinds(rows, device, r);
  }

  lemma WindowOfVisit(cfg: DetectConfig, ps: seq<Fix>, v: Visit) returns (w: Window)
    requires v in Detected(cfg, ps)
    ensures w.first <= w.last < |ps| && v == VisitOf(ps, w)
  {
    if Usable(cfg) { ShortHistory(cfg, ps); }
    ScanInRange(cfg, ps, 0);
    VisitsMatchScan(cfg, ps, 0);
    var m :| 0 <= m < |Detected(cfg, ps)| && Detected(cfg, ps)[m] == v;
    w := ScanFrom(cfg, ps, 0)[m];
  }

  /** All old instants of a visit, and a new one inside it, lie between its ends. */
  lemma MoreInside(old_: seq<PointRow>, added: seq<PointRow>, device: nat, w: Window, w': Window, x: PointRow)
    requires var ps, ps' := AllPoints(old_, device), AllPoints(old_ + added, device);
      && w.first <= w.last < |ps| && w'.first <= w'.last < |ps'| && Ascending(ps) && Strict(ps')
      && ps[w.first].at == ps'[w'.first].at < x.fix.at < ps'[w'.last].at == ps[w.last].at
    requires x in added && x.device == device
    ensures TimesIn(AllPoints(old_, device), w) + {x.fix.at} <= TimesIn(AllPoints(old_ + added, device), w')
  {
    var ps, ps' := AllPoints(old_, device), AllPoints(old_ + added, device);
    forall t | t in TimesIn(ps, w) + {x.fix.at} ensures t in TimesIn(ps', w') {
      var r := x;
      if t in TimesIn(ps, w) {
        var k :| w.first <= k <= w.last && ps[k].at == t;
        r := PointsFrom(old_, device, k);
        assert ps[w.first].at <= t <= ps[w.last].at;
      }
      var k := PointsFind(old_ + added, device, r);
      assert ps'[k].at == t;
    }
  }

  /** A late point that falls inside a stored visit is always missed: the rewrite does
      not touch the visit, and a full rebuild would count the point. (Histories without
      two points at one instant.) */
  lemma LatePointInside(cfg: DetectConfig, old_: seq<PointRow>, added: seq<PointRow>, visits: seq<VisitRow>,
                        device: nat, from: int, v: Visit, x: PointRow)
    requires Strict(AllPoints(old_, device)) && Strict(AllPoints(old_ + added, device))
    requires v in DeviceVisits(visits, device) && v in Detected(cfg, AllPoints(old_, device)) && v.startAt < from
    requires x in added && x.device == device && v.startAt < x.fix.at < v.endAt
    requires forall k :: 0 <= k < |AllPoints(old_, device)| ==> AllPoints(old_, device)[k].at != x.fix.at
    ensures DeviceVisits(Rebuilt(cfg, old_ + added, visits, device, Some(from), None), device)
      != Detected(cfg, AllPoints(old_ + added, device))
  {
    WindowedRebuild(cfg, old_ + added, visits, device, from);
    StartingBeforeHas(DeviceVisits(visits, device), from, v);
    hide Detected, AllPoints, DeviceVisits, Rebuilt, StartingBefore;
    var ps, ps' := AllPoints(old_, device), AllPoints(old_ + added, device);
    if v in Detected(cfg, ps') {
      var w := WindowOfVisit(cfg, ps, v);
      var w' := WindowOfVisit(cfg, ps', v);
      CountTimes(ps, w);
      CountTimes(ps', w');
      MoreInside(old_, added, device, w, w', x);
      Cardinality(TimesIn(ps, w) + {x.fix.at}, TimesIn(ps', w'));
      assert false;
    }
  }

  lemma {:induction false} StartingBeforeHas(vs: seq<Visit>, from: int, v: Visit)
    requires v in vs && v.startAt < from
    ensures v in StartingBefore(vs, from)
  {
    if v != vs[|vs| - 1] { StartingBeforeHas(vs[..|vs| - 1], from, v); }
  }

  lemma Cardinality(a: set<int>, b: set<int>)
    requires a <= b
    ensures |a| <= |b|
  {
    assert b == a + (b - a);
  }

  /* --------------------------------- inputs --------------------------------- */

  /** A point of now ... */
  const NOW := [RowAt(1, 100, 0.0)]

  /** ... then a stay from long ago, uploaded late ... */
  const BACKLOG := [RowAt(2, 1, 50.0), RowAt(3, 20, 50.0)]

  /** ... by itself, or in one run with the next point. */
  const NEXT := [RowAt(4, 110, 0.0)]

  lemma NowIsNoVisit(rows: seq<PointRow>)
    requires |rows| == 1
    ensures Detected(SMALL, FixesOf(rows)) == []
  {
  }

  /** Of three groups of rows only the middle one is read. */
  lemma MiddleOnly(a: seq<PointRow>, b: seq<PointRow>, c: seq<PointRow>, from: Option<int>, to: Option<int>)
    requires InOrder(b) && forall k :: 0 <= k < |b| ==> InWindow(b[k].fix.at, from, to)
    requires forall k :: 0 <= k < |a| ==> a[k].device == 1 && !InWindow(a[k].fix.at, from, to)
    requires forall k :: 0 <= k < |c| ==> c[k].device == 1 && !InWindow(c[k].fix.at, from, to)
    ensures Points(a + (b + c), 1, from, to) == FixesOf(b)
  {
    SelectConcat(a, b + c, from, to);
    SelectConcat(b, c, from, to);
    SelectUniform(a, from, to, false);
    SelectUniform(b, from, to, true);
    SelectUniform(c, from, to, false);
    assert [] + (b + []) == b;
    SortInOrder(b);
  }

  lemma BacklogEarlier(more: bool)
    ensures EarlierPoints(NOW + Late(more), 1, 75) == FixesOf(BACKLOG)
  {
    hide Points, FixesOf;
    MiddleOnly(NOW, BACKLOG, if more then NEXT else [], None, Some(74));
  }

  lemma BacklogIsVisit()
    ensures Detected(SMALL, FixesOf(BACKLOG)) != []
  {
    var ps := FixesOf(BACKLOG);
    assert Parked(SMALL, ps, 50.0, 0.0);
    ParkedIsOneVisit(SMALL, ps, 50.0, 0.0);
  }

  function Late(more: bool): seq<PointRow> {
    BACKLOG + if more then NEXT else []
  }

  lemma LateNumbers(more: bool)
    ensures var added := Late(more); var n := |added| - 1;
      && 0 <= n && added[n].device == 1 && added[n].seqNo == (if more then 4 else 3)
      && forall r :: r in NOW + added ==> r.seqNo <= added[n].seqNo
  {
  }

  lemma NowRound() returns (d: Desk)
    ensures d == Play(SMALL, 25, 1, EMPTY_DESK, Round(NOW, [], Finished))
    ensures d.rows == NOW && d.watermark == map[1 := 1] && DeviceVisits(d.visits, 1) == []
  {
    hide Play, Detected, DeviceVisits, Points;
    d := FirstRound(SMALL, 25, NOW);
    AllInOrder(NOW);
    NowIsNoVisit(NOW);
  }

  /** The first run reads NOW; the second opens its window at 75 and misses the stay. */
  lemma SecondRound(more: bool) returns (d: Desk)
    ensures d == PlayAll(SMALL, 25, 1, EMPTY_DESK, TwoRounds(NOW, Late(more)))
    ensures d.rows == NOW + Late(more) && d.watermark == map[1 := if more then 4 else 3]
    ensures DeviceVisits(d.visits, 1) == Detected(SMALL, Points(d.rows, 1, Some(75), None))
  {
    hide Play, PlayAll, Detected, DeviceVisits, Rebuilt, Points, Late;
    PlayTwo(SMALL, 25, NOW, Late(more));
    var first := NowRound();
    LateNumbers(more);
    d := NextRound(SMALL, 25, first, Late(more), 0);
    WindowedRebuild(SMALL, d.rows, first.visits, 1, 75);
    assert StartingBefore([], 75) == [];
    assert [] + Detected(SMALL, Points(d.rows, 1, Some(75), None)) == Detected(SMALL, Points(d.rows, 1, Some(75), None));
  }

  /** Nothing of the stay is stored, and nothing at all from before its time. */
  lemma NothingBefore(d: Desk, t: int)
    requires DeviceVisits(d.visits, 1) == Detected(SMALL, Points(d.rows, 1, Some(75), None)) && t <= 75
    ensures StartingBefore(DeviceVisits(d.visits, 1), t) == []
  {
    var q := Points(d.rows, 1, Some(75), None);
    PointsFacts(d.rows, 1, Some(75), None);
    StartsInside(SMALL, q);
    hide Detected, DeviceVisits;
    StartingBeforeCut([], Detected(SMALL, q), t);
    assert [] + Detected(SMALL, q) == Detected(SMALL, q);
  }

  /** Uploaded together with the next point, the stay is never found again, whatever
      comes in and however often the scheduler runs, until a window opens before 75. */
  lemma BacklogExample(rounds: seq<Round>)
    requires var d := PlayAll(SMALL, 25, 1, EMPTY_DESK, TwoRounds(NOW, Late(true)));
      OpensFrom(SMALL, 25, 1, d, rounds, 75) && AllInTime(rounds, 1, 75)
    ensures var d := PlayAll(SMALL, 25, 1, EMPTY_DESK, TwoRounds(NOW, Late(true)));
      !Current(SMALL, 1, PlayAll(SMALL, 25, 1, d, rounds))
  {
    hide PlayAll, OpensFrom, Current, Detected, DeviceVisits, Points, Late;
    var d := SecondRound(true);
    NothingBefore(d, 75);
    BacklogEarlier(true);
    BacklogIsVisit();
    BacklogIsLost(SMALL, 25, 1, d, rounds, 75);
  }

  lemma MissedAtFirst(d: Desk)
    requires d.rows == NOW + Late(false)
    requires DeviceVisits(d.visits, 1) == Detected(SMALL, Points(d.rows, 1, Some(75), None))
    ensures !Current(SMALL, 1, d)
  {
    assert PlayAll(SMALL, 25, 1, d, []) == d;
    assert OpensFrom(SMALL, 25, 1, d, [], 75);
    hide PlayAll, OpensFrom, Current, Detected, DeviceVisits, Points, Late;
    NothingBefore(d, 75);
    BacklogEarlier(false);
    BacklogIsVisit();
    BacklogIsLost(SMALL, 25, 1, d, [], 75);
  }

  lemma NextNumbers()
    ensures var rows := NOW + Late(false);
      && |rows| == 3 && rows[2] == RowAt(3, 20, 50.0) && rows[0].seqNo != 3 && rows[1].seqNo != 3
      && NEXT != [] && NEXT[|NEXT| - 1] == RowAt(4, 110, 0.0)
      && (forall r :: r in rows + NEXT ==> r.seqNo <= 4)
      && EarlierPoints(rows + NEXT, 1, -5) == []
  {
    SelectUniform(NOW + Late(false) + NEXT, None, Some(-6), false);
  }

  /** Uploaded by itself, it is missed by the run that comes next and found by the one
      after, because the watermark then stands at the late point. */
  lemma HealingExample()
    ensures var d := PlayAll(SMALL, 25, 1, EMPTY_DESK, TwoRounds(NOW, Late(false)));
      && !Current(SMALL, 1, d)
      && Current(SMALL, 1, Play(SMALL, 25, 1, d, Round(NEXT, [], Finished)))
  {
    hide PlayAll, Play, Current, Detected, DeviceVisits, StartingBefore, Points, Late, Rewriting, WindowOf, WindowIsRight;
    var d := SecondRound(false);
    MissedAtFirst(d);
    NextNumbers();
    var d' := NextRound(SMALL, 25, d, NEXT, 2);
    NothingBefore(d, -5);
    WindowBeforeAll(SMALL, d.rows + NEXT, d.visits, 1, -5);
    assert d.rows + NewRows(Round(NEXT, [], Finished)) == d.rows + NEXT;
    RunCurrentIff(SMALL, 25, 1, d, Round(NEXT, [], Finished));
  }
}
