/** Visit detection: a greedy left-to-right scan for windows in which a device
    stayed near the window's own centroid for long enough. */
module Detector {

  datatype DetectConfig = DetectConfig(
    minDwell: int,
    maxRadius: real,
    distance: (real, real, real, real) -> real)

  /** A stored point; time 0 is the unset time. */
  datatype Fix = Fix(at: int, lat: real, lon: real)

  datatype Visit = Visit(startAt: int, endAt: int, centroidLat: real, centroidLon: real, count: nat)

  /** A window of consecutive points, both ends included. */
  datatype Window = Window(first: nat, last: nat)

  predicate Unset(p: Fix) {
    p.at == 0
  }

  /* --------------------------- the specification -------------------------- */

  function SumLat(ps: seq<Fix>, i: nat, j: nat): real
    requires i <= j < |ps|
    decreases j
  {
    if i == j then ps[j].lat else SumLat(ps, i, j - 1) + ps[j].lat
  }

  function SumLon(ps: seq<Fix>, i: nat, j: nat): real
    requires i <= j < |ps|
    decreases j
  {
    if i == j then ps[j].lon else SumLon(ps, i, j - 1) + ps[j].lon
  }

  function MeanLat(ps: seq<Fix>, i: nat, j: nat): real
    requires i <= j < |ps|
  {
    SumLat(ps, i, j) / (j - i + 1) as real
  }

  function MeanLon(ps: seq<Fix>, i: nat, j: nat): real
    requires i <= j < |ps|
  {
    SumLon(ps, i, j) / (j - i + 1) as real
  }

  /** Every point of the window is within the radius of the window's mean. */
  predicate Tight(cfg: DetectConfig, ps: seq<Fix>, i: nat, j: nat)
    requires i <= j < |ps|
  {
    forall k :: i <= k <= j ==>
      cfg.distance(ps[k].lat, ps[k].lon, MeanLat(ps, i, j), MeanLon(ps, i, j)) <= cfg.maxRadius
  }

  /** The window from `i` may grow to include `j`. */
  predicate Extends(cfg: DetectConfig, ps: seq<Fix>, i: nat, j: nat)
    requires i <= j < |ps|
  {
    !Unset(ps[j]) && Tight(cfg, ps, i, j)
  }

  /** How far the greedy window from `i` reaches, having reached `j`. */
  function Reach(cfg: DetectConfig, ps: seq<Fix>, i: nat, j: nat): (e: nat)
    requires i <= j < |ps|
    ensures j <= e < |ps|
    decreases |ps| - j
  {
    if j + 1 < |ps| && Extends(cfg, ps, i, j + 1) then Reach(cfg, ps, i, j + 1) else j
  }

  predicate StartsVisit(cfg: DetectConfig, ps: seq<Fix>, i: nat)
    requires i < |ps|
  {
    && !Unset(ps[i])
    && var e := Reach(cfg, ps, i, i);
       e > i && ps[e].at - ps[i].at >= cfg.minDwell
  }

  function ScanFrom(cfg: DetectConfig, ps: seq<Fix>, i: nat): seq<Window>
    decreases |ps| - i
  {
    if i >= |ps| then []
    else if StartsVisit(cfg, ps, i) then
      var e := Reach(cfg, ps, i, i);
      [Window(i, e)] + ScanFrom(cfg, ps, e + 1)
    else ScanFrom(cfg, ps, i + 1)
  }

  predicate Usable(cfg: DetectConfig) {
    cfg.minDwell > 0 && cfg.maxRadius > 0.0
  }

  function Scan(cfg: DetectConfig, ps: seq<Fix>): seq<Window> {
    if |ps| < 2 || !Usable(cfg) then [] else ScanFrom(cfg, ps, 0)
  }

  predicate InRange(ps: seq<Fix>, ws: seq<Window>) {
    forall k :: 0 <= k < |ws| ==> ws[k].first <= ws[k].last < |ps|
  }

  function VisitOf(ps: seq<Fix>, w: Window): Visit
    requires w.first <= w.last < |ps|
  {
    Visit(ps[w.first].at, ps[w.last].at, MeanLat(ps, w.first, w.last), MeanLon(ps, w.first, w.last),
          w.last - w.first + 1)
  }

  /* ------------------- what the scan finds, declaratively ------------------ */

  /** A greedy window: it grew point by point and could not grow further. */
  ghost predicate Greedy(cfg: DetectConfig, ps: seq<Fix>, w: Window) {
    && w.first <= w.last < |ps|
    && !Unset(ps[w.first])
    && (forall j :: w.first < j <= w.last ==> Extends(cfg, ps, w.first, j))
    && (w.last + 1 < |ps| ==> !Extends(cfg, ps, w.first, w.last + 1))
  }

  ghost predicate Qualifies(cfg: DetectConfig, ps: seq<Fix>, w: Window) {
    Greedy(cfg, ps, w) && w.last > w.first && ps[w.last].at - ps[w.first].at >= cfg.minDwell
  }

  ghost predicate CoveredBy(ws: seq<Window>, k: nat) {
    exists m :: 0 <= m < |ws| && ws[m].first <= k <= ws[m].last
  }

  /** The windows are disjoint, in order, all qualify, and no point left outside
      them starts a window that would have qualified. */
  ghost predicate GreedyCover(cfg: DetectConfig, ps: seq<Fix>, from: nat, ws: seq<Window>) {
    && (forall m :: 0 <= m < |ws| ==> from <= ws[m].first && Qualifies(cfg, ps, ws[m]))
    && (forall m, m' :: 0 <= m < m' < |ws| ==> ws[m].last < ws[m'].first)
    && (forall k :: from <= k < |ps| && !CoveredBy(ws, k) ==>
          forall e :: k <= e < |ps| ==> !Qualifies(cfg, ps, Window(k, e)))
  }

  lemma {:induction false} ReachIsGreedy(cfg: DetectConfig, ps: seq<Fix>, i: nat, j: nat)
    requires i <= j < |ps| && !Unset(ps[i])
    requires forall k :: i < k <= j ==> Extends(cfg, ps, i, k)
    ensures Greedy(cfg, ps, Window(i, Reach(cfg, ps, i, j)))
    decreases |ps| - j
  {
    if j + 1 < |ps| && Extends(cfg, ps, i, j + 1) {
      ReachIsGreedy(cfg, ps, i, j + 1);
    }
  }

  lemma GreedyUnique(cfg: DetectConfig, ps: seq<Fix>, i: nat, e: nat, e': nat)
    requires Greedy(cfg, ps, Window(i, e)) && Greedy(cfg, ps, Window(i, e'))
    ensures e == e'
  {
  }

  /** A point starts a visit of the scan exactly when some window from it qualifies. */
  lemma StartsVisitIff(cfg: DetectConfig, ps: seq<Fix>, i: nat)
    requires i < |ps|
    ensures StartsVisit(cfg, ps, i) <==> exists e :: Qualifies(cfg, ps, Window(i, e))
    ensures StartsVisit(cfg, ps, i) ==> Qualifies(cfg, ps, Window(i, Reach(cfg, ps, i, i)))
  {
    if !Unset(ps[i]) {
      ReachIsGreedy(cfg, ps, i, i);
      forall e | Qualifies(cfg, ps, Window(i, e)) ensures e == Reach(cfg, ps, i, i) {
        GreedyUnique(cfg, ps, i, e, Reach(cfg, ps, i, i));
      }
    }
  }

  lemma CoverCons(cfg: DetectConfig, ps: seq<Fix>, i: nat, e: nat, rest: seq<Window>)
    requires Qualifies(cfg, ps, Window(i, e)) && GreedyCover(cfg, ps, e + 1, rest)
    ensures GreedyCover(cfg, ps, i, [Window(i, e)] + rest)
  {
    hide Qualifies;
    QualifiesBounds(cfg, ps, Window(i, e));
    var ws := [Window(i, e)] + rest;
    assert forall m :: 0 <= m < |rest| ==> ws[m + 1] == rest[m];
    assert forall m :: 0 < m < |ws| ==> ws[m] == rest[m - 1];
    forall k | i <= k < |ps| && !CoveredBy(ws, k) ensures k > e && !CoveredBy(rest, k) {
      assert ws[0] == Window(i, e);
    }
  }

  lemma QualifiesBounds(cfg: DetectConfig, ps: seq<Fix>, w: Window)
    requires Qualifies(cfg, ps, w)
    ensures w.first < w.last < |ps|
  {
  }

  lemma CoverSkip(cfg: DetectConfig, ps: seq<Fix>, i: nat, ws: seq<Window>)
    requires GreedyCover(cfg, ps, i + 1, ws)
    requires forall e :: i <= e < |ps| ==> !Qualifies(cfg, ps, Window(i, e))
    ensures GreedyCover(cfg, ps, i, ws)
  {
  }

  /** The scan finds a greedy cover ... */
  lemma {:induction false} ScanIsCover(cfg: DetectConfig, ps: seq<Fix>, i: nat)
    ensures GreedyCover(cfg, ps, i, ScanFrom(cfg, ps, i))
    decreases |ps| - i
  {
    if i < |ps| {
      StartsVisitIff(cfg, ps, i);
      if StartsVisit(cfg, ps, i) {
        var e := Reach(cfg, ps, i, i);
        ScanIsCover(cfg, ps, e + 1);
        CoverCons(cfg, ps, i, e, ScanFrom(cfg, ps, e + 1));
      } else {
        ScanIsCover(cfg, ps, i + 1);
        CoverSkip(cfg, ps, i, ScanFrom(cfg, ps, i + 1));
      }
    }
  }

  /** ... and there is only one. */
  lemma {:induction false} CoverIsScan(cfg: DetectConfig, ps: seq<Fix>, i: nat, ws: seq<Window>)
    requires GreedyCover(cfg, ps, i, ws)
    ensures ws == ScanFrom(cfg, ps, i)
    decreases |ps| - i
  {
    hide Reach, StartsVisit;
    if i < |ps| {
      StartsVisitIff(cfg, ps, i);
      if ws != [] && ws[0].first == i {
        HeadIsReach(cfg, ps, i, ws);
        CoverTail(cfg, ps, i, ws);
        CoverIsScan(cfg, ps, ws[0].last + 1, ws[1..]);
        assert ws == [ws[0]] + ws[1..];
      } else {
        CoverWithoutHead(cfg, ps, i, ws);
        CoverIsScan(cfg, ps, i + 1, ws);
      }
    } else if ws != [] {
      QualifiesBounds(cfg, ps, ws[0]);
    }
  }

  lemma HeadIsReach(cfg: DetectConfig, ps: seq<Fix>, i: nat, ws: seq<Window>)
    requires GreedyCover(cfg, ps, i, ws) && ws != [] && ws[0].first == i
    ensures i < |ps| && StartsVisit(cfg, ps, i) && ws[0] == Window(i, Reach(cfg, ps, i, i))
  {
    assert Qualifies(cfg, ps, ws[0]);
    assert ws[0] == Window(i, ws[0].last);
    StartsVisitIff(cfg, ps, i);
    GreedyUnique(cfg, ps, i, ws[0].last, Reach(cfg, ps, i, i));
  }

  lemma CoverWithoutHead(cfg: DetectConfig, ps: seq<Fix>, i: nat, ws: seq<Window>)
    requires i < |ps| && GreedyCover(cfg, ps, i, ws) && (ws == [] || ws[0].first != i)
    ensures GreedyCover(cfg, ps, i + 1, ws) && !StartsVisit(cfg, ps, i)
  {
    forall m | 0 <= m < |ws| ensures ws[m].first > i {
      if m > 0 {
        assert ws[0].last < ws[m].first;
        QualifiesBounds(cfg, ps, ws[0]);
      }
    }
    assert !CoveredBy(ws, i);
    StartsVisitIff(cfg, ps, i);
  }

  lemma CoverTail(cfg: DetectConfig, ps: seq<Fix>, i: nat, ws: seq<Window>)
    requires GreedyCover(cfg, ps, i, ws) && ws != []
    ensures GreedyCover(cfg, ps, ws[0].last + 1, ws[1..])
  {
    var rest := ws[1..];
    forall k | ws[0].last + 1 <= k < |ps| && !CoveredBy(rest, k) ensures !CoveredBy(ws, k) && i <= k {
      assert Qualifies(cfg, ps, ws[0]);
      assert forall m :: 0 < m < |ws| ==> ws[m] == rest[m - 1];
    }
  }

  lemma ScanInRange(cfg: DetectConfig, ps: seq<Fix>, i: nat)
    ensures InRange(ps, ScanFrom(cfg, ps, i))
    ensures forall m :: 0 <= m < |ScanFrom(cfg, ps, i)| ==> ScanFrom(cfg, ps, i)[m].first >= i
  {
    ScanIsCover(cfg, ps, i);
    var ws := ScanFrom(cfg, ps, i);
    forall m | 0 <= m < |ws| ensures ws[m].first <= ws[m].last < |ps| {
      assert Qualifies(cfg, ps, ws[m]);
    }
  }

  /** The visits found from `i` on. */
  function VisitsFrom(cfg: DetectConfig, ps: seq<Fix>, i: nat): seq<Visit>
    decreases |ps| - i
  {
    if i >= |ps| then []
    else if StartsVisit(cfg, ps, i) then
      var e := Reach(cfg, ps, i, i);
      [VisitOf(ps, Window(i, e))] + VisitsFrom(cfg, ps, e + 1)
    else VisitsFrom(cfg, ps, i + 1)
  }

  function Detected(cfg: DetectConfig, ps: seq<Fix>): seq<Visit> {
    if |ps| < 2 || !Usable(cfg) then [] else VisitsFrom(cfg, ps, 0)
  }

  /** Detection reports exactly the windows of the scan: their times, mean
      position and number of points. */
  lemma {:induction false} VisitsMatchScan(cfg: DetectConfig, ps: seq<Fix>, i: nat)
    ensures var ws, vs := ScanFrom(cfg, ps, i), VisitsFrom(cfg, ps, i);
      && |vs| == |ws| && InRange(ps, ws)
      && forall k :: 0 <= k < |ws| ==> vs[k] == VisitOf(ps, ws[k])
    decreases |ps| - i
  {
    ScanInRange(cfg, ps, i);
    if i < |ps| {
      VisitsMatchScan(cfg, ps, if StartsVisit(cfg, ps, i) then Reach(cfg, ps, i, i) + 1 else i + 1);
    }
  }

  /** What `Detect` returns, said without the scan: the visits are those of the
      one greedy cover of the history. */
  lemma DetectedIsGreedyCover(cfg: DetectConfig, ps: seq<Fix>, ws: seq<Window>)
    requires Usable(cfg) && |ps| >= 2
    ensures GreedyCover(cfg, ps, 0, ws) ==>
      && InRange(ps, ws) && |Detected(cfg, ps)| == |ws|
      && forall k :: 0 <= k < |ws| ==> Detected(cfg, ps)[k] == VisitOf(ps, ws[k])
    ensures GreedyCover(cfg, ps, 0, Scan(cfg, ps))
  {
    ScanIsCover(cfg, ps, 0);
    VisitsMatchScan(cfg, ps, 0);
    if GreedyCover(cfg, ps, 0, ws) {
      CoverIsScan(cfg, ps, 0, ws);
    }
  }

  /* ---------------------- the visits, field by field ----------------------- */

  /** How far the window's points lie from a latitude, with sign, all together. */
  function DriftLat(ps: seq<Fix>, i: nat, j: nat, lat: real): real
    requires i <= j < |ps|
    decreases j
  {
    ps[j].lat - lat + if i == j then 0.0 else DriftLat(ps, i, j - 1, lat)
  }

  function DriftLon(ps: seq<Fix>, i: nat, j: nat, lon: real): real
    requires i <= j < |ps|
    decreases j
  {
    ps[j].lon - lon + if i == j then 0.0 else DriftLon(ps, i, j - 1, lon)
  }

  /** The window's points lie around this place evenly. */
  ghost predicate Centroid(ps: seq<Fix>, i: nat, j: nat, lat: real, lon: real) {
    i <= j < |ps| && DriftLat(ps, i, j, lat) == 0.0 && DriftLon(ps, i, j, lon) == 0.0
  }

  ghost predicate AllWithin(cfg: DetectConfig, ps: seq<Fix>, i: nat, j: nat, lat: real, lon: real)
    requires i <= j < |ps|
  {
    forall k :: i <= k <= j ==> cfg.distance(ps[k].lat, ps[k].lon, lat, lon) <= cfg.maxRadius
  }

  /** All points of the window are within the radius of its centroid. */
  ghost predicate Together(cfg: DetectConfig, ps: seq<Fix>, i: nat, j: nat) {
    exists lat, lon :: Centroid(ps, i, j, lat, lon) && AllWithin(cfg, ps, i, j, lat, lon)
  }

  /** A stay: at least two points, all with a time, that kept together from the second
      on, that could not have taken in the next one, and that last long enough. */
  ghost predicate Stay(cfg: DetectConfig, ps: seq<Fix>, w: Window) {
    && w.first < w.last < |ps|
    && (forall k :: w.first <= k <= w.last ==> ps[k].at != 0)
    && (forall j :: w.first < j <= w.last ==> Together(cfg, ps, w.first, j))
    && (w.last + 1 < |ps| ==> ps[w.last + 1].at == 0 || !Together(cfg, ps, w.first, w.last + 1))
    && ps[w.last].at - ps[w.first].at >= cfg.minDwell
  }

  /** The visit reports the window: when it began and ended, around which place it
      was and how many points it has. */
  ghost predicate Reports(ps: seq<Fix>, w: Window, v: Visit) {
    && w.first <= w.last < |ps|
    && v.startAt == ps[w.first].at && v.endAt == ps[w.last].at && v.count == w.last - w.first + 1
    && Centroid(ps, w.first, w.last, v.centroidLat, v.centroidLon)
  }

  /** The windows are stays, in order and apart, and no point outside them begins one. */
  ghost predicate AllStays(cfg: DetectConfig, ps: seq<Fix>, ws: seq<Window>) {
    && (forall m :: 0 <= m < |ws| ==> Stay(cfg, ps, ws[m]))
    && (forall m, m' :: 0 <= m < m' < |ws| ==> ws[m].last < ws[m'].first)
    && (forall k, e :: 0 <= k < |ps| && !CoveredBy(ws, k) ==> !Stay(cfg, ps, Window(k, e)))
  }

  /** What visit detection should return. */
  ghost predicate AreTheVisits(cfg: DetectConfig, ps: seq<Fix>, vs: seq<Visit>) {
    if |ps| < 2 || cfg.minDwell <= 0 || cfg.maxRadius <= 0.0 then vs == []
    else exists ws :: AllStays(cfg, ps, ws) && ReportsAll(ps, ws, vs)
  }

  ghost predicate ReportsAll(ps: seq<Fix>, ws: seq<Window>, vs: seq<Visit>) {
    |vs| == |ws| && forall m :: 0 <= m < |ws| ==> Reports(ps, ws[m], vs[m])
  }

  lemma {:induction false} DriftIsDifference(ps: seq<Fix>, i: nat, j: nat, lat: real, lon: real)
    requires i <= j < |ps|
    ensures DriftLat(ps, i, j, lat) == SumLat(ps, i, j) - (j - i + 1) as real * lat
    ensures DriftLon(ps, i, j, lon) == SumLon(ps, i, j) - (j - i + 1) as real * lon
    decreases j
  {
    if i < j {
      DriftIsDifference(ps, i, j - 1, lat, lon);
      var n := (j - i) as real;
      assert (j - i + 1) as real == n + 1.0;
      assert (n + 1.0) * lat == n * lat + lat && (n + 1.0) * lon == n * lon + lon;
    }
  }

  lemma QuotientIs(a: real, n: real, x: real)
    requires n > 0.0
    ensures a - n * x == 0.0 <==> x == a / n
  {
    var q := a / n;
    assert q * n == a;
    if a - n * x == 0.0 {
      assert (q - x) * n == 0.0;
    }
  }

  /** The mean is the one centroid. */
  lemma CentroidIsMean(ps: seq<Fix>, i: nat, j: nat, lat: real, lon: real)
    requires i <= j < |ps|
    ensures Centroid(ps, i, j, lat, lon) <==> lat == MeanLat(ps, i, j) && lon == MeanLon(ps, i, j)
  {
    DriftIsDifference(ps, i, j, lat, lon);
    QuotientIs(SumLat(ps, i, j), (j - i + 1) as real, lat);
    QuotientIs(SumLon(ps, i, j), (j - i + 1) as real, lon);
  }

  lemma TightIff(cfg: DetectConfig, ps: seq<Fix>, i: nat, j: nat)
    requires i <= j < |ps|
    ensures Tight(cfg, ps, i, j) <==> Together(cfg, ps, i, j)
  {
    CentroidIsMean(ps, i, j, MeanLat(ps, i, j), MeanLon(ps, i, j));
    if Together(cfg, ps, i, j) {
      var lat, lon :| Centroid(ps, i, j, lat, lon) && AllWithin(cfg, ps, i, j, lat, lon);
      CentroidIsMean(ps, i, j, lat, lon);
    }
  }

  lemma QualifiesIff(cfg: DetectConfig, ps: seq<Fix>, w: Window)
    ensures Qualifies(cfg, ps, w) <==> Stay(cfg, ps, w)
  {
    if w.first <= w.last < |ps| {
      forall j | w.first <= j < |ps| ensures Tight(cfg, ps, w.first, j) <==> Together(cfg, ps, w.first, j) {
        TightIff(cfg, ps, w.first, j);
      }
      hide Tight, Together;
      if Stay(cfg, ps, w) {
        forall j | w.first < j <= w.last ensures Extends(cfg, ps, w.first, j) {
        }
      }
      if Qualifies(cfg, ps, w) {
        forall k | w.first <= k <= w.last ensures ps[k].at != 0 {
          if k > w.first { assert Extends(cfg, ps, w.first, k); }
        }
        forall j | w.first < j <= w.last ensures Together(cfg, ps, w.first, j) {
          assert Extends(cfg, ps, w.first, j);
        }
      }
    }
  }

  lemma CoverIff(cfg: DetectConfig, ps: seq<Fix>, ws: seq<Window>)
    ensures GreedyCover(cfg, ps, 0, ws) <==> AllStays(cfg, ps, ws)
  {
    forall w ensures Qualifies(cfg, ps, w) <==> Stay(cfg, ps, w) {
      QualifiesIff(cfg, ps, w);
    }
    hide Qualifies, Stay, CoveredBy;
    if GreedyCover(cfg, ps, 0, ws) {
      forall k, e | 0 <= k < |ps| && !CoveredBy(ws, k) ensures !Stay(cfg, ps, Window(k, e)) {
        if Stay(cfg, ps, Window(k, e)) { QualifiesBounds(cfg, ps, Window(k, e)); }
      }
    }
  }

  lemma ReportsIff(ps: seq<Fix>, w: Window, v: Visit)
    requires w.first <= w.last < |ps|
    ensures Reports(ps, w, v) <==> v == VisitOf(ps, w)
  {
    CentroidIsMean(ps, w.first, w.last, v.centroidLat, v.centroidLon);
    hide MeanLat, MeanLon;
  }

  /** Visit detection in full: a list of visits is what `Detect` returns if and only if
      it reports, in order, the stays of the history that leave no point beginning
      another one, or is empty where the program does not look. */
  lemma DetectedIff(cfg: DetectConfig, ps: seq<Fix>, vs: seq<Visit>)
    ensures vs == Detected(cfg, ps) <==> AreTheVisits(cfg, ps, vs)
  {
    if |ps| >= 2 && cfg.minDwell > 0 && cfg.maxRadius > 0.0 {
      hide AllStays, GreedyCover, Reports, VisitOf, ScanFrom, VisitsFrom;
      var scan := Scan(cfg, ps);
      DetectedIsGreedyCover(cfg, ps, scan);
      CoverIff(cfg, ps, scan);
      ReportsAllIff(ps, scan, vs);
      forall ws | AllStays(cfg, ps, ws) ensures ws == scan {
        CoverIff(cfg, ps, ws);
        CoverIsScan(cfg, ps, 0, ws);
      }
    }
  }

  lemma ReportsAllIff(ps: seq<Fix>, ws: seq<Window>, vs: seq<Visit>)
    requires InRange(ps, ws)
    ensures ReportsAll(ps, ws, vs) <==> |vs| == |ws| && forall m :: 0 <= m < |ws| ==> vs[m] == VisitOf(ps, ws[m])
  {
    if |vs| == |ws| {
      forall m | 0 <= m < |ws| ensures Reports(ps, ws[m], vs[m]) <==> vs[m] == VisitOf(ps, ws[m]) {
        ReportsIff(ps, ws[m], vs[m]);
      }
    }
  }

  /* ------------------------------ the algorithm ---------------------------- */

  method WindowWithinRadius(ps: seq<Fix>, start: nat, end: nat, lat: real, lon: real, cfg: DetectConfig)
    returns (ok: bool)
    requires start <= end < |ps|
    ensures ok <==> forall k :: start <= k <= end ==> cfg.distance(ps[k].lat, ps[k].lon, lat, lon) <= cfg.maxRadius
  {
    for i := start to end + 1
      invariant forall k :: start <= k < i ==> cfg.distance(ps[k].lat, ps[k].lon, lat, lon) <= cfg.maxRadius
    {
      if cfg.distance(ps[i].lat, ps[i].lon, lat, lon) > cfg.maxRadius {
        return false;
      }
    }
    return true;
  }

  /** The inner loop: grow the window from `i` as far as it goes. */
  method Grow(ps: seq<Fix>, i: nat, cfg: DetectConfig) returns (end: nat, sumLat: real, sumLon: real)
    requires i < |ps|
    ensures end == Reach(cfg, ps, i, i)
    ensures sumLat == SumLat(ps, i, end) && sumLon == SumLon(ps, i, end)
  {
    sumLat, sumLon, end := ps[i].lat, ps[i].lon, i;
    var j := i + 1;
    while j < |ps|
      invariant j == end + 1 && i <= end < |ps|
      invariant sumLat == SumLat(ps, i, end) && sumLon == SumLon(ps, i, end)
      invariant Reach(cfg, ps, i, i) == Reach(cfg, ps, i, end)
    {
      if Unset(ps[j]) {
        break;
      }
      var trialCount := j - i + 1;
      var trialSumLat := sumLat + ps[j].lat;
      var trialSumLon := sumLon + ps[j].lon;
      var ok := WindowWithinRadius(ps, i, j, trialSumLat / trialCount as real, trialSumLon / trialCount as real, cfg);
      if !ok {
        break;
      }
      sumLat, sumLon, end := trialSumLat, trialSumLon, j;
      j := j + 1;
    }
  }

  method Detect(ps: seq<Fix>, cfg: DetectConfig) returns (out: seq<Visit>)
    ensures out == Detected(cfg, ps) && AreTheVisits(cfg, ps, out)
  {
    hide AreTheVisits, Reach, SumLat, SumLon;
    DetectedIff(cfg, ps, Detected(cfg, ps));
    if |ps| < 2 {
      return [];
    }
    if cfg.minDwell <= 0 || cfg.maxRadius <= 0.0 {
      return [];
    }
    out := [];
    var i := 0;
    while i < |ps|
      invariant out + VisitsFrom(cfg, ps, i) == VisitsFrom(cfg, ps, 0)
    {
      if Unset(ps[i]) {
        i := i + 1;
        continue;
      }
      var end, sumLat, sumLon := Grow(ps, i, cfg);
      if end > i && ps[end].at - ps[i].at >= cfg.minDwell {
        var count := end - i + 1;
        var visit := Visit(ps[i].at, ps[end].at, sumLat / count as real, sumLon / count as real, count);
        assert visit == VisitOf(ps, Window(i, end));
        assert out + ([visit] + VisitsFrom(cfg, ps, end + 1)) == (out + [visit]) + VisitsFrom(cfg, ps, end + 1);
        out := out + [visit];
        i := end + 1;
        continue;
      }
      i := i + 1;
    }
    assert out + [] == out;
  }
}
