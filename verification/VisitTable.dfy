/** The stored visits of a device and their windowed rewrite: detect the points
    from some time on, delete the visits that start there, insert the new ones. */
module VisitTable {
  import opened Ingest
  import opened Detector
  import opened DetectorSplit
  import opened DetectorCut

  datatype PointRow = PointRow(device: nat, seqNo: nat, fix: Fix)

  datatype VisitRow = VisitRow(device: nat, visit: Visit)

  /* -------------------------- the detection query -------------------------- */

  /** ORDER BY timestamp, then sequence number. */
  predicate Precedes(a: PointRow, b: PointRow) {
    a.fix.at < b.fix.at || (a.fix.at == b.fix.at && a.seqNo < b.seqNo)
  }

  function Insert(x: PointRow, rows: seq<PointRow>): seq<PointRow> {
    if rows == [] then [x]
    else if Precedes(x, rows[0]) then [x] + rows
    else [rows[0]] + Insert(x, rows[1..])
  }

  function Sort(rows: seq<PointRow>): seq<PointRow> {
    if rows == [] then [] else Insert(rows[|rows| - 1], Sort(rows[..|rows| - 1]))
  }

  predicate InWindow(at: int, from: Option<int>, to: Option<int>) {
    (from.Some? ==> from.value <= at) && (to.Some? ==> at <= to.value)
  }

  function Select(rows: seq<PointRow>, device: nat, from: Option<int>, to: Option<int>): seq<PointRow> {
    if rows == [] then []
    else
      var before := Select(rows[..|rows| - 1], device, from, to);
      var r := rows[|rows| - 1];
      if r.device == device && InWindow(r.fix.at, from, to) then before + [r] else before
  }

  function FixesOf(rows: seq<PointRow>): seq<Fix> {
    seq(|rows|, i requires 0 <= i < |rows| => rows[i].fix)
  }

  /** The points visit detection is run on. */
  function Points(rows: seq<PointRow>, device: nat, from: Option<int>, to: Option<int>): seq<Fix> {
    FixesOf(Sort(Select(rows, device, from, to)))
  }

  function AllPoints(rows: seq<PointRow>, device: nat): seq<Fix> {
    Points(rows, device, None, None)
  }

  /** The device's points strictly before `from`: what a rewrite does not read. */
  function EarlierPoints(rows: seq<PointRow>, device: nat, from: int): seq<Fix> {
    Points(rows, device, None, Some(from - 1))
  }

  lemma {:induction false} InsertMembers(x: PointRow, rows: seq<PointRow>)
    ensures forall r :: r in Insert(x, rows) <==> r == x || r in rows
    ensures |Insert(x, rows)| == |rows| + 1
  {
    if rows != [] && !Precedes(x, rows[0]) {
      InsertMembers(x, rows[1..]);
    }
  }

  ghost predicate AscendingRows(rows: seq<PointRow>) {
    forall i, j :: 0 <= i < j < |rows| ==> rows[i].fix.at <= rows[j].fix.at
  }

  lemma {:induction false} InsertAscending(x: PointRow, rows: seq<PointRow>)
    requires AscendingRows(rows)
    ensures AscendingRows(Insert(x, rows))
  {
    if rows != [] && !Precedes(x, rows[0]) {
      InsertAscending(x, rows[1..]);
      InsertMembers(x, rows[1..]);
      var tail := Insert(x, rows[1..]);
      forall j | 0 <= j < |tail| ensures rows[0].fix.at <= tail[j].fix.at {
        assert tail[j] in tail;
      }
    }
  }

  lemma {:induction false} SortFacts(rows: seq<PointRow>)
    ensures AscendingRows(Sort(rows))
    ensures forall r :: r in Sort(rows) <==> r in rows
  {
    if rows != [] {
      var init, last := rows[..|rows| - 1], rows[|rows| - 1];
      SortFacts(init);
      InsertAscending(last, Sort(init));
      InsertMembers(last, Sort(init));
      assert rows == init + [last];
    }
  }

  lemma {:induction false} SelectMembers(rows: seq<PointRow>, device: nat, from: Option<int>, to: Option<int>)
    ensures forall r :: r in Select(rows, device, from, to) ==> InWindow(r.fix.at, from, to)
  {
    if rows != [] {
      SelectMembers(rows[..|rows| - 1], device, from, to);
    }
  }

  lemma PointsFacts(rows: seq<PointRow>, device: nat, from: Option<int>, to: Option<int>)
    ensures Ascending(Points(rows, device, from, to))
    ensures var ps := Points(rows, device, from, to);
      forall i :: 0 <= i < |ps| ==> InWindow(ps[i].at, from, to)
  {
    var sel := Select(rows, device, from, to);
    SortFacts(sel);
    SelectMembers(rows, device, from, to);
    var ps := Points(rows, device, from, to);
    forall i | 0 <= i < |ps| ensures InWindow(ps[i].at, from, to) {
      assert Sort(sel)[i] in Sort(sel);
    }
  }

  /* --------------------- the query, without its execution ------------------- */

  /** The sequence numbers of the table are unique. */
  ghost predicate DistinctRows(rows: seq<PointRow>) {
    forall i, j :: 0 <= i < j < |rows| ==> rows[i].seqNo != rows[j].seqNo
  }

  /** Earlier times first, and among equal times lower numbers first. */
  ghost predicate InQueryOrder(rows: seq<PointRow>) {
    forall i, j :: 0 <= i < j < |rows| ==>
      rows[i].fix.at < rows[j].fix.at || (rows[i].fix.at == rows[j].fix.at && rows[i].seqNo < rows[j].seqNo)
  }

  /** The row is of that device and not outside the window. */
  ghost predicate Asked(r: PointRow, device: nat, from: Option<int>, to: Option<int>) {
    && r.device == device
    && (from.Some? ==> r.fix.at >= from.value) && (to.Some? ==> r.fix.at <= to.value)
  }

  /** `out` has each row that was asked for as often as the table, and no other. */
  ghost predicate HasAllAsked(rows: seq<PointRow>, device: nat, from: Option<int>, to: Option<int>, out: seq<PointRow>) {
    forall r :: multiset(out)[r] == if Asked(r, device, from, to) then multiset(rows)[r] else 0
  }

  lemma {:induction false} SelectHasAll(rows: seq<PointRow>, device: nat, from: Option<int>, to: Option<int>)
    ensures HasAllAsked(rows, device, from, to, Select(rows, device, from, to))
  {
    if rows != [] {
      var init, last := rows[..|rows| - 1], rows[|rows| - 1];
      SelectHasAll(init, device, from, to);
      assert rows == init + [last];
    }
  }

  lemma {:induction false} InsertCopies(x: PointRow, rows: seq<PointRow>)
    ensures multiset(Insert(x, rows)) == multiset(rows) + multiset{x}
  {
    if rows != [] && !Precedes(x, rows[0]) {
      InsertCopies(x, rows[1..]);
      assert rows == [rows[0]] + rows[1..];
    }
  }

  lemma {:induction false} SortCopies(rows: seq<PointRow>)
    ensures multiset(Sort(rows)) == multiset(rows)
  {
    if rows != [] {
      var init, last := rows[..|rows| - 1], rows[|rows| - 1];
      SortCopies(init);
      InsertCopies(last, Sort(init));
      assert rows == init + [last];
    }
  }

  lemma {:induction false} InsertInOrder(x: PointRow, rows: seq<PointRow>)
    requires InQueryOrder(rows) && forall r :: r in rows ==> r.seqNo != x.seqNo
    ensures InQueryOrder(Insert(x, rows))
  {
    if rows != [] {
      assert rows[0] in rows;
      if !Precedes(x, rows[0]) {
        var tail := Insert(x, rows[1..]);
        InsertInOrder(x, rows[1..]);
        InsertMembers(x, rows[1..]);
        forall j | 0 <= j < |tail| ensures Precedes(rows[0], tail[j]) {
          assert tail[j] in tail;
        }
      }
    }
  }

  lemma {:induction false} SortByQuery(rows: seq<PointRow>)
    requires DistinctRows(rows)
    ensures InQueryOrder(Sort(rows))
  {
    if rows != [] {
      var init, last := rows[..|rows| - 1], rows[|rows| - 1];
      SortByQuery(init);
      SortFacts(init);
      InsertInOrder(last, Sort(init));
    }
  }

  lemma {:induction false} SelectDistinct(rows: seq<PointRow>, device: nat, from: Option<int>, to: Option<int>)
    requires DistinctRows(rows)
    ensures DistinctRows(Select(rows, device, from, to))
    ensures forall r :: r in Select(rows, device, from, to) ==> r in rows
  {
    if rows != [] {
      SelectDistinct(rows[..|rows| - 1], device, from, to);
      var before, last := Select(rows[..|rows| - 1], device, from, to), rows[|rows| - 1];
      forall i | 0 <= i < |before| ensures before[i].seqNo != last.seqNo {
        assert before[i] in before;
      }
    }
  }

  /** Rows with the same copies in query order are the same list. */
  lemma {:induction false} OrderIsUnique(a: seq<PointRow>, b: seq<PointRow>)
    requires InQueryOrder(a) && InQueryOrder(b) && multiset(a) == multiset(b)
    ensures a == b
  {
    hide InQueryOrder;
    assert |a| == |multiset(a)| == |multiset(b)| == |b|;
    if a != [] {
      FirstIsUnique(a, b);
      WithoutFirst(a);
      WithoutFirst(b);
      OrderIsUnique(a[1..], b[1..]);
    }
  }

  lemma WithoutFirst(a: seq<PointRow>)
    requires a != [] && InQueryOrder(a)
    ensures InQueryOrder(a[1..]) && a == [a[0]] + a[1..]
    ensures multiset(a[1..]) == multiset(a) - multiset{a[0]}
  {
    assert a == [a[0]] + a[1..];
  }

  lemma FirstIsUnique(a: seq<PointRow>, b: seq<PointRow>)
    requires a != [] && b != [] && InQueryOrder(a) && InQueryOrder(b) && multiset(a) == multiset(b)
    ensures a[0] == b[0]
  {
    assert a[0] in multiset(b) && b[0] in multiset(a);
    var i :| 0 <= i < |b| && b[i] == a[0];
    var j :| 0 <= j < |a| && a[j] == b[0];
  }

  /** The detection query in full: a list is its answer if and only if it has the
      device's rows of the window, each as often as the table, by time and then by
      sequence number. */
  lemma QueryIff(rows: seq<PointRow>, device: nat, from: Option<int>, to: Option<int>, out: seq<PointRow>)
    requires DistinctRows(rows)
    ensures out == Sort(Select(rows, device, from, to)) <==>
      InQueryOrder(out) && HasAllAsked(rows, device, from, to, out)
  {
    var sel := Select(rows, device, from, to);
    SelectHasAll(rows, device, from, to);
    SelectDistinct(rows, device, from, to);
    SortByQuery(sel);
    SortCopies(sel);
    if InQueryOrder(out) && HasAllAsked(rows, device, from, to, out) {
      assert forall r :: multiset(out)[r] == multiset(Sort(sel))[r];
      assert multiset(out) == multiset(Sort(sel));
      OrderIsUnique(out, Sort(sel));
    }
  }

  /** Detection is run on that answer's times and places. */
  lemma PointsAreAsked(rows: seq<PointRow>, device: nat, from: Option<int>, to: Option<int>) returns (answer: seq<PointRow>)
    requires DistinctRows(rows)
    ensures InQueryOrder(answer) && HasAllAsked(rows, device, from, to, answer)
    ensures |Points(rows, device, from, to)| == |answer|
    ensures forall i :: 0 <= i < |answer| ==> Points(rows, device, from, to)[i] == answer[i].fix
  {
    answer := Sort(Select(rows, device, from, to));
    QueryIff(rows, device, from, to, answer);
  }

  /** Insertion into a list that is cut at a time `from`. */
  lemma {:induction false} InsertLeft(x: PointRow, a: seq<PointRow>, b: seq<PointRow>, from: int)
    requires x.fix.at < from && forall r :: r in b ==> from <= r.fix.at
    ensures Insert(x, a + b) == Insert(x, a) + b
  {
    if a == [] {
      assert a + b == b;
      if b != [] { assert b[0] in b; }
    } else if !Precedes(x, a[0]) {
      InsertLeft(x, a[1..], b, from);
      assert (a + b)[1..] == a[1..] + b;
    } else {
      assert [x] + (a + b) == [x] + a + b;
    }
  }

  lemma {:induction false} InsertRight(x: PointRow, a: seq<PointRow>, b: seq<PointRow>, from: int)
    requires from <= x.fix.at && forall r :: r in a ==> r.fix.at < from
    ensures Insert(x, a + b) == a + Insert(x, b)
  {
    if a == [] {
      assert a + b == b;
    } else {
      assert a[0] in a;
      InsertRight(x, a[1..], b, from);
      assert (a + b)[1..] == a[1..] + b;
    }
  }

  /** The sorted history is what lies before `from` followed by what the windowed
      query reads. */
  lemma {:induction false} SortSplit(rows: seq<PointRow>, device: nat, from: int)
    ensures Sort(Select(rows, device, None, None)) ==
      Sort(Select(rows, device, None, Some(from - 1))) + Sort(Select(rows, device, Some(from), None))
  {
    if rows != [] {
      var init, x := rows[..|rows| - 1], rows[|rows| - 1];
      SortSplit(init, device, from);
      if x.device == device {
        var a, b := Select(init, device, None, Some(from - 1)), Select(init, device, Some(from), None);
        SelectMembers(init, device, None, Some(from - 1));
        SelectMembers(init, device, Some(from), None);
        SortFacts(a);
        SortFacts(b);
        SortSnoc(Select(init, device, None, None), x);
        if x.fix.at < from {
          InsertLeft(x, Sort(a), Sort(b), from);
          SortSnoc(a, x);
        } else {
          InsertRight(x, Sort(a), Sort(b), from);
          SortSnoc(b, x);
        }
      }
    }
  }

  lemma SortSnoc(rows: seq<PointRow>, x: PointRow)
    ensures Sort(rows + [x]) == Insert(x, Sort(rows))
  {
    assert (rows + [x])[..|rows|] == rows;
  }

  lemma PointsSplit(rows: seq<PointRow>, device: nat, from: int)
    ensures AllPoints(rows, device) == EarlierPoints(rows, device, from) + Points(rows, device, Some(from), None)
    ensures Ascending(EarlierPoints(rows, device, from) + Points(rows, device, Some(from), None))
    ensures Earlier(EarlierPoints(rows, device, from), Points(rows, device, Some(from), None))
  {
    hide Sort, Select;
    SortSplit(rows, device, from);
    PointsFacts(rows, device, None, None);
    PointsFacts(rows, device, None, Some(from - 1));
    PointsFacts(rows, device, Some(from), None);
  }

  lemma {:induction false} EarlierUnchanged(old_: seq<PointRow>, added: seq<PointRow>, device: nat, from: int)
    requires forall r :: r in added && r.device == device ==> from <= r.fix.at
    ensures Select(old_ + added, device, None, Some(from - 1)) == Select(old_, device, None, Some(from - 1))
  {
    if added == [] {
      assert old_ + added == old_;
    } else {
      var init, x := added[..|added| - 1], added[|added| - 1];
      assert x in added;
      EarlierUnchanged(old_, init, device, from);
      assert (old_ + added)[..|old_ + added| - 1] == old_ + init;
    }
  }

  /* ----------------------------- the visits table --------------------------- */

  predicate Replaced(row: VisitRow, device: nat, from: Option<int>, to: Option<int>) {
    row.device == device && InWindow(row.visit.startAt, from, to)
  }

  function Kept(visits: seq<VisitRow>, device: nat, from: Option<int>, to: Option<int>): seq<VisitRow> {
    if visits == [] then []
    else
      var before := Kept(visits[..|visits| - 1], device, from, to);
      var row := visits[|visits| - 1];
      if Replaced(row, device, from, to) then before else before + [row]
  }

  function RowsFor(device: nat, vs: seq<Visit>): seq<VisitRow> {
    seq(|vs|, i requires 0 <= i < |vs| => VisitRow(device, vs[i]))
  }

  function Rebuilt(cfg: DetectConfig, rows: seq<PointRow>, visits: seq<VisitRow>,
                   device: nat, from: Option<int>, to: Option<int>): seq<VisitRow> {
    Kept(visits, device, from, to) + RowsFor(device, Detected(cfg, Points(rows, device, from, to)))
  }

  /** A device's visits, in row order. */
  function DeviceVisits(visits: seq<VisitRow>, device: nat): seq<Visit> {
    if visits == [] then []
    else
      var before := DeviceVisits(visits[..|visits| - 1], device);
      var row := visits[|visits| - 1];
      if row.device == device then before + [row.visit] else before
  }

  function StartingBefore(vs: seq<Visit>, from: int): seq<Visit> {
    if vs == [] then []
    else
      var before := StartingBefore(vs[..|vs| - 1], from);
      if vs[|vs| - 1].startAt < from then before + [vs[|vs| - 1]] else before
  }

  lemma {:induction false} DeviceVisitsConcat(a: seq<VisitRow>, b: seq<VisitRow>, device: nat)
    ensures DeviceVisits(a + b, device) == DeviceVisits(a, device) + DeviceVisits(b, device)
  {
    if b == [] {
      assert a + b == a;
    } else {
      DeviceVisitsConcat(a, b[..|b| - 1], device);
      assert (a + b)[..|a + b| - 1] == a + b[..|b| - 1];
    }
  }

  lemma {:induction false} DeviceVisitsOfRows(device: nat, vs: seq<Visit>, other: nat)
    ensures DeviceVisits(RowsFor(device, vs), other) == if other == device then vs else []
  {
    if vs != [] {
      DeviceVisitsOfRows(device, vs[..|vs| - 1], other);
      assert RowsFor(device, vs)[..|vs| - 1] == RowsFor(device, vs[..|vs| - 1]);
    }
  }

  lemma {:induction false} DeviceVisitsKept(visits: seq<VisitRow>, device: nat, from: int, other: nat)
    ensures DeviceVisits(Kept(visits, device, Some(from), None), other) ==
      if other == device then StartingBefore(DeviceVisits(visits, device), from) else DeviceVisits(visits, other)
  {
    if visits != [] {
      var init, row := visits[..|visits| - 1], visits[|visits| - 1];
      DeviceVisitsKept(init, device, from, other);
      var kept := Kept(init, device, Some(from), None);
      assert (kept + [row])[..|kept|] == kept;
      var vs := DeviceVisits(init, device);
      assert (vs + [row.visit])[..|vs|] == vs;
    }
  }

  lemma {:induction false} DeviceVisitsAllGone(visits: seq<VisitRow>, device: nat, other: nat)
    ensures DeviceVisits(Kept(visits, device, None, None), other) ==
      if other == device then [] else DeviceVisits(visits, other)
  {
    if visits != [] {
      var init, row := visits[..|visits| - 1], visits[|visits| - 1];
      DeviceVisitsAllGone(init, device, other);
      var kept := Kept(init, device, None, None);
      assert (kept + [row])[..|kept|] == kept;
    }
  }

  lemma {:induction false} StartingBeforeCut(a: seq<Visit>, b: seq<Visit>, from: int)
    requires forall v :: v in a ==> v.startAt < from
    requires forall v :: v in b ==> from <= v.startAt
    ensures StartingBefore(a + b, from) == a
  {
    if b != [] {
      assert b[|b| - 1] in b;
      StartingBeforeCut(a, b[..|b| - 1], from);
      assert (a + b)[..|a + b| - 1] == a + b[..|b| - 1];
    } else if a != [] {
      assert a[|a| - 1] in a;
      StartingBeforeCut(a[..|a| - 1], [], from);
      assert a[..|a| - 1] + [] == a[..|a| - 1] && a + [] == a;
    }
  }

  lemma StartsInside(cfg: DetectConfig, ps: seq<Fix>)
    ensures forall v :: v in Detected(cfg, ps) ==> exists m :: 0 <= m < |ps| && v.startAt == ps[m].at
  {
    VisitsBounded(cfg, ps, 0);
  }

  /** A visit of the device that does not start outside the window. */
  ghost predicate Starts(v: VisitRow, device: nat, from: Option<int>, to: Option<int>) {
    && v.device == device
    && (from.Some? ==> v.visit.startAt >= from.value) && (to.Some? ==> v.visit.startAt <= to.value)
  }

  lemma {:induction false} KeptCopies(visits: seq<VisitRow>, device: nat, from: Option<int>, to: Option<int>)
    ensures forall v ::
      multiset(Kept(visits, device, from, to))[v] == if Starts(v, device, from, to) then 0 else multiset(visits)[v]
  {
    if visits != [] {
      var init, last := visits[..|visits| - 1], visits[|visits| - 1];
      KeptCopies(init, device, from, to);
      assert visits == init + [last];
    }
  }

  /* -------------------------------- theorems -------------------------------- */

  /** A rewrite of any window, row by row: of the old rows exactly those of the device
      that start in the window go, and exactly the visits of the device's points in the
      window come. */
  lemma RebuiltRows(cfg: DetectConfig, rows: seq<PointRow>, visits: seq<VisitRow>, device: nat,
                    from: Option<int>, to: Option<int>) returns (added: seq<VisitRow>)
    ensures forall v ::
      multiset(Rebuilt(cfg, rows, visits, device, from, to))[v] ==
        multiset(added)[v] + if Starts(v, device, from, to) then 0 else multiset(visits)[v]
    ensures forall i :: 0 <= i < |added| ==> added[i].device == device
    ensures AreTheVisits(cfg, Points(rows, device, from, to), seq(|added|, i requires 0 <= i < |added| => added[i].visit))
  {
    var found := Detected(cfg, Points(rows, device, from, to));
    added := RowsFor(device, found);
    KeptCopies(visits, device, from, to);
    DetectedIff(cfg, Points(rows, device, from, to), found);
    assert seq(|added|, i requires 0 <= i < |added| => added[i].visit) == found;
  }

  /** A rewrite never touches another device's visits. */
  lemma RebuildKeepsOthers(cfg: DetectConfig, rows: seq<PointRow>, visits: seq<VisitRow>,
                           device: nat, from: Option<int>, other: nat)
    requires other != device
    ensures DeviceVisits(Rebuilt(cfg, rows, visits, device, from, None), other) == DeviceVisits(visits, other)
  {
    var found := Detected(cfg, Points(rows, device, from, None));
    DeviceVisitsConcat(Kept(visits, device, from, None), RowsFor(device, found), other);
    DeviceVisitsOfRows(device, found, other);
    if from.Some? {
      DeviceVisitsKept(visits, device, from.value, other);
    } else {
      DeviceVisitsAllGone(visits, device, other);
    }
  }

  /** A full rewrite leaves exactly what detection finds, whatever was there. */
  lemma FullRebuild(cfg: DetectConfig, rows: seq<PointRow>, visits: seq<VisitRow>, device: nat)
    ensures
      DeviceVisits(Rebuilt(cfg, rows, visits, device, None, None), device) == Detected(cfg, AllPoints(rows, device))
  {
    var found := Detected(cfg, AllPoints(rows, device));
    DeviceVisitsConcat(Kept(visits, device, None, None), RowsFor(device, found), device);
    DeviceVisitsOfRows(device, found, device);
    DeviceVisitsAllGone(visits, device, device);
    assert [] + found == found;
  }

  /** The windowed rewrite in terms of what was stored. */
  lemma WindowedRebuild(cfg: DetectConfig, rows: seq<PointRow>, visits: seq<VisitRow>, device: nat, from: int)
    ensures DeviceVisits(Rebuilt(cfg, rows, visits, device, Some(from), None), device) ==
      StartingBefore(DeviceVisits(visits, device), from) + Detected(cfg, Points(rows, device, Some(from), None))
  {
    var found := Detected(cfg, Points(rows, device, Some(from), None));
    DeviceVisitsConcat(Kept(visits, device, Some(from), None), RowsFor(device, found), device);
    DeviceVisitsOfRows(device, found, device);
    DeviceVisitsKept(visits, device, from, device);
  }

  /** What the deletion keeps are the old visits that start before the window,
      straddling or not. */
  lemma KeptIsUntil(cfg: DetectConfig, p: seq<Fix>, q: seq<Fix>, from: int)
    requires Usable(cfg) && Before(p, from) && NotBefore(q, from)
    ensures StartingBefore(Detected(cfg, p + q), from) == VisitsUntil(cfg, p + q, 0, |p|)
  {
    var t := TailLength(cfg, p + q, |p|);
    DetectedAroundCut(cfg, p, q);
    SidesOfCut(cfg, p, q, t, from);
    StartingBeforeCut(VisitsUntil(cfg, p + q, 0, |p|), Detected(cfg, q[t..]), from);
  }

  ghost predicate Before(ps: seq<Fix>, from: int) {
    forall i :: 0 <= i < |ps| ==> ps[i].at < from
  }

  ghost predicate NotBefore(ps: seq<Fix>, from: int) {
    forall i :: 0 <= i < |ps| ==> from <= ps[i].at
  }

  lemma SidesOfCut(cfg: DetectConfig, p: seq<Fix>, q: seq<Fix>, t: nat, from: int)
    requires Before(p, from) && NotBefore(q, from) && t <= |q|
    ensures forall v :: v in VisitsUntil(cfg, p + q, 0, |p|) ==> v.startAt < from
    ensures forall v :: v in Detected(cfg, q[t..]) ==> from <= v.startAt
  {
    UntilStarts(cfg, p + q, 0, |p|);
    StartsInside(cfg, q[t..]);
    assert forall m :: 0 <= m < |p| ==> (p + q)[m] == p[m];
  }

  /** Lists that start before the window followed by lists that do not. */
  lemma SplitAtWindow(a: seq<Visit>, b: seq<Visit>, a': seq<Visit>, b': seq<Visit>, from: int)
    requires forall v :: v in a || v in a' ==> v.startAt < from
    requires forall v :: v in b || v in b' ==> from <= v.startAt
    ensures a + b == a' + b' <==> a == a' && b == b'
  {
    StartingBeforeCut(a, b, from);
    StartingBeforeCut(a', b', from);
    if a + b == a' + b' {
      assert b == (a + b)[|a|..] && b' == (a' + b')[|a'|..];
    }
  }

  lemma {:induction false} StartingBeforeStarts(vs: seq<Visit>, from: int)
    ensures forall v :: v in StartingBefore(vs, from) ==> v.startAt < from
  {
    if vs != [] { StartingBeforeStarts(vs[..|vs| - 1], from); }
  }

  /** Anything that starts before the window followed by what is detected in it. */
  lemma RewriteIff(cfg: DetectConfig, kept: seq<Visit>, p: seq<Fix>, q: seq<Fix>, from: int)
    requires Before(p, from) && NotBefore(q, from)
    requires forall v :: v in kept ==> v.startAt < from
    ensures kept + Detected(cfg, q) == Detected(cfg, p + q)
      <==> kept == StartedBefore(cfg, p, q) && TailAddsNothing(cfg, p, q)
  {
    if Usable(cfg) {
      var t := TailLength(cfg, p + q, |p|);
      DetectedAroundCut(cfg, p, q);
      SidesOfCut(cfg, p, q, 0, from);
      SidesOfCut(cfg, p, q, t, from);
      assert q[0..] == q;
      SplitAtWindow(kept, Detected(cfg, q), VisitsUntil(cfg, p + q, 0, |p|), Detected(cfg, q[t..]), from);
    }
  }

  /** What stands in the table before the window is right, and reading the window
      again from its start adds nothing to it. */
  ghost predicate WindowIsRight(cfg: DetectConfig, rows: seq<PointRow>, visits: seq<VisitRow>, device: nat, from: int) {
    var p, q := EarlierPoints(rows, device, from), Points(rows, device, Some(from), None);
    StartingBefore(DeviceVisits(visits, device), from) == StartedBefore(cfg, p, q) && TailAddsNothing(cfg, p, q)
  }

  /** The law of the windowed rewrite. Whatever the table held before, it holds the
      detection of all points afterwards if and only if the visits it held from
      before the window were those of the whole history, and no visit shows up when
      the tail of the one that straddles the window's start is read on its own. */
  lemma RewriteExactIff(cfg: DetectConfig, rows: seq<PointRow>, visits: seq<VisitRow>, device: nat, from: int)
    ensures
      DeviceVisits(Rebuilt(cfg, rows, visits, device, Some(from), None), device)
        == Detected(cfg, AllPoints(rows, device))
      <==> WindowIsRight(cfg, rows, visits, device, from)
  {
    PointsSplit(rows, device, from);
    PointsFacts(rows, device, None, Some(from - 1));
    PointsFacts(rows, device, Some(from), None);
    WindowedRebuild(cfg, rows, visits, device, from);
    StartingBeforeStarts(DeviceVisits(visits, device), from);
    RewriteIff(cfg, StartingBefore(DeviceVisits(visits, device), from),
               EarlierPoints(rows, device, from), Points(rows, device, Some(from), None), from);
  }

  /** The points that came in change none of the visits that start before the window,
      and the tail of the one that straddles its start adds nothing. */
  ghost predicate WindowUndisturbed(cfg: DetectConfig, old_: seq<PointRow>, added: seq<PointRow>,
                                    device: nat, from: int) {
    var p, q := EarlierPoints(old_, device, from), Points(old_, device, Some(from), None);
    var p', q' := EarlierPoints(old_ + added, device, from), Points(old_ + added, device, Some(from), None);
    StartedBefore(cfg, p, q) == StartedBefore(cfg, p', q') && TailAddsNothing(cfg, p', q')
  }

  lemma KeptOfDetected(cfg: DetectConfig, rows: seq<PointRow>, device: nat, from: int)
    ensures StartingBefore(Detected(cfg, AllPoints(rows, device)), from) ==
      StartedBefore(cfg, EarlierPoints(rows, device, from), Points(rows, device, Some(from), None))
  {
    PointsSplit(rows, device, from);
    PointsFacts(rows, device, None, Some(from - 1));
    PointsFacts(rows, device, Some(from), None);
    if Usable(cfg) {
      KeptIsUntil(cfg, EarlierPoints(rows, device, from), Points(rows, device, Some(from), None), from);
    }
  }

  /** Incremental equals full. If the table held the detection of the old points, the
      windowed rewrite yields the detection of all points, however old the new ones
      are, if and only if they change no visit that starts before the window and the
      tail of the one that straddles its start adds nothing. */
  lemma IncrementalIsFullIff(cfg: DetectConfig, old_: seq<PointRow>, added: seq<PointRow>,
                             visits: seq<VisitRow>, device: nat, from: int)
    requires DeviceVisits(visits, device) == Detected(cfg, AllPoints(old_, device))
    ensures
      DeviceVisits(Rebuilt(cfg, old_ + added, visits, device, Some(from), None), device)
        == Detected(cfg, AllPoints(old_ + added, device))
      <==> WindowUndisturbed(cfg, old_, added, device, from)
  {
    RewriteExactIff(cfg, old_ + added, visits, device, from);
    KeptOfDetected(cfg, old_, device, from);
  }

  ghost predicate InTime(added: seq<PointRow>, device: nat, from: int) {
    forall r :: r in added && r.device == device ==> from <= r.fix.at
  }

  /** When no new point is older than the window, its start decides alone: the visit
      that straddles it, if any, must be the same before and after. */
  lemma InTimeUndisturbedIff(cfg: DetectConfig, old_: seq<PointRow>, added: seq<PointRow>, device: nat, from: int)
    requires InTime(added, device, from)
    ensures WindowUndisturbed(cfg, old_, added, device, from) <==>
      Undisturbed(cfg, EarlierPoints(old_, device, from),
                  Points(old_, device, Some(from), None), Points(old_ + added, device, Some(from), None))
  {
    PointsSplit(old_, device, from);
    PointsSplit(old_ + added, device, from);
    EarlierUnchanged(old_, added, device, from);
    SameFirstPart(cfg, EarlierPoints(old_, device, from),
                  Points(old_, device, Some(from), None), Points(old_ + added, device, Some(from), None));
  }

  /** In particular, when no old visit straddles `from`, incremental equals full if
      and only if no visit of the new history does. */
  lemma IncrementalWithoutStraddle(cfg: DetectConfig, old_: seq<PointRow>, added: seq<PointRow>,
                                   visits: seq<VisitRow>, device: nat, from: int)
    requires DeviceVisits(visits, device) == Detected(cfg, AllPoints(old_, device))
    requires InTime(added, device, from)
    requires NoneStraddles(Scan(cfg, AllPoints(old_, device)), |EarlierPoints(old_, device, from)|)
    ensures
      DeviceVisits(Rebuilt(cfg, old_ + added, visits, device, Some(from), None), device)
        == Detected(cfg, AllPoints(old_ + added, device))
      <==> NoneStraddles(Scan(cfg, AllPoints(old_ + added, device)), |EarlierPoints(old_, device, from)|)
  {
    IncrementalIsFullIff(cfg, old_, added, visits, device, from);
    InTimeUndisturbedIff(cfg, old_, added, device, from);
    PointsSplit(old_, device, from);
    PointsSplit(old_ + added, device, from);
    EarlierUnchanged(old_, added, device, from);
    UndisturbedWithoutStraddle(cfg, EarlierPoints(old_, device, from),
                               Points(old_, device, Some(from), None), Points(old_ + added, device, Some(from), None));
  }
}
