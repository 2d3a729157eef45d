/** Cursor paging over stored points, with optional downsampling of each page. */
module Paging {
  import opened Ingest

  datatype Row = Row(seqNo: nat, at: int, lat: real, lon: real)

  /** The database answers at most this many rows. */
  const ROW_CAP: nat := 5000

  /* -------------------------------- downsampling ------------------------------ */

  /** Round half away from zero, on the non-negative numbers it is used for. */
  function Round(x: real): int {
    (x + 0.5).Floor
  }

  function Step(n: nat, maxPoints: nat): real
    requires maxPoints >= 2
  {
    (n - 1) as real / (maxPoints - 1) as real
  }

  function SampleIndex(n: nat, maxPoints: nat, i: nat): int
    requires maxPoints >= 2
  {
    Round(i as real * Step(n, maxPoints))
  }

  lemma StepAboveOne(n: nat, maxPoints: nat)
    requires n > maxPoints >= 2
    ensures Step(n, maxPoints) >= 1.0
    ensures (maxPoints - 1) as real * Step(n, maxPoints) == (n - 1) as real
  {
    QuotientAboveOne((n - 1) as real, (maxPoints - 1) as real);
  }

  lemma QuotientAboveOne(a: real, b: real)
    requires a >= b > 0.0
    ensures a / b >= 1.0 && b * (a / b) == a
  {
    var q := a / b;
    assert q * b == a;
    assert (q - 1.0) * b == a - b;
  }

  lemma SampleStep(n: nat, maxPoints: nat, i: nat)
    requires n > maxPoints >= 2
    ensures SampleIndex(n, maxPoints, i) < SampleIndex(n, maxPoints, i + 1)
  {
    StepAboveOne(n, maxPoints);
    var s := Step(n, maxPoints);
    assert (i + 1) as real * s == i as real * s + s;
  }

  lemma {:induction false} SampleIncreasing(n: nat, maxPoints: nat, i: nat, j: nat)
    requires n > maxPoints >= 2 && i < j
    ensures SampleIndex(n, maxPoints, i) < SampleIndex(n, maxPoints, j)
    decreases j
  {
    SampleStep(n, maxPoints, j - 1);
    if i < j - 1 {
      SampleIncreasing(n, maxPoints, i, j - 1);
    }
  }

  /** Downsampling picks strictly increasing positions, from the first point to the
      last; the clamps of the loop never act. */
  lemma SampleEnds(n: nat, maxPoints: nat)
    requires n > maxPoints >= 2
    ensures SampleIndex(n, maxPoints, 0) == 0
    ensures SampleIndex(n, maxPoints, maxPoints - 1) == n - 1
  {
    StepAboveOne(n, maxPoints);
    assert 0 as real * Step(n, maxPoints) == 0.0;
    assert ((n - 1) as real + 0.5).Floor == n - 1;
  }

  lemma SampleInRange(n: nat, maxPoints: nat, i: nat)
    requires n > maxPoints >= 2 && i < maxPoints
    ensures 0 <= SampleIndex(n, maxPoints, i) < n
  {
    SampleEnds(n, maxPoints);
    if i > 0 { SampleIncreasing(n, maxPoints, 0, i); }
    if i < maxPoints - 1 { SampleIncreasing(n, maxPoints, i, maxPoints - 1); }
  }

  /** Position `at` is the one nearest to the `k`-th of `m` evenly spread marks on `n`
      points, the later of two equally near ones. */
  ghost predicate Nearest(n: nat, m: nat, k: nat, at: int) {
    2 * (k * (n - 1)) - (m - 1) < 2 * (at * (m - 1)) <= 2 * (k * (n - 1)) + (m - 1)
  }

  lemma RoundIsNearest(a: int, b: int, at: int)
    requires b > 0
    ensures Round(a as real / b as real) == at <==> 2 * a - b < 2 * (at * b) <= 2 * a + b
  {
    var r := Round(a as real / b as real);
    RoundBounds(a, b, r);
    if 2 * a - b < 2 * (at * b) <= 2 * a + b {
      OnlyOneBetween(r, at, b, 2 * a + b);
    }
  }

  lemma RoundBounds(a: int, b: int, r: int)
    requires b > 0 && r == Round(a as real / b as real)
    ensures 2 * (r * b) <= 2 * a + b < 2 * (r * b) + 2 * b
  {
    var q, d := a as real / b as real, b as real;
    QuotientTimes(a as real, d);
    WholeProduct(r, b);
    ScaleBounds(q, d, r as real, a as real, (r * b) as real);
    WholeBounds(r * b, a, b);
  }

  lemma QuotientTimes(a: real, d: real)
    requires d > 0.0
    ensures (a / d) * d == a
  {
  }

  lemma WholeProduct(r: int, b: int)
    ensures (r * b) as real == r as real * b as real
  {
  }

  lemma WholeBounds(y: int, a: int, b: int)
    requires 2.0 * (y as real) <= 2.0 * (a as real) + (b as real)
    requires 2.0 * (a as real) + (b as real) < 2.0 * (y as real) + 2.0 * (b as real)
    ensures 2 * y <= 2 * a + b < 2 * y + 2 * b
  {
  }

  lemma ScaleBounds(q: real, d: real, r: real, x: real, z: real)
    requires d > 0.0 && r <= q + 0.5 < r + 1.0 && x == q * d && z == r * d
    ensures 2.0 * z <= 2.0 * x + d
    ensures 2.0 * x + d < 2.0 * z + 2.0 * d
  {
    var low, high := q + 0.5 - r, r + 0.5 - q;
    assert low * d >= 0.0 && high * d > 0.0;
    assert low * d == x + 0.5 * d - z;
    assert high * d == z + 0.5 * d - x;
  }

  lemma NextMultiple(r: int, at: int, b: int)
    requires b > 0 && r < at
    ensures r * b + b <= at * b
  {
    var gap := at - r - 1;
    assert gap * b >= 0;
    assert at * b == r * b + b + gap * b;
  }

  lemma OnlyOneBetween(r: int, at: int, b: int, x: int)
    requires b > 0 && 2 * (r * b) <= x < 2 * (r * b) + 2 * b
    requires 2 * (at * b) <= x < 2 * (at * b) + 2 * b
    ensures r == at
  {
    if r < at { NextMultiple(r, at, b); }
    if at < r { NextMultiple(at, r, b); }
  }

  /** Sampling picks the nearest positions, in whole numbers. */
  lemma SampleIsNearest(n: nat, maxPoints: nat, k: nat, at: int)
    requires n > maxPoints >= 2
    ensures SampleIndex(n, maxPoints, k) == at <==> Nearest(n, maxPoints, k, at)
  {
    var a, b := k * (n - 1), maxPoints - 1;
    QuotientOfProduct(k as real, (n - 1) as real, b as real);
    assert a as real == k as real * (n - 1) as real;
    assert k as real * Step(n, maxPoints) == a as real / b as real;
    RoundIsNearest(a, b, at);
  }

  lemma QuotientOfProduct(k: real, x: real, b: real)
    requires b > 0.0
    ensures k * (x / b) == (k * x) / b
  {
    var q := x / b;
    assert q * b == x;
    assert (k * q) * b == k * x;
    UniqueQuotient(k * q, k * x, b);
  }

  lemma UniqueQuotient(y: real, a: real, b: real)
    requires b > 0.0 && y * b == a
    ensures y == a / b
  {
    var q := a / b;
    assert q * b == a;
    assert (q - y) * b == 0.0;
  }

  /** `out` is `points` at strictly increasing positions including both ends. */
  ghost predicate SampleOf(points: seq<Row>, out: seq<Row>, idx: seq<int>) {
    && |idx| == |out|
    && (forall i :: 0 <= i < |idx| ==> 0 <= idx[i] < |points| && out[i] == points[idx[i]])
    && (forall i, j :: 0 <= i < j < |idx| ==> idx[i] < idx[j])
    && (|points| > 0 ==> |idx| > 0 && idx[|idx| - 1] == |points| - 1)
    && (|idx| > 1 ==> idx[0] == 0)
  }

  method DownsampleRecentPoints(points: seq<Row>, maxPoints: int) returns (out: seq<Row>, ghost idx: seq<int>)
    ensures SampleOf(points, out, idx)
    ensures |out| == if |points| <= maxPoints || maxPoints <= 0 then |points| else maxPoints
    ensures |points| > maxPoints >= 2 ==>
      forall k :: 0 <= k < maxPoints ==> Nearest(|points|, maxPoints, k, idx[k])
  {
    if |points| <= maxPoints || maxPoints <= 0 {
      return points, seq(|points|, i => i);
    }
    if maxPoints == 1 {
      return [points[|points| - 1]], [|points| - 1];
    }
    out, idx := PickSamples(points, maxPoints);
    hide SampleIndex, Nearest;
    SampleEnds(|points|, maxPoints);
    forall i, j | 0 <= i < j < |idx| ensures idx[i] < idx[j] {
      SampleIncreasing(|points|, maxPoints, i, j);
    }
    forall k | 0 <= k < maxPoints ensures Nearest(|points|, maxPoints, k, idx[k]) {
      SampleIsNearest(|points|, maxPoints, k, idx[k]);
    }
  }

  method PickSamples(points: seq<Row>, maxPoints: nat) returns (out: seq<Row>, ghost idx: seq<int>)
    requires |points| > maxPoints >= 2
    ensures |out| == |idx| == maxPoints
    ensures forall k :: 0 <= k < maxPoints ==>
      0 <= idx[k] < |points| && idx[k] == SampleIndex(|points|, maxPoints, k) && out[k] == points[idx[k]]
  {
    hide Round, SampleIndex, Clamp;
    var n := |points|;
    var step := (n - 1) as real / (maxPoints - 1) as real;
    assert step == Step(n, maxPoints);
    out, idx := [], [];
    var prev := -1;
    for i := 0 to maxPoints
      invariant |out| == |idx| == i
      invariant forall k :: 0 <= k < i ==>
        0 <= idx[k] < n && idx[k] == SampleIndex(n, maxPoints, k) && out[k] == points[idx[k]]
      invariant prev == if i == 0 then -1 else SampleIndex(n, maxPoints, i - 1)
    {
      var at := Clamp(Round(i as real * step), prev, n);
      ClampNeverActs(n, maxPoints, i, prev, step);
      out, idx := out + [points[at]], idx + [at];
      prev := at;
    }
  }

  lemma ClampNeverActs(n: nat, maxPoints: nat, i: nat, prev: int, step: real)
    requires n > maxPoints >= 2 && i < maxPoints && step == Step(n, maxPoints)
    requires prev == if i == 0 then -1 else SampleIndex(n, maxPoints, i - 1)
    ensures Clamp(Round(i as real * step), prev, n) == SampleIndex(n, maxPoints, i)
    ensures 0 <= SampleIndex(n, maxPoints, i) < n
  {
    SampleInRange(n, maxPoints, i);
    if i > 0 { SampleStep(n, maxPoints, i - 1); }
  }

  /** Never at or before the previous pick, never past the end. */
  function Clamp(at: int, prev: int, n: nat): int {
    var forward := if at <= prev then prev + 1 else at;
    if forward >= n then n - 1 else forward
  }

  /* ---------------------------------- paging ---------------------------------- */

  function AfterSeq(rows: seq<Row>, cursor: nat): seq<Row> {
    if rows == [] then []
    else
      var before := AfterSeq(rows[..|rows| - 1], cursor);
      if rows[|rows| - 1].seqNo > cursor then before + [rows[|rows| - 1]] else before
  }

  function Take(rows: seq<Row>, n: nat): seq<Row> {
    if |rows| <= n then rows else rows[..n]
  }

  /** Matching rows in display order, past the cursor, at most `limit` and the cap.
      `table` is every row the other filters admit, ordered by time and sequence. */
  function ListPoints(table: seq<Row>, cursor: nat, limit: nat): seq<Row> {
    Take(if cursor > 0 then AfterSeq(table, cursor) else table, if limit > ROW_CAP then ROW_CAP else limit)
  }

  /** What one request fetches before sampling, and the cursor it hands out. */
  function Fetched(table: seq<Row>, cursor: nat, limit: nat): seq<Row> {
    Take(ListPoints(table, cursor, limit + 1), limit)
  }

  function NextCursor(table: seq<Row>, cursor: nat, limit: nat): Option<nat>
    requires limit > 0
  {
    var rows := ListPoints(table, cursor, limit + 1);
    if |rows| > limit then Some(rows[limit - 1].seqNo) else None
  }

  /** The points page: fetch one row too many, cut, sample, and point past the last
      row returned. Sampling never moves the cursor. */
  method PointsPage(table: seq<Row>, cursor: nat, limit: nat, simplify: bool, maxPoints: nat)
    returns (page: seq<Row>, next: Option<nat>, ghost idx: seq<int>)
    requires limit > 0 && maxPoints > 0
    ensures next == NextCursor(table, cursor, limit)
    ensures SampleOf(Fetched(table, cursor, limit), page, idx)
    ensures !simplify ==> page == Fetched(table, cursor, limit)
    ensures simplify ==> |page| <= maxPoints
    ensures simplify && |Fetched(table, cursor, limit)| > maxPoints >= 2 ==>
      forall k :: 0 <= k < |page| ==> Nearest(|Fetched(table, cursor, limit)|, maxPoints, k, idx[k])
  {
    var points := ListPoints(table, cursor, limit + 1);
    var hasMore := |points| > limit;
    if hasMore {
      points := points[..limit];
    }
    page, idx := points, seq(|points|, i => i);
    if simplify {
      page, idx := DownsampleRecentPoints(points, maxPoints);
    }
    next := None;
    if hasMore && |page| > 0 {
      next := Some(page[|page| - 1].seqNo);
    }
  }

  /* --------------------------- following the cursor --------------------------- */

  ghost predicate Distinct(rows: seq<Row>) {
    && (forall i, j :: 0 <= i < j < |rows| ==> rows[i].seqNo != rows[j].seqNo)
    && (forall i :: 0 <= i < |rows| ==> rows[i].seqNo > 0)
  }

  lemma {:induction false} AfterSeqMembers(rows: seq<Row>, cursor: nat)
    ensures forall r :: r in AfterSeq(rows, cursor) <==> r in rows && r.seqNo > cursor
    ensures |AfterSeq(rows, cursor)| <= |rows|
  {
    if rows != [] {
      AfterSeqMembers(rows[..|rows| - 1], cursor);
      assert rows == rows[..|rows| - 1] + [rows[|rows| - 1]];
    }
  }

  lemma {:induction false} AfterSeqShrinks(rows: seq<Row>, cursor: nat, k: nat)
    requires k < |rows| && rows[k].seqNo <= cursor
    ensures |AfterSeq(rows, cursor)| < |rows|
  {
    var n := |rows| - 1;
    if k == n {
      AfterSeqMembers(rows[..n], cursor);
    } else {
      AfterSeqShrinks(rows[..n], cursor, k);
    }
  }

  lemma {:induction false} AfterSeqTwice(rows: seq<Row>, a: nat, b: nat)
    requires a <= b
    ensures AfterSeq(AfterSeq(rows, a), b) == AfterSeq(rows, b)
  {
    if rows != [] {
      var init, r := rows[..|rows| - 1], rows[|rows| - 1];
      AfterSeqTwice(init, a, b);
      var inner := AfterSeq(init, a);
      assert (inner + [r])[..|inner|] == inner;
    }
  }

  lemma {:induction false} AfterSeqDistinct(rows: seq<Row>, cursor: nat)
    requires Distinct(rows)
    ensures Distinct(AfterSeq(rows, cursor))
  {
    if rows != [] {
      var init, r := rows[..|rows| - 1], rows[|rows| - 1];
      AfterSeqDistinct(init, cursor);
      AfterSeqMembers(init, cursor);
      var kept := AfterSeq(init, cursor);
      forall i | 0 <= i < |kept| ensures kept[i].seqNo != r.seqNo {
        assert kept[i] in kept && kept[i] in init;
      }
    }
  }

  /** Everything a client fetches by following `next_cursor` to the end, where
      `rows` is what lies past its current cursor. */
  function FetchAll(rows: seq<Row>, limit: nat): seq<Row>
    requires limit > 0
    decreases |rows|
  {
    var got := Take(rows, if limit + 1 > ROW_CAP then ROW_CAP else limit + 1);
    if |got| > limit then
      var cursor := got[limit - 1].seqNo;
      AfterSeqShrinks(rows, cursor, limit - 1);
      got[..limit] + FetchAll(AfterSeq(rows, cursor), limit)
    else got
  }

  /** That is indeed what the requests do, one after the other. */
  lemma FetchAllIsPages(table: seq<Row>, cursor: nat, limit: nat)
    requires limit > 0 && Distinct(table)
    ensures
      var rows := if cursor > 0 then AfterSeq(table, cursor) else table;
      match NextCursor(table, cursor, limit)
      case None => FetchAll(rows, limit) == Fetched(table, cursor, limit)
      case Some(next) =>
        && next > cursor
        && FetchAll(rows, limit) == Fetched(table, cursor, limit) + FetchAll(AfterSeq(table, next), limit)
  {
    var rows := if cursor > 0 then AfterSeq(table, cursor) else table;
    var next := NextCursor(table, cursor, limit);
    if next.Some? {
      AfterSeqMembers(table, cursor);
      assert rows[limit - 1] in rows && rows[limit - 1].seqNo == next.value;
      if cursor > 0 { AfterSeqTwice(table, cursor, next.value); }
    }
  }

  /** Up to the page's last row all sequence numbers are at most the cursor, and
      beyond it all are above. */
  predicate CleanCut(rows: seq<Row>, limit: nat)
    requires 0 < limit <= |rows|
  {
    var cursor := rows[limit - 1].seqNo;
    && (forall i :: 0 <= i < limit ==> rows[i].seqNo <= cursor)
    && (forall i :: limit <= i < |rows| ==> rows[i].seqNo > cursor)
  }

  /** What a caller can check beforehand: the page size leaves room for the extra
      row under the cap (or everything fits one answer), and time order agrees with
      sequence order at every page boundary. */
  predicate Pageable(rows: seq<Row>, limit: nat)
    requires limit > 0
    decreases |rows|
  {
    if limit >= ROW_CAP then |rows| <= ROW_CAP
    else |rows| <= limit || (CleanCut(rows, limit) && Pageable(rows[limit..], limit))
  }

  lemma {:induction false} AfterSeqNone(rows: seq<Row>, cursor: nat)
    requires forall i :: 0 <= i < |rows| ==> rows[i].seqNo <= cursor
    ensures AfterSeq(rows, cursor) == []
  {
    if rows != [] { AfterSeqNone(rows[..|rows| - 1], cursor); }
  }

  lemma {:induction false} AfterSeqAll(rows: seq<Row>, cursor: nat)
    requires forall i :: 0 <= i < |rows| ==> rows[i].seqNo > cursor
    ensures AfterSeq(rows, cursor) == rows
  {
    if rows != [] { AfterSeqAll(rows[..|rows| - 1], cursor); }
  }

  lemma {:induction false} AfterSeqConcat(a: seq<Row>, b: seq<Row>, cursor: nat)
    ensures AfterSeq(a + b, cursor) == AfterSeq(a, cursor) + AfterSeq(b, cursor)
  {
    if b == [] {
      assert a + b == a;
    } else {
      AfterSeqConcat(a, b[..|b| - 1], cursor);
      assert (a + b)[..|a + b| - 1] == a + b[..|b| - 1];
    }
  }

  lemma CleanCutLeavesRest(rows: seq<Row>, limit: nat)
    requires 0 < limit <= |rows| && CleanCut(rows, limit)
    ensures AfterSeq(rows, rows[limit - 1].seqNo) == rows[limit..]
  {
    var cursor := rows[limit - 1].seqNo;
    assert rows == rows[..limit] + rows[limit..];
    AfterSeqConcat(rows[..limit], rows[limit..], cursor);
    AfterSeqNone(rows[..limit], cursor);
    AfterSeqAll(rows[limit..], cursor);
  }

  lemma {:induction false} FetchedAreRows(rows: seq<Row>, limit: nat)
    requires limit > 0
    ensures forall r :: r in FetchAll(rows, limit) ==> r in rows
    ensures rows != [] ==> FetchAll(rows, limit) != [] && FetchAll(rows, limit)[0] == rows[0]
    decreases |rows|
  {
    var got := Take(rows, if limit + 1 > ROW_CAP then ROW_CAP else limit + 1);
    if |got| > limit {
      var cursor := got[limit - 1].seqNo;
      AfterSeqShrinks(rows, cursor, limit - 1);
      AfterSeqMembers(rows, cursor);
      FetchedAreRows(AfterSeq(rows, cursor), limit);
    }
  }

  /** If the rest came back complete, the cut was clean. */
  lemma CompleteMeansCleanCut(rows: seq<Row>, limit: nat)
    requires 0 < limit < |rows| && Distinct(rows)
    requires FetchAll(AfterSeq(rows, rows[limit - 1].seqNo), limit) == rows[limit..]
    ensures CleanCut(rows, limit)
  {
    var cursor := rows[limit - 1].seqNo;
    var rest := AfterSeq(rows, cursor);
    AfterSeqMembers(rows, cursor);
    FetchedAreRows(rest, limit);
    forall i | limit <= i < |rows| ensures rows[i].seqNo > cursor {
      assert rows[limit..][i - limit] in rows[limit..];
    }
    var a, b := rows[..limit], rows[limit..];
    assert rows == a + b;
    AfterSeqConcat(a, b, cursor);
    if AfterSeq(a, cursor) != [] {
      HeadInPrefix(a, b, cursor);
      assert false;
    }
    AfterSeqMembers(a, cursor);
    forall i | 0 <= i < limit ensures rows[i].seqNo <= cursor {
      assert a[i] in a;
    }
  }

  lemma HeadInPrefix(a: seq<Row>, b: seq<Row>, cursor: nat)
    requires AfterSeq(a, cursor) != []
    ensures AfterSeq(a + b, cursor) != [] && AfterSeq(a + b, cursor)[0] in a
  {
    AfterSeqConcat(a, b, cursor);
    AfterSeqMembers(a, cursor);
    assert AfterSeq(a + b, cursor)[0] == AfterSeq(a, cursor)[0];
    assert AfterSeq(a, cursor)[0] in AfterSeq(a, cursor);
  }

  /** Paging is complete exactly when it is pageable: following the cursor returns
      every matching row once and in order if and only if the page size is below the
      row cap (or everything fits one answer) and sequence order agrees with time
      order at every page boundary. */
  lemma {:induction false} PagingCompleteIff(rows: seq<Row>, limit: nat)
    requires limit > 0 && Distinct(rows)
    ensures FetchAll(rows, limit) == rows <==> Pageable(rows, limit)
    decreases |rows|
  {
    if limit < ROW_CAP && |rows| > limit {
      var rest := AfterSeq(rows, rows[limit - 1].seqNo);
      FetchOnePage(rows, limit);
      assert Distinct(rows[limit..]);
      PagingCompleteIff(rows[limit..], limit);
      hide FetchAll, AfterSeq, CleanCut, Distinct;
      if CleanCut(rows, limit) {
        CleanCutLeavesRest(rows, limit);
      } else if FetchAll(rest, limit) == rows[limit..] {
        CompleteMeansCleanCut(rows, limit);
      }
    }
  }

  /** One full page is complete exactly when what follows it is. */
  lemma FetchOnePage(rows: seq<Row>, limit: nat)
    requires 0 < limit < ROW_CAP && |rows| > limit
    ensures var rest := FetchAll(AfterSeq(rows, rows[limit - 1].seqNo), limit);
      FetchAll(rows, limit) == rows <==> rest == rows[limit..]
  {
    var rest := FetchAll(AfterSeq(rows, rows[limit - 1].seqNo), limit);
    assert FetchAll(rows, limit) == rows[..limit] + rest;
    assert rows == rows[..limit] + rows[limit..];
    assert (rows[..limit] + rest)[limit..] == rest;
  }

  /** At the cap itself a client gets the first page and no cursor to go on with, so
      every row after it is out of reach: 5001 rows at a page size of 5000. */
  lemma CapHidesTheRest(rows: seq<Row>)
    requires |rows| > ROW_CAP
    ensures NextCursor(rows, 0, ROW_CAP) == None
    ensures FetchAll(rows, ROW_CAP) == rows[..ROW_CAP] != rows
  {
  }

  function RowsInOrder(n: nat): seq<Row> {
    seq(n, i requires 0 <= i < n => Row(i + 1, i, 0.0, 0.0))
  }

  lemma OneRowTooMany()
    ensures var rows := RowsInOrder(5001);
      Distinct(rows) && !Pageable(rows, 5000) && FetchAll(rows, 5000) == rows[..5000] != rows
  {
    CapHidesTheRest(RowsInOrder(5001));
  }

  /** In particular when sequence numbers follow time order throughout. */
  lemma {:induction false} InOrderIsPageable(rows: seq<Row>, limit: nat)
    requires 0 < limit < ROW_CAP
    requires forall i, j :: 0 <= i < j < |rows| ==> rows[i].seqNo < rows[j].seqNo
    ensures Pageable(rows, limit)
    decreases |rows|
  {
    if |rows| > limit {
      InOrderIsPageable(rows[limit..], limit);
    }
  }
}
