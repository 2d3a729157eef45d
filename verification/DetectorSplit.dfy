/** Cutting a history in two: when does detecting the halves separately give what
    detecting the whole gives? Exactly when no visit straddles the cut. */
module DetectorSplit {
  import opened Detector

  ghost predicate Ascending(ps: seq<Fix>) {
    forall i, j :: 0 <= i < j < |ps| ==> ps[i].at <= ps[j].at
  }

  /** All of `a` is strictly earlier than all of `b`. */
  ghost predicate Earlier(a: seq<Fix>, b: seq<Fix>) {
    forall i, j :: 0 <= i < |a| && 0 <= j < |b| ==> a[i].at < b[j].at
  }

  predicate Straddles(w: Window, cut: nat) {
    w.first < cut <= w.last
  }

  ghost predicate NoneStraddles(ws: seq<Window>, cut: nat) {
    forall m :: 0 <= m < |ws| ==> !Straddles(ws[m], cut)
  }

  /* --------------------- windows of a prefix and a suffix ------------------ */

  lemma {:induction false} SumsOfPrefix(p: seq<Fix>, q: seq<Fix>, i: nat, j: nat)
    requires i <= j < |p|
    ensures SumLat(p + q, i, j) == SumLat(p, i, j) && SumLon(p + q, i, j) == SumLon(p, i, j)
    decreases j
  {
    if i < j { SumsOfPrefix(p, q, i, j - 1); }
  }

  lemma {:induction false} SumsOfSuffix(p: seq<Fix>, q: seq<Fix>, i: nat, j: nat)
    requires i <= j < |q|
    ensures SumLat(p + q, |p| + i, |p| + j) == SumLat(q, i, j) && SumLon(p + q, |p| + i, |p| + j) == SumLon(q, i, j)
    decreases j
  {
    if i < j { SumsOfSuffix(p, q, i, j - 1); }
  }

  lemma ExtendsOfPrefix(cfg: DetectConfig, p: seq<Fix>, q: seq<Fix>, i: nat, j: nat)
    requires i <= j < |p|
    ensures Extends(cfg, p + q, i, j) == Extends(cfg, p, i, j)
  {
    SumsOfPrefix(p, q, i, j);
    assert forall k :: i <= k <= j ==> (p + q)[k] == p[k];
  }

  lemma ExtendsOfSuffix(cfg: DetectConfig, p: seq<Fix>, q: seq<Fix>, i: nat, j: nat)
    requires i <= j < |q|
    ensures Extends(cfg, p + q, |p| + i, |p| + j) == Extends(cfg, q, i, j)
  {
    SumsOfSuffix(p, q, i, j);
    var n := |p|;
    assert forall k :: i <= k <= j ==> (p + q)[n + k] == q[k];
    assert forall k :: n + i <= k <= n + j ==> (p + q)[k] == q[k - n];
  }

  /** A prefix sees the same window, cut off at its own end. */
  lemma {:induction false} ReachOfPrefix(cfg: DetectConfig, p: seq<Fix>, q: seq<Fix>, i: nat, j: nat)
    requires i <= j < |p|
    ensures var e := Reach(cfg, p + q, i, j);
      Reach(cfg, p, i, j) == if e < |p| then e else |p| - 1
    decreases |p| - j
  {
    if j + 1 < |p| {
      ExtendsOfPrefix(cfg, p, q, i, j + 1);
      if Extends(cfg, p, i, j + 1) {
        ReachOfPrefix(cfg, p, q, i, j + 1);
      }
    }
  }

  lemma {:induction false} ReachOfSuffix(cfg: DetectConfig, p: seq<Fix>, q: seq<Fix>, i: nat, j: nat)
    requires i <= j < |q|
    ensures Reach(cfg, p + q, |p| + i, |p| + j) == |p| + Reach(cfg, q, i, j)
    decreases |q| - j
  {
    if j + 1 < |q| {
      ExtendsOfSuffix(cfg, p, q, i, j + 1);
      if Extends(cfg, q, i, j + 1) {
        ReachOfSuffix(cfg, p, q, i, j + 1);
      }
    }
  }

  lemma StartOfSuffix(cfg: DetectConfig, p: seq<Fix>, q: seq<Fix>, i: nat)
    requires i < |q|
    ensures var e := Reach(cfg, q, i, i);
      && StartsVisit(cfg, p + q, |p| + i) == StartsVisit(cfg, q, i)
      && Reach(cfg, p + q, |p| + i, |p| + i) == |p| + e
      && VisitOf(p + q, Window(|p| + i, |p| + e)) == VisitOf(q, Window(i, e))
  {
    ReachOfSuffix(cfg, p, q, i, i);
    SumsOfSuffix(p, q, i, Reach(cfg, q, i, i));
  }

  /** Past the cut the scan of the whole is the scan of the second half. */
  lemma {:induction false} VisitsOfSuffix(cfg: DetectConfig, p: seq<Fix>, q: seq<Fix>, i: nat)
    ensures VisitsFrom(cfg, p + q, |p| + i) == VisitsFrom(cfg, q, i)
    decreases |q| - i
  {
    if i < |q| {
      StartOfSuffix(cfg, p, q, i);
      VisitsOfSuffix(cfg, p, q, if StartsVisit(cfg, q, i) then Reach(cfg, q, i, i) + 1 else i + 1);
    }
  }

  /** Before the cut, a start is a visit of the whole inside the first half, or a
      straddling one, or neither half sees a visit there. */
  lemma StartBeforeCut(cfg: DetectConfig, p: seq<Fix>, q: seq<Fix>, i: nat)
    requires i < |p| && Ascending(p + q)
    ensures var e := Reach(cfg, p + q, i, i);
      && (StartsVisit(cfg, p + q, i) && e < |p| ==>
            StartsVisit(cfg, p, i) && Reach(cfg, p, i, i) == e
            && VisitOf(p + q, Window(i, e)) == VisitOf(p, Window(i, e)))
      && (!StartsVisit(cfg, p + q, i) ==> !StartsVisit(cfg, p, i))
  {
    ReachOfPrefix(cfg, p, q, i, i);
    var ps := p + q;
    var e := Reach(cfg, ps, i, i);
    assert ps[i] == p[i];
    if e < |p| {
      SumsOfPrefix(p, q, i, e);
      assert ps[e] == p[e];
    } else {
      assert ps[|p| - 1].at <= ps[e].at;
      assert ps[|p| - 1] == p[|p| - 1];
    }
  }

  /** One step of both scans, as long as the window does not cross the cut. */
  lemma StepBeforeCut(cfg: DetectConfig, p: seq<Fix>, q: seq<Fix>, i: nat)
    requires i < |p| && Ascending(p + q)
    ensures var e := Reach(cfg, p + q, i, i);
      if StartsVisit(cfg, p + q, i) then
        e < |p| ==>
          && VisitsFrom(cfg, p + q, i) == [VisitOf(p, Window(i, e))] + VisitsFrom(cfg, p + q, e + 1)
          && VisitsFrom(cfg, p, i) == [VisitOf(p, Window(i, e))] + VisitsFrom(cfg, p, e + 1)
      else
        && VisitsFrom(cfg, p + q, i) == VisitsFrom(cfg, p + q, i + 1)
        && VisitsFrom(cfg, p, i) == VisitsFrom(cfg, p, i + 1)
  {
    StartBeforeCut(cfg, p, q, i);
  }

  lemma StraddleStep(cfg: DetectConfig, ps: seq<Fix>, i: nat, cut: nat)
    requires i < |ps|
    ensures var e := Reach(cfg, ps, i, i);
      NoneStraddles(ScanFrom(cfg, ps, i), cut) <==>
        if StartsVisit(cfg, ps, i)
        then !Straddles(Window(i, e), cut) && NoneStraddles(ScanFrom(cfg, ps, e + 1), cut)
        else NoneStraddles(ScanFrom(cfg, ps, i + 1), cut)
  {
    if StartsVisit(cfg, ps, i) {
      var e := Reach(cfg, ps, i, i);
      StraddleCons(Window(i, e), ScanFrom(cfg, ps, e + 1), cut);
    }
  }

  lemma StraddleCons(w: Window, rest: seq<Window>, cut: nat)
    ensures NoneStraddles([w] + rest, cut) <==> !Straddles(w, cut) && NoneStraddles(rest, cut)
  {
    var ws := [w] + rest;
    if NoneStraddles(ws, cut) {
      assert !Straddles(ws[0], cut);
      forall m | 0 <= m < |rest| ensures !Straddles(rest[m], cut) {
        assert !Straddles(ws[m + 1], cut);
      }
    }
  }

  /** Both scans make the same move to `next`, having found `found`. */
  lemma NextBeforeCut(cfg: DetectConfig, p: seq<Fix>, q: seq<Fix>, i: nat) returns (next: nat, found: seq<Visit>)
    requires i < |p| && Ascending(p + q)
    requires StartsVisit(cfg, p + q, i) ==> Reach(cfg, p + q, i, i) < |p|
    ensures i < next <= |p|
    ensures NoneStraddles(ScanFrom(cfg, p + q, i), |p|) <==> NoneStraddles(ScanFrom(cfg, p + q, next), |p|)
    ensures VisitsFrom(cfg, p + q, i) == found + VisitsFrom(cfg, p + q, next)
    ensures VisitsFrom(cfg, p, i) == found + VisitsFrom(cfg, p, next)
  {
    hide Reach, StartsVisit, VisitsFrom, ScanFrom, VisitOf, NoneStraddles;
    next, found := i + 1, [];
    if StartsVisit(cfg, p + q, i) {
      var e := Reach(cfg, p + q, i, i);
      next, found := e + 1, [VisitOf(p, Window(i, e))];
    }
    assert VisitsFrom(cfg, p + q, i) == found + VisitsFrom(cfg, p + q, next)
        && VisitsFrom(cfg, p, i) == found + VisitsFrom(cfg, p, next) by { StepBeforeCut(cfg, p, q, i); }
    StraddleStep(cfg, p + q, i, |p|);
  }

  lemma HeadDoesNotStraddle(cfg: DetectConfig, ps: seq<Fix>, i: nat, cut: nat)
    requires i < cut <= |ps| && NoneStraddles(ScanFrom(cfg, ps, i), cut)
    ensures StartsVisit(cfg, ps, i) ==> Reach(cfg, ps, i, i) < cut
  {
    StraddleStep(cfg, ps, i, cut);
  }

  /** If nothing straddles the cut, the halves can be detected separately. */
  lemma {:induction false} SplitFrom(cfg: DetectConfig, p: seq<Fix>, q: seq<Fix>, i: nat)
    requires i <= |p| && Ascending(p + q) && NoneStraddles(ScanFrom(cfg, p + q, i), |p|)
    ensures VisitsFrom(cfg, p + q, i) == VisitsFrom(cfg, p, i) + VisitsFrom(cfg, q, 0)
    decreases |p| - i
  {
    if i == |p| {
      VisitsOfSuffix(cfg, p, q, 0);
    } else {
      HeadDoesNotStraddle(cfg, p + q, i, |p|);
      var next, found := NextBeforeCut(cfg, p, q, i);
      calc {
        VisitsFrom(cfg, p + q, i);
        found + VisitsFrom(cfg, p + q, next);
        { SplitFrom(cfg, p, q, next); }
        found + (VisitsFrom(cfg, p, next) + VisitsFrom(cfg, q, 0));
        (found + VisitsFrom(cfg, p, next)) + VisitsFrom(cfg, q, 0);
        VisitsFrom(cfg, p, i) + VisitsFrom(cfg, q, 0);
      }
    }
  }

  lemma VisitsBounded(cfg: DetectConfig, ps: seq<Fix>, i: nat)
    ensures forall v :: v in VisitsFrom(cfg, ps, i) ==>
      v.count <= |ps| - i && exists m :: i <= m < |ps| && v.startAt == ps[m].at
  {
    ScanInRange(cfg, ps, i);
    VisitsMatchScan(cfg, ps, i);
    var ws, vs := ScanFrom(cfg, ps, i), VisitsFrom(cfg, ps, i);
    forall v | v in vs ensures v.count <= |ps| - i && exists m :: i <= m < |ps| && v.startAt == ps[m].at {
      var k :| 0 <= k < |vs| && vs[k] == v;
      assert v == VisitOf(ps, ws[k]);
    }
  }

  lemma StraddlerStartsEarly(cfg: DetectConfig, ps: seq<Fix>, i: nat, cut: nat)
    requires !NoneStraddles(ScanFrom(cfg, ps, i), cut)
    ensures i < cut && i < |ps|
  {
    ScanInRange(cfg, ps, i);
  }

  /** If something straddles it, the two results differ. */
  lemma {:induction false} StraddleBreaks(cfg: DetectConfig, p: seq<Fix>, q: seq<Fix>, i: nat)
    requires i <= |p| && Ascending(p + q) && Earlier(p, q) && !NoneStraddles(ScanFrom(cfg, p + q, i), |p|)
    ensures VisitsFrom(cfg, p + q, i) != VisitsFrom(cfg, p, i) + VisitsFrom(cfg, q, 0)
    decreases |p| - i
  {
    StraddlerStartsEarly(cfg, p + q, i, |p|);
    if StartsVisit(cfg, p + q, i) && Reach(cfg, p + q, i, i) >= |p| {
      StraddlerComesFirst(cfg, p, q, i);
    } else {
      var next, found := NextBeforeCut(cfg, p, q, i);
      StraddleBreaks(cfg, p, q, next);
      SameHead(found, VisitsFrom(cfg, p + q, next), VisitsFrom(cfg, p, next), VisitsFrom(cfg, q, 0));
    }
  }

  lemma StraddlerComesFirst(cfg: DetectConfig, p: seq<Fix>, q: seq<Fix>, i: nat)
    requires i < |p| && Ascending(p + q) && Earlier(p, q)
    requires StartsVisit(cfg, p + q, i) && Reach(cfg, p + q, i, i) >= |p|
    ensures VisitsFrom(cfg, p + q, i) != VisitsFrom(cfg, p, i) + VisitsFrom(cfg, q, 0)
  {
    hide Reach, StartsVisit, VisitsFrom, VisitOf;
    var e := Reach(cfg, p + q, i, i);
    StraddlerIsMissing(cfg, p, q, i, e);
    VisitComesFirst(cfg, p + q, i);
  }

  lemma VisitComesFirst(cfg: DetectConfig, ps: seq<Fix>, i: nat)
    requires i < |ps| && StartsVisit(cfg, ps, i)
    ensures VisitOf(ps, Window(i, Reach(cfg, ps, i, i))) in VisitsFrom(cfg, ps, i)
  {
    assert VisitsFrom(cfg, ps, i)[0] == VisitOf(ps, Window(i, Reach(cfg, ps, i, i)));
  }

  lemma SameHead(found: seq<Visit>, whole: seq<Visit>, a: seq<Visit>, b: seq<Visit>)
    requires whole != a + b
    ensures found + whole != (found + a) + b
  {
    assert (found + whole)[|found|..] == whole;
    assert ((found + a) + b)[|found|..] == a + b;
  }

  lemma StraddlerIsMissing(cfg: DetectConfig, p: seq<Fix>, q: seq<Fix>, i: nat, e: nat)
    requires i < |p| <= e < |p + q| && Ascending(p + q) && Earlier(p, q)
    ensures VisitOf(p + q, Window(i, e)) !in VisitsFrom(cfg, p, i) + VisitsFrom(cfg, q, 0)
  {
    var v := VisitOf(p + q, Window(i, e));
    var a, b := VisitsFrom(cfg, p, i), VisitsFrom(cfg, q, 0);
    VisitsBounded(cfg, p, i);
    VisitsBounded(cfg, q, 0);
    assert v.startAt == p[i].at;
    assert forall m :: 0 <= m < |q| ==> p[i].at < q[m].at;
  }

  /** The law of the cut. On an ascending history whose first part is strictly
      earlier than the second, detection distributes over the cut if and only if
      no detected visit straddles it. */
  lemma DetectSplitIff(cfg: DetectConfig, p: seq<Fix>, q: seq<Fix>)
    requires Ascending(p + q) && Earlier(p, q)
    ensures Detected(cfg, p + q) == Detected(cfg, p) + Detected(cfg, q)
      <==> NoneStraddles(Scan(cfg, p + q), |p|)
  {
    if Usable(cfg) {
      ShortHistory(cfg, p);
      ShortHistory(cfg, q);
      ShortHistory(cfg, p + q);
      if NoneStraddles(ScanFrom(cfg, p + q, 0), |p|) {
        SplitFrom(cfg, p, q, 0);
      } else {
        StraddleBreaks(cfg, p, q, 0);
      }
    }
  }

  /** The early return for fewer than two points changes nothing. */
  lemma ShortHistory(cfg: DetectConfig, ps: seq<Fix>)
    requires Usable(cfg)
    ensures Scan(cfg, ps) == ScanFrom(cfg, ps, 0)
    ensures Detected(cfg, ps) == VisitsFrom(cfg, ps, 0)
  {
    if |ps| == 1 {
      assert !StartsVisit(cfg, ps, 0);
      assert ScanFrom(cfg, ps, 1) == [] && VisitsFrom(cfg, ps, 1) == [];
    }
  }
}
