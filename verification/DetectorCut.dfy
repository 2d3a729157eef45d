/** What a scan does around a cut in time when visits may straddle it: which visits
    start before the cut, where the scan resumes behind it, and when two histories
    with the same first part agree on all that. */
module DetectorCut {
  import opened Ingest
  import opened Detector
  import opened DetectorSplit

  /** The visits found from `i` on that start before the cut. */
  function VisitsUntil(cfg: DetectConfig, ps: seq<Fix>, i: nat, cut: nat): seq<Visit>
    requires cut <= |ps|
    decreases |ps| - i
  {
    if i >= cut then []
    else if StartsVisit(cfg, ps, i) then
      var e := Reach(cfg, ps, i, i);
      [VisitOf(ps, Window(i, e))] + VisitsUntil(cfg, ps, e + 1, cut)
    else VisitsUntil(cfg, ps, i + 1, cut)
  }

  /** The visit found from `i` on that straddles the cut; there is at most one. */
  function Straddler(cfg: DetectConfig, ps: seq<Fix>, i: nat, cut: nat): (w: Option<Window>)
    requires cut <= |ps|
    ensures w.Some? ==> i <= w.value.first < cut <= w.value.last < |ps|
    decreases |ps| - i
  {
    if i >= cut then None
    else if StartsVisit(cfg, ps, i) then
      var e := Reach(cfg, ps, i, i);
      if e >= cut then Some(Window(i, e)) else Straddler(cfg, ps, e + 1, cut)
    else Straddler(cfg, ps, i + 1, cut)
  }

  /** Where the scan stands when it has passed the cut. */
  function ResumeAt(w: Option<Window>, cut: nat): nat {
    match w
    case None => cut
    case Some(window) => window.last + 1
  }

  function VisitAt(ps: seq<Fix>, w: Option<Window>): Option<Visit>
    requires w.Some? ==> w.value.first <= w.value.last < |ps|
  {
    match w
    case None => None
    case Some(window) => Some(VisitOf(ps, window))
  }

  /** Before the cut, then from where it is passed. */
  lemma {:induction false} ScanAroundCut(cfg: DetectConfig, ps: seq<Fix>, i: nat, cut: nat)
    requires i <= cut <= |ps|
    ensures VisitsFrom(cfg, ps, i) ==
      VisitsUntil(cfg, ps, i, cut) + VisitsFrom(cfg, ps, ResumeAt(Straddler(cfg, ps, i, cut), cut))
    decreases |ps| - i
  {
    if i < cut {
      if StartsVisit(cfg, ps, i) {
        var e := Reach(cfg, ps, i, i);
        if e < cut {
          ScanAroundCut(cfg, ps, e + 1, cut);
        } else {
          assert VisitsUntil(cfg, ps, e + 1, cut) == [];
        }
      } else {
        ScanAroundCut(cfg, ps, i + 1, cut);
      }
    }
  }

  lemma {:induction false} UntilStarts(cfg: DetectConfig, ps: seq<Fix>, i: nat, cut: nat)
    requires cut <= |ps|
    ensures forall v :: v in VisitsUntil(cfg, ps, i, cut) ==> exists m :: i <= m < cut && v.startAt == ps[m].at
    decreases |ps| - i
  {
    if i < cut {
      UntilStarts(cfg, ps, if StartsVisit(cfg, ps, i) then Reach(cfg, ps, i, i) + 1 else i + 1, cut);
    }
  }

  lemma {:induction false} StraddlerIff(cfg: DetectConfig, ps: seq<Fix>, i: nat, cut: nat)
    requires i <= cut <= |ps|
    ensures NoneStraddles(ScanFrom(cfg, ps, i), cut) <==> Straddler(cfg, ps, i, cut).None?
    decreases |ps| - i
  {
    if i < cut {
      StraddleStep(cfg, ps, i, cut);
      if !StartsVisit(cfg, ps, i) {
        StraddlerIff(cfg, ps, i + 1, cut);
      } else if Reach(cfg, ps, i, i) < cut {
        StraddlerIff(cfg, ps, Reach(cfg, ps, i, i) + 1, cut);
      }
    } else {
      ScanInRange(cfg, ps, i);
    }
  }

  /* ----------------- one first part, two continuations ---------------------- */

  ghost function ListOf(v: Option<Visit>): seq<Visit> {
    match v
    case None => []
    case Some(visit) => [visit]
  }

  /** Too close to the cut for a visit to end before it. */
  ghost predicate TooLate(cfg: DetectConfig, p: seq<Fix>, i: nat) {
    i < |p| ==> p[|p| - 1].at - p[i].at < cfg.minDwell
  }

  lemma EndsBy(p: seq<Fix>, q: seq<Fix>, e: nat)
    requires Ascending(p + q) && p != [] && e < |p + q|
    ensures e < |p| ==> (p + q)[e].at <= p[|p| - 1].at
  {
    assert (p + q)[|p| - 1] == p[|p| - 1];
  }

  lemma {:induction false} OnlyStraddlerLeft(cfg: DetectConfig, p: seq<Fix>, q: seq<Fix>, i: nat)
    requires i <= |p| && Ascending(p + q) && TooLate(cfg, p, i)
    ensures VisitsUntil(cfg, p + q, i, |p|) == ListOf(VisitAt(p + q, Straddler(cfg, p + q, i, |p|)))
    decreases |p| - i
  {
    if i < |p| {
      var ps := p + q;
      if StartsVisit(cfg, ps, i) {
        var e := Reach(cfg, ps, i, i);
        EndsBy(p, q, e);
        assert VisitsUntil(cfg, ps, e + 1, |p|) == [];
      } else {
        assert i + 1 < |p| ==> ps[i].at <= ps[i + 1].at;
        OnlyStraddlerLeft(cfg, p, q, i + 1);
      }
    }
  }

  /** A window that leaves the first part in one history reaches at least its end
      in the other. */
  lemma ReachesEnd(cfg: DetectConfig, p: seq<Fix>, q: seq<Fix>, q': seq<Fix>, i: nat)
    requires i < |p| && Reach(cfg, p + q, i, i) >= |p|
    ensures Reach(cfg, p + q', i, i) >= |p| - 1
  {
    ReachOfPrefix(cfg, p, q, i, i);
    ReachOfPrefix(cfg, p, q', i, i);
  }

  lemma NotYetLongEnough(cfg: DetectConfig, p: seq<Fix>, q': seq<Fix>, i: nat)
    requires i < |p| && Ascending(p + q') && cfg.minDwell > 0 && !Unset(p[i])
    requires !StartsVisit(cfg, p + q', i) && Reach(cfg, p + q', i, i) >= |p| - 1
    ensures TooLate(cfg, p, i) && TooLate(cfg, p, i + 1)
  {
    var ps := p + q';
    var e := Reach(cfg, ps, i, i);
    hide Reach, Extends;
    assert ps[i].at == p[i].at;
    LaterIsNoEarlier(p, q', |p| - 1, e);
    if i + 1 < |p| { LaterIsNoEarlier(p, q', i, i + 1); }
  }

  lemma LaterIsNoEarlier(p: seq<Fix>, q: seq<Fix>, i: nat, j: nat)
    requires Ascending(p + q) && i < |p| && i <= j < |p + q|
    ensures p[i].at <= (p + q)[j].at
  {
    assert (p + q)[i] == p[i];
  }

  /** The visits starting before the cut agree exactly when the straddling ones do. */
  ghost predicate AgreeFrom(cfg: DetectConfig, p: seq<Fix>, q: seq<Fix>, q': seq<Fix>, i: nat) {
    (VisitsUntil(cfg, p + q, i, |p|) == VisitsUntil(cfg, p + q', i, |p|))
    <==>
    (VisitAt(p + q, Straddler(cfg, p + q, i, |p|)) == VisitAt(p + q', Straddler(cfg, p + q', i, |p|)))
  }

  /** At a start whose visit straddles the cut in one of the histories. */
  lemma AgreeAtStraddler(cfg: DetectConfig, p: seq<Fix>, q: seq<Fix>, q': seq<Fix>, i: nat)
    requires i < |p| && Ascending(p + q) && Ascending(p + q') && cfg.minDwell > 0
    requires StartsVisit(cfg, p + q, i) && Reach(cfg, p + q, i, i) >= |p|
    ensures AgreeFrom(cfg, p, q, q', i)
  {
    var ps, ps' := p + q, p + q';
    var v := VisitOf(ps, Window(i, Reach(cfg, ps, i, i)));
    assert VisitsUntil(cfg, ps, i, |p|) == [v] + [] == [v];
    ReachesEnd(cfg, p, q, q', i);
    var e' := Reach(cfg, ps', i, i);
    if StartsVisit(cfg, ps', i) {
      var v' := VisitOf(ps', Window(i, e'));
      assert VisitsUntil(cfg, ps', e' + 1, |p|) == [];
      assert VisitsUntil(cfg, ps', i, |p|) == [v'] + [] == [v'];
      assert [v] == [v'] <==> v == v';
    } else {
      NotYetLongEnough(cfg, p, q', i);
      OnlyStraddlerLeft(cfg, p, q', i + 1);
    }
  }

  lemma AgreeFlipped(cfg: DetectConfig, p: seq<Fix>, q: seq<Fix>, q': seq<Fix>, i: nat)
    requires AgreeFrom(cfg, p, q', q, i)
    ensures AgreeFrom(cfg, p, q, q', i)
  {
  }

  /** One move of the scan before the cut. */
  lemma UntilStep(cfg: DetectConfig, ps: seq<Fix>, i: nat, cut: nat)
    requires i < cut <= |ps|
    ensures var e := Reach(cfg, ps, i, i);
      if !StartsVisit(cfg, ps, i) then
        && VisitsUntil(cfg, ps, i, cut) == VisitsUntil(cfg, ps, i + 1, cut)
        && Straddler(cfg, ps, i, cut) == Straddler(cfg, ps, i + 1, cut)
      else
        && VisitsUntil(cfg, ps, i, cut) == [VisitOf(ps, Window(i, e))] + VisitsUntil(cfg, ps, e + 1, cut)
        && (e < cut ==> Straddler(cfg, ps, i, cut) == Straddler(cfg, ps, e + 1, cut))
  {
  }

  /** At any other start both scans make the same move. */
  lemma SameMove(cfg: DetectConfig, p: seq<Fix>, q: seq<Fix>, q': seq<Fix>, i: nat) returns (next: nat)
    requires i < |p| && Ascending(p + q) && Ascending(p + q')
    requires StartsVisit(cfg, p + q, i) ==> Reach(cfg, p + q, i, i) < |p|
    requires StartsVisit(cfg, p + q', i) ==> Reach(cfg, p + q', i, i) < |p|
    ensures i < next <= |p|
    ensures AgreeFrom(cfg, p, q, q', next) ==> AgreeFrom(cfg, p, q, q', i)
  {
    hide StartsVisit, Reach, VisitsUntil, Straddler, VisitOf, Ascending;
    StartBeforeCut(cfg, p, q, i);
    StartBeforeCut(cfg, p, q', i);
    UntilStep(cfg, p + q, i, |p|);
    UntilStep(cfg, p + q', i, |p|);
    next := if StartsVisit(cfg, p + q, i) then Reach(cfg, p + q, i, i) + 1 else i + 1;
    if StartsVisit(cfg, p + q, i) {
      var v := VisitOf(p, Window(i, next - 1));
      SameHeads(v, VisitsUntil(cfg, p + q, next, |p|), VisitsUntil(cfg, p + q', next, |p|));
    }
  }

  lemma SameHeads(v: Visit, a: seq<Visit>, b: seq<Visit>)
    ensures [v] + a == [v] + b <==> a == b
  {
    assert ([v] + a)[1..] == a && ([v] + b)[1..] == b;
  }

  lemma {:induction false} BeforeCutIff(cfg: DetectConfig, p: seq<Fix>, q: seq<Fix>, q': seq<Fix>, i: nat)
    requires i <= |p| && Ascending(p + q) && Ascending(p + q') && cfg.minDwell > 0
    ensures AgreeFrom(cfg, p, q, q', i)
    decreases |p| - i
  {
    if i < |p| {
      if StartsVisit(cfg, p + q, i) && Reach(cfg, p + q, i, i) >= |p| {
        AgreeAtStraddler(cfg, p, q, q', i);
      } else if StartsVisit(cfg, p + q', i) && Reach(cfg, p + q', i, i) >= |p| {
        AgreeAtStraddler(cfg, p, q', q, i);
        AgreeFlipped(cfg, p, q, q', i);
      } else {
        hide AgreeFrom;
        var next := SameMove(cfg, p, q, q', i);
        BeforeCutIff(cfg, p, q, q', next);
      }
    }
  }

  /* -------------------------------- the tail -------------------------------- */

  /** The visit of the history that straddles the cut. */
  function StraddlingWindow(cfg: DetectConfig, ps: seq<Fix>, cut: nat): (w: Option<Window>)
    requires cut <= |ps|
    ensures w.Some? ==> w.value.first < cut <= w.value.last < |ps|
  {
    if Usable(cfg) then Straddler(cfg, ps, 0, cut) else None
  }

  function StraddlingVisit(cfg: DetectConfig, ps: seq<Fix>, cut: nat): Option<Visit>
    requires cut <= |ps|
  {
    VisitAt(ps, StraddlingWindow(cfg, ps, cut))
  }

  /** How many points behind the cut the straddling visit takes. */
  function TailLength(cfg: DetectConfig, ps: seq<Fix>, cut: nat): (t: nat)
    requires cut <= |ps|
    ensures t <= |ps| - cut
  {
    ResumeAt(StraddlingWindow(cfg, ps, cut), cut) - cut
  }

  lemma DetectedFrom(cfg: DetectConfig, q: seq<Fix>, t: nat)
    requires Usable(cfg) && t <= |q|
    ensures VisitsFrom(cfg, q, t) == Detected(cfg, q[t..])
  {
    assert q == q[..t] + q[t..];
    VisitsOfSuffix(cfg, q[..t], q[t..], 0);
    ShortHistory(cfg, q[t..]);
  }

  /** A history split at a cut: the visits starting before it, then those of what
      follows the straddling visit. */
  lemma DetectedAroundCut(cfg: DetectConfig, p: seq<Fix>, q: seq<Fix>)
    requires Usable(cfg)
    ensures Detected(cfg, p + q) ==
      VisitsUntil(cfg, p + q, 0, |p|) + Detected(cfg, q[TailLength(cfg, p + q, |p|)..])
  {
    var t := TailLength(cfg, p + q, |p|);
    ShortHistory(cfg, p + q);
    ScanAroundCut(cfg, p + q, 0, |p|);
    VisitsOfSuffix(cfg, p, q, t);
    DetectedFrom(cfg, q, t);
  }

  /** The visits of a history that start in its first part. */
  function StartedBefore(cfg: DetectConfig, p: seq<Fix>, q: seq<Fix>): seq<Visit> {
    if Usable(cfg) then VisitsUntil(cfg, p + q, 0, |p|) else []
  }

  /** Reading the second part from its start finds no more than the scan of the whole
      does behind the cut. */
  ghost predicate TailAddsNothing(cfg: DetectConfig, p: seq<Fix>, q: seq<Fix>) {
    Detected(cfg, q) == Detected(cfg, q[TailLength(cfg, p + q, |p|)..])
  }

  /** With the first part `p` kept, the second part `q` grew to `q'`: the visit that
      straddles the cut is the same as before, or there is none before and after,
      and what it takes of `q'` would not give rise to a visit if read again. */
  ghost predicate Undisturbed(cfg: DetectConfig, p: seq<Fix>, q: seq<Fix>, q': seq<Fix>) {
    StraddlingVisit(cfg, p + q, |p|) == StraddlingVisit(cfg, p + q', |p|) && TailAddsNothing(cfg, p, q')
  }

  /** Where only the second part grew, the visits of the first are the same exactly
      when the straddling one is. */
  lemma SameFirstPart(cfg: DetectConfig, p: seq<Fix>, q: seq<Fix>, q': seq<Fix>)
    requires Ascending(p + q) && Ascending(p + q')
    ensures StartedBefore(cfg, p, q) == StartedBefore(cfg, p, q')
      <==> StraddlingVisit(cfg, p + q, |p|) == StraddlingVisit(cfg, p + q', |p|)
  {
    if Usable(cfg) { BeforeCutIff(cfg, p, q, q', 0); }
  }

  /** When nothing straddled the cut before, that means nothing does now. */
  lemma UndisturbedWithoutStraddle(cfg: DetectConfig, p: seq<Fix>, q: seq<Fix>, q': seq<Fix>)
    requires NoneStraddles(Scan(cfg, p + q), |p|)
    ensures Undisturbed(cfg, p, q, q') <==> NoneStraddles(Scan(cfg, p + q'), |p|)
  {
    if Usable(cfg) {
      ShortHistory(cfg, p + q);
      ShortHistory(cfg, p + q');
      StraddlerIff(cfg, p + q, 0, |p|);
      StraddlerIff(cfg, p + q', 0, |p|);
    }
    assert q'[0..] == q';
  }

  /** No visit of this history starts among its first `t` points. */
  ghost predicate QuietTail(cfg: DetectConfig, q: seq<Fix>, t: nat) {
    forall m :: 0 <= m < |Scan(cfg, q)| ==> Scan(cfg, q)[m].first >= t
  }

  /** The first `t` points do not share their last timestamp with the next one. */
  predicate EndsInTime(q: seq<Fix>, t: nat) {
    0 < t < |q| ==> q[t - 1].at < q[t].at
  }

  lemma FirstWindow(cfg: DetectConfig, q: seq<Fix>, i: nat)
    requires i < |q| && StartsVisit(cfg, q, i)
    ensures ScanFrom(cfg, q, i) != [] && ScanFrom(cfg, q, i)[0].first == i
  {
  }

  lemma {:induction false} QuietSkips(cfg: DetectConfig, q: seq<Fix>, i: nat, t: nat)
    requires i <= t <= |q| && forall m :: 0 <= m < |ScanFrom(cfg, q, i)| ==> ScanFrom(cfg, q, i)[m].first >= t
    ensures VisitsFrom(cfg, q, i) == VisitsFrom(cfg, q, t)
    decreases t - i
  {
    if i < t {
      if StartsVisit(cfg, q, i) {
        FirstWindow(cfg, q, i);
        assert false;
      }
      assert ScanFrom(cfg, q, i) == ScanFrom(cfg, q, i + 1);
      QuietSkips(cfg, q, i + 1, t);
    }
  }

  lemma LoudTailShows(cfg: DetectConfig, q: seq<Fix>, t: nat, m: nat)
    requires t <= |q| && Ascending(q) && EndsInTime(q, t)
    requires m < |ScanFrom(cfg, q, 0)| && ScanFrom(cfg, q, 0)[m].first < t
    ensures VisitsFrom(cfg, q, 0) != VisitsFrom(cfg, q, t)
  {
    ScanInRange(cfg, q, 0);
    VisitsMatchScan(cfg, q, 0);
    VisitsBounded(cfg, q, t);
    var w, v := ScanFrom(cfg, q, 0)[m], VisitsFrom(cfg, q, 0)[m];
    assert v == VisitOf(q, w) && v in VisitsFrom(cfg, q, 0);
    forall k | t <= k < |q| ensures q[w.first].at < q[k].at {
      assert q[w.first].at <= q[t - 1].at < q[t].at <= q[k].at;
    }
  }

  /** Dropping the first points changes nothing exactly when no visit starts among
      them; at a tie in time at their end, only the easy half is certain. */
  lemma TailIgnoredIff(cfg: DetectConfig, q: seq<Fix>, t: nat)
    requires t <= |q| && Ascending(q)
    ensures QuietTail(cfg, q, t) ==> Detected(cfg, q) == Detected(cfg, q[t..])
    ensures EndsInTime(q, t) ==> (Detected(cfg, q) == Detected(cfg, q[t..]) <==> QuietTail(cfg, q, t))
  {
    if Usable(cfg) {
      ShortHistory(cfg, q);
      DetectedFrom(cfg, q, t);
      if QuietTail(cfg, q, t) {
        QuietSkips(cfg, q, 0, t);
      } else if EndsInTime(q, t) {
        var m :| 0 <= m < |Scan(cfg, q)| && Scan(cfg, q)[m].first < t;
        LoudTailShows(cfg, q, t, m);
      }
    }
  }
}
