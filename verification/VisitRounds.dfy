/** The visits of one device over the whole life of the scheduler: points keep
    coming in, runs pick the device up, finish or fail. */
module VisitRounds {
  import opened Ingest
  import opened Detector
  import opened VisitTable
  import opened VisitScheduler

  /** What the tables hold, and how much of it the stored visits were made from. */
  datatype Desk = Desk(rows: seq<PointRow>, visits: seq<VisitRow>, watermark: map<nat, nat>, seen: nat)

  const EMPTY_DESK := Desk([], [], map[], 0)

  /** Points come in, then a run processes the device; some more are committed while
      it does, after it read the watermark and before it reads the points. */
  datatype Round = Round(added: seq<PointRow>, during: seq<PointRow>, attempt: Attempt)

  /** What the tables hold when the run reads its watermark. */
  function Offered(d: Desk, round: Round): seq<PointRow> {
    d.rows + round.added
  }

  function NewRows(round: Round): seq<PointRow> {
    round.added + round.during
  }

  predicate Rewriting(device: nat, d: Desk, round: Round) {
    Rewrites(Offered(d, round), d.watermark, device, round.attempt)
  }

  function WindowOf(lookback: int, device: nat, d: Desk, round: Round): Option<int> {
    WindowStart(Offered(d, round), d.watermark, device, lookback)
  }

  function Play(cfg: DetectConfig, lookback: int, device: nat, d: Desk, round: Round): Desk {
    var rows := d.rows + NewRows(round);
    Desk(rows,
         VisitsAfter(cfg, lookback, Offered(d, round), round.during, d.visits, d.watermark, device, round.attempt),
         WatermarkAfter(Offered(d, round), d.watermark, device, round.attempt),
         if Rewriting(device, d, round) then |rows| else d.seen)
  }

  function PlayAll(cfg: DetectConfig, lookback: int, device: nat, d: Desk, rounds: seq<Round>): Desk
    decreases |rounds|
  {
    if rounds == [] then d
    else PlayAll(cfg, lookback, device, Play(cfg, lookback, device, d, rounds[0]), rounds[1..])
  }

  function Unseen(d: Desk): seq<PointRow>
    requires d.seen <= |d.rows|
  {
    d.rows[d.seen..]
  }

  /* ----------------------------- hypotheses --------------------------------- */

  /** New points are numbered above the device's old ones, and later commits above
      earlier ones. */
  ghost predicate Numbered(device: nat, d: Desk, round: Round) {
    && AllNew(round.added, device, MaxPointSeq(d.rows, device))
    && AllNew(round.during, device, MaxPointSeq(Offered(d, round), device))
  }

  /** Where the round rewrites, nothing disturbs what lies before its window. */
  ghost predicate Harmless(cfg: DetectConfig, lookback: int, device: nat, d: Desk, round: Round)
    requires d.seen <= |d.rows|
  {
    Rewriting(device, d, round) ==>
      StartUndisturbed(cfg, d.rows[..d.seen], Unseen(d) + NewRows(round), device, WindowOf(lookback, device, d, round))
  }

  /* ------------------------------ invariant --------------------------------- */

  ghost predicate AllNew(rows: seq<PointRow>, device: nat, above: nat) {
    forall r :: r in rows && r.device == device ==> r.seqNo > above
  }

  /** The watermark is not ahead of what was seen, and what was not is numbered
      above it. */
  ghost predicate Tidy(device: nat, d: Desk) {
    && d.seen <= |d.rows|
    && (device in d.watermark ==> d.watermark[device] <= MaxPointSeq(d.rows[..d.seen], device))
    && AllNew(Unseen(d), device, MaxPointSeq(d.rows[..d.seen], device))
  }

  /** The stored visits are the detection of what was seen. */
  ghost predicate Exact(cfg: DetectConfig, device: nat, d: Desk)
    requires d.seen <= |d.rows|
  {
    DeviceVisits(d.visits, device) == Detected(cfg, AllPoints(d.rows[..d.seen], device))
  }

  lemma {:induction false} MaxPointSeqBounds(rows: seq<PointRow>, device: nat)
    ensures forall r :: r in rows && r.device == device ==> r.seqNo <= MaxPointSeq(rows, device)
  {
    if rows != [] {
      MaxPointSeqBounds(rows[..|rows| - 1], device);
      assert rows == rows[..|rows| - 1] + [rows[|rows| - 1]];
    }
  }

  lemma {:induction false} MaxPointSeqConcat(a: seq<PointRow>, b: seq<PointRow>, device: nat)
    ensures MaxPointSeq(a, device) <= MaxPointSeq(a + b, device)
  {
    if b == [] {
      assert a + b == a;
    } else {
      MaxPointSeqConcat(a, b[..|b| - 1], device);
      assert (a + b)[..|a + b| - 1] == a + b[..|b| - 1];
    }
  }

  /** The old rows and the new, as what was seen and what was not. */
  lemma Regroup(d: Desk, added: seq<PointRow>)
    requires d.seen <= |d.rows|
    ensures d.rows + added == d.rows[..d.seen] + (Unseen(d) + added)
    ensures (d.rows + added)[..d.seen] == d.rows[..d.seen]
    ensures (d.rows + added)[d.seen..] == Unseen(d) + added
    ensures (d.rows + added)[..|d.rows + added|] == d.rows + added
    ensures d.rows == d.rows[..d.seen] + Unseen(d)
  {
  }

  lemma PlayKeepsTidy(cfg: DetectConfig, lookback: int, device: nat, d: Desk, round: Round)
    requires Tidy(device, d) && Numbered(device, d, round)
    ensures Tidy(device, Play(cfg, lookback, device, d, round))
  {
    hide MaxPointSeq, UpToDate, VisitsAfter, AllNew;
    Regroup(d, NewRows(round));
    MaxPointSeqConcat(Offered(d, round), round.during, device);
    MaxPointSeqConcat(d.rows[..d.seen], Unseen(d) + NewRows(round), device);
    assert Offered(d, round) + round.during == d.rows + NewRows(round);
    UnseenIsNew(device, d, round);
    var d' := Play(cfg, lookback, device, d, round);
    if Rewriting(device, d, round) {
      assert Unseen(d') == [] && d'.rows[..d'.seen] == d'.rows;
      NoneIsNew(device, MaxPointSeq(d'.rows, device));
    } else {
      assert Unseen(d') == Unseen(d) + NewRows(round) && d'.rows[..d'.seen] == d.rows[..d.seen];
    }
  }

  lemma NoneIsNew(device: nat, above: nat)
    ensures AllNew([], device, above)
  {
  }

  /** What was not seen before the round or came with it is numbered above what was. */
  lemma UnseenIsNew(device: nat, d: Desk, round: Round)
    requires Tidy(device, d) && Numbered(device, d, round)
    ensures AllNew(Unseen(d) + NewRows(round), device, MaxPointSeq(d.rows[..d.seen], device))
  {
    hide MaxPointSeq;
    var seen := d.rows[..d.seen];
    Regroup(d, round.added);
    MaxPointSeqConcat(seen, Unseen(d), device);
    MaxPointSeqConcat(seen, Unseen(d) + round.added, device);
  }

  /** One round on exact visits: they stay exact if and only if it is harmless. */
  lemma RoundExactIff(cfg: DetectConfig, lookback: int, device: nat, d: Desk, round: Round)
    requires Tidy(device, d) && Exact(cfg, device, d)
    ensures var d' := Play(cfg, lookback, device, d, round);
      d'.seen <= |d'.rows| && (Exact(cfg, device, d') <==> Harmless(cfg, lookback, device, d, round))
  {
    hide UpToDate, AllPoints, DeviceVisits, Detected, Rebuilt, StartUndisturbed, WindowStart;
    Regroup(d, NewRows(round));
    assert Offered(d, round) + round.during == d.rows + NewRows(round);
    if Rewriting(device, d, round) {
      ProcessedIsFullIff(cfg, d.rows[..d.seen], Unseen(d) + NewRows(round), d.visits, device,
                         WindowOf(lookback, device, d, round));
    }
  }

  /* --------------------------------- runs ------------------------------------ */

  ghost predicate WellFed(cfg: DetectConfig, lookback: int, device: nat, d: Desk, rounds: seq<Round>)
    requires Tidy(device, d)
    decreases |rounds|
  {
    rounds == [] ||
    (&& Numbered(device, d, rounds[0])
     && (PlayKeepsTidy(cfg, lookback, device, d, rounds[0]);
         WellFed(cfg, lookback, device, Play(cfg, lookback, device, d, rounds[0]), rounds[1..])))
  }

  ghost predicate ExactThroughout(cfg: DetectConfig, lookback: int, device: nat, d: Desk, rounds: seq<Round>)
    requires Tidy(device, d) && WellFed(cfg, lookback, device, d, rounds)
    decreases |rounds|
  {
    && Exact(cfg, device, d)
    && (rounds != [] ==>
          (PlayKeepsTidy(cfg, lookback, device, d, rounds[0]);
           ExactThroughout(cfg, lookback, device, Play(cfg, lookback, device, d, rounds[0]), rounds[1..])))
  }

  ghost predicate HarmlessThroughout(cfg: DetectConfig, lookback: int, device: nat, d: Desk, rounds: seq<Round>)
    requires Tidy(device, d) && WellFed(cfg, lookback, device, d, rounds)
    decreases |rounds|
  {
    rounds != [] ==>
      (&& Harmless(cfg, lookback, device, d, rounds[0])
       && (PlayKeepsTidy(cfg, lookback, device, d, rounds[0]);
           HarmlessThroughout(cfg, lookback, device, Play(cfg, lookback, device, d, rounds[0]), rounds[1..])))
  }

  lemma {:induction false} ExactFromIff(cfg: DetectConfig, lookback: int, device: nat, d: Desk, rounds: seq<Round>)
    requires Tidy(device, d) && Exact(cfg, device, d) && WellFed(cfg, lookback, device, d, rounds)
    ensures ExactThroughout(cfg, lookback, device, d, rounds) <==> HarmlessThroughout(cfg, lookback, device, d, rounds)
    decreases |rounds|
  {
    hide Exact, Harmless, Play, Numbered;
    if rounds != [] {
      PlayKeepsTidy(cfg, lookback, device, d, rounds[0]);
      RoundExactIff(cfg, lookback, device, d, rounds[0]);
      var d' := Play(cfg, lookback, device, d, rounds[0]);
      if Exact(cfg, device, d') {
        ExactFromIff(cfg, lookback, device, d', rounds[1..]);
      }
    }
  }

  lemma EmptyDesk(cfg: DetectConfig, device: nat)
    ensures Tidy(device, EMPTY_DESK) && Exact(cfg, device, EMPTY_DESK)
  {
    assert EMPTY_DESK.rows[..0] == [];
    assert Unseen(EMPTY_DESK) == [];
    assert AllPoints([], device) == [];
  }

  /** The scheduler over its whole life. From empty tables, for any points coming in
      with rising numbers, at any time and however old, and any runs that finish or
      fail, the stored visits are at every moment the detection of the points they
      were made from if and only if no rewrite was disturbed before its window. */
  lemma RoundsExactIff(cfg: DetectConfig, lookback: int, device: nat, rounds: seq<Round>)
    ensures Tidy(device, EMPTY_DESK)
    ensures WellFed(cfg, lookback, device, EMPTY_DESK, rounds) ==>
      (ExactThroughout(cfg, lookback, device, EMPTY_DESK, rounds)
       <==> HarmlessThroughout(cfg, lookback, device, EMPTY_DESK, rounds))
  {
    EmptyDesk(cfg, device);
    if WellFed(cfg, lookback, device, EMPTY_DESK, rounds) {
      ExactFromIff(cfg, lookback, device, EMPTY_DESK, rounds);
    }
  }

  /** And after a run that finished, they were made from every point there is. */
  lemma FinishedHasSeenAll(cfg: DetectConfig, lookback: int, device: nat, d: Desk, round: Round)
    requires device > 0 && Tidy(device, d) && Numbered(device, d, round)
    requires round.attempt.Finished? && (round.during == [] || Rewriting(device, d, round))
    ensures var d' := Play(cfg, lookback, device, d, round);
      d'.seen <= |d'.rows| && AllPoints(d'.rows[..d'.seen], device) == AllPoints(d'.rows, device)
  {
    var d' := Play(cfg, lookback, device, d, round);
    PlayKeepsTidy(cfg, lookback, device, d, round);
    if Rewriting(device, d, round) {
      assert d'.rows[..d'.seen] == d'.rows;
    } else {
      assert Offered(d, round) == d'.rows;
      MaxPointSeqBounds(d'.rows, device);
      forall r | r in Unseen(d') ensures r.device != device {
        assert r in d'.rows;
      }
      assert d'.rows == d'.rows[..d'.seen] + Unseen(d');
      OthersDoNotShow(d'.rows[..d'.seen], Unseen(d'), device);
    }
  }

  /** The tables hold what a full rebuild would. */
  ghost predicate Current(cfg: DetectConfig, device: nat, d: Desk) {
    DeviceVisits(d.visits, device) == Detected(cfg, AllPoints(d.rows, device))
  }

  /** The round's run finished, and nothing was committed behind the back of one that
      found nothing to do. */
  ghost predicate Completes(device: nat, d: Desk, round: Round) {
    round.attempt.Finished? && (round.during == [] || Rewriting(device, d, round))
  }

  /** One run, from any desk: a rewrite leaves what a full rebuild would if and only if
      its window is right, whatever went wrong before. */
  lemma RunCurrentIff(cfg: DetectConfig, lookback: int, device: nat, d: Desk, round: Round)
    requires Rewriting(device, d, round)
    ensures var from := WindowOf(lookback, device, d, round);
      Current(cfg, device, Play(cfg, lookback, device, d, round))
      <==> from.None? || WindowIsRight(cfg, d.rows + NewRows(round), d.visits, device, from.value)
  {
    var rows := d.rows + NewRows(round);
    assert Offered(d, round) + round.during == rows;
    match WindowOf(lookback, device, d, round)
    case None => FullRebuild(cfg, rows, d.visits, device);
    case Some(from) => RewriteExactIff(cfg, rows, d.visits, device, from);
  }

  lemma {:induction false} CurrentFrom(cfg: DetectConfig, lookback: int, device: nat, d: Desk,
                                       rounds: seq<Round>, last: Round)
    requires device > 0 && Tidy(device, d) && Exact(cfg, device, d) && WellFed(cfg, lookback, device, d, rounds + [last])
    requires HarmlessThroughout(cfg, lookback, device, d, rounds + [last])
    requires Completes(device, PlayAll(cfg, lookback, device, d, rounds), last)
    ensures Current(cfg, device, PlayAll(cfg, lookback, device, d, rounds + [last]))
    decreases |rounds|
  {
    var all := rounds + [last];
    PlayKeepsTidy(cfg, lookback, device, d, all[0]);
    RoundExactIff(cfg, lookback, device, d, all[0]);
    var d' := Play(cfg, lookback, device, d, all[0]);
    if rounds == [] {
      FinishedHasSeenAll(cfg, lookback, device, d, last);
      assert PlayAll(cfg, lookback, device, d', all[1..]) == d';
    } else {
      assert all[1..] == rounds[1..] + [last];
      CurrentFrom(cfg, lookback, device, d', rounds[1..], last);
    }
  }

  /** So a scheduler whose rewrites were never disturbed leaves, after any run that
      completes, exactly what a full rebuild over all points would. */
  lemma ScheduledIsFull(cfg: DetectConfig, lookback: int, device: nat, rounds: seq<Round>, last: Round)
    requires device > 0 && Tidy(device, EMPTY_DESK)
    requires WellFed(cfg, lookback, device, EMPTY_DESK, rounds + [last])
    requires HarmlessThroughout(cfg, lookback, device, EMPTY_DESK, rounds + [last])
    requires Completes(device, PlayAll(cfg, lookback, device, EMPTY_DESK, rounds), last)
    ensures Current(cfg, device, PlayAll(cfg, lookback, device, EMPTY_DESK, rounds + [last]))
  {
    EmptyDesk(cfg, device);
    CurrentFrom(cfg, lookback, device, EMPTY_DESK, rounds, last);
  }

  /* ------------------------- what is never looked at ------------------------ */

  /** Every rewrite of these rounds has a window, and it opens at `t` or later. */
  ghost predicate OpensFrom(cfg: DetectConfig, lookback: int, device: nat, d: Desk, rounds: seq<Round>, t: int)
    decreases |rounds|
  {
    rounds != [] ==>
      && (Rewriting(device, d, rounds[0]) ==>
            WindowOf(lookback, device, d, rounds[0]).Some? && WindowOf(lookback, device, d, rounds[0]).value >= t)
      && OpensFrom(cfg, lookback, device, Play(cfg, lookback, device, d, rounds[0]), rounds[1..], t)
  }

  lemma {:induction false} StartingBeforeConcat(a: seq<Visit>, b: seq<Visit>, t: int)
    ensures StartingBefore(a + b, t) == StartingBefore(a, t) + StartingBefore(b, t)
  {
    if b == [] {
      assert a + b == a;
    } else {
      StartingBeforeConcat(a, b[..|b| - 1], t);
      assert (a + b)[..|a + b| - 1] == a + b[..|b| - 1];
    }
  }

  lemma {:induction false} StartingBeforeTwice(vs: seq<Visit>, t: int, from: int)
    requires t <= from
    ensures StartingBefore(StartingBefore(vs, from), t) == StartingBefore(vs, t)
  {
    if vs != [] {
      var init, v := vs[..|vs| - 1], vs[|vs| - 1];
      StartingBeforeTwice(init, t, from);
      var kept := StartingBefore(init, from);
      assert (kept + [v])[..|kept|] == kept;
    }
  }

  lemma RewriteKeepsEarlier(cfg: DetectConfig, rows: seq<PointRow>, visits: seq<VisitRow>, device: nat, from: int, t: int)
    requires t <= from
    ensures StartingBefore(DeviceVisits(Rebuilt(cfg, rows, visits, device, Some(from), None), device), t)
         == StartingBefore(DeviceVisits(visits, device), t)
  {
    var stored, q := DeviceVisits(visits, device), Points(rows, device, Some(from), None);
    WindowedRebuild(cfg, rows, visits, device, from);
    StartingBeforeConcat(StartingBefore(stored, from), Detected(cfg, q), t);
    StartingBeforeTwice(stored, t, from);
    PointsFacts(rows, device, Some(from), None);
    StartsInside(cfg, q);
    StartingBeforeCut([], Detected(cfg, q), t);
    assert [] + Detected(cfg, q) == Detected(cfg, q);
  }

  /** As long as windows open at `t` or later, the stored visits from before `t` stay
      exactly as they are, so they are right in the end only if they were already. */
  lemma {:induction false} FrozenBefore(cfg: DetectConfig, lookback: int, device: nat, d: Desk, rounds: seq<Round>, t: int)
    requires OpensFrom(cfg, lookback, device, d, rounds, t)
    ensures var d' := PlayAll(cfg, lookback, device, d, rounds);
      && StartingBefore(DeviceVisits(d'.visits, device), t) == StartingBefore(DeviceVisits(d.visits, device), t)
      && (Current(cfg, device, d') ==>
            StartingBefore(DeviceVisits(d.visits, device), t)
              == StartingBefore(Detected(cfg, AllPoints(d'.rows, device)), t))
    decreases |rounds|
  {
    if rounds != [] {
      var d1 := Play(cfg, lookback, device, d, rounds[0]);
      hide Rebuilt, DeviceVisits, StartingBefore, Detected, AllPoints;
      if Rewriting(device, d, rounds[0]) {
        RewriteKeepsEarlier(cfg, Offered(d, rounds[0]) + rounds[0].during, d.visits, device,
                            WindowOf(lookback, device, d, rounds[0]).value, t);
      }
      FrozenBefore(cfg, lookback, device, d1, rounds[1..], t);
    }
  }

  lemma {:induction false} OthersDoNotShow(a: seq<PointRow>, b: seq<PointRow>, device: nat)
    requires forall r :: r in b ==> r.device != device
    ensures Select(a + b, device, None, None) == Select(a, device, None, None)
  {
    if b == [] {
      assert a + b == a;
    } else {
      assert b[|b| - 1] in b;
      OthersDoNotShow(a, b[..|b| - 1], device);
      assert (a + b)[..|a + b| - 1] == a + b[..|b| - 1];
    }
  }
}
