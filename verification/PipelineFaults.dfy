/** Appends that fail, as a second layer of events over the pipeline's steps. An
    append call that returns an error has not counted its last record, whatever
    reached the disk. Three things can be left: nothing of it, a whole line or part
    of one. The first is harmless; this module proves what the other two break. */
module PipelineFaults {
  import opened Ingest
  import opened Buffer
  import opened Spool
  import opened Pipeline
  import opened PipelineSafety
  import opened PipelineExact
  import opened PipelineProgress
  import opened PipelineTorn
  import opened PipelineLimits
  import Store

  /** A pipeline state and the segments with part of a line in them. Such a file
      cannot be decoded, whatever is appended to it later. */
  datatype World = World(s: State, damaged: set<nat>)

  datatype Event = Plain(step: Step) | AppendFail(points: seq<Point>, mishap: Mishap)

  const START := World(INIT, {})

  /** Compaction ends in an error at a damaged segment it has to read. */
  ghost predicate StopsAtDamage(w: World, bound: nat) {
    forall k :: k in w.damaged && k < bound ==>
      k > LastGood(w.s.spool.checkpoint) || (w.s.spool.active.Open? && w.s.spool.active.start == k)
  }

  ghost predicate CanHappen(cfg: Config, w: World, e: Event) {
    match e
    case Plain(step) =>
      && Enabled(cfg, w.s, step)
      && (step.Restart? ==> w.damaged == {})
      && (step.Compact? ==> StopsAtDamage(w, step.bound))
    case AppendFail(points, m) =>
      w.s.up && w.s.recovering == [] && Possible(cfg, AppendAll(cfg, w.s.spool, points), m)
  }

  /** The state after a failed append: its request is answered with an error, so
      nothing is left to enqueue. */
  ghost function FailApply(cfg: Config, s: State, points: seq<Point>, m: Mishap): State {
    s.(spool := AfterMishap(cfg, AppendAll(cfg, s.spool, points), m),
       issued := s.issued + Members(NewRecords(cfg, s.spool.nextSeq, LeftBehind(points, m))))
  }

  ghost function Happen(cfg: Config, w: World, e: Event): World
    requires CanHappen(cfg, w, e)
  {
    match e
    case Plain(step) => w.(s := Apply(cfg, w.s, step))
    case AppendFail(points, m) =>
      World(FailApply(cfg, w.s, points, m), w.damaged + Damage(cfg, AppendAll(cfg, w.s.spool, points), m))
  }

  ghost function Play(cfg: Config, w: World, events: seq<Event>): Option<World>
    decreases |events|
  {
    if events == [] then Some(w)
    else if CanHappen(cfg, w, events[0]) then Play(cfg, Happen(cfg, w, events[0]), events[1..])
    else None
  }

  /* ------------------------------- crash safety ----------------------------- */

  /** A failed append keeps the invariant, and the counter stays above the disk if
      and only if no whole line was left uncounted. */
  lemma FailedAppendKeeps(cfg: Config, s: State, points: seq<Point>, m: Mishap)
    requires Inv(cfg, s) && SeqFresh(s.spool) && s.up && s.recovering == []
    requires Possible(cfg, AppendAll(cfg, s.spool, points), m)
    ensures Inv(cfg, FailApply(cfg, s, points, m))
    ensures SeqFresh(FailApply(cfg, s, points, m).spool) <==> !m.Landed?
  {
    var s' := FailApply(cfg, s, points, m);
    var whole := Apply(cfg, s, Append(LeftBehind(points, m)));
    AppendKeeps(cfg, s, LeftBehind(points, m));
    FailedAppendDisk(cfg, s.spool, points, m);
    FailedAppendOrdered(cfg, s.spool, points, m);
    AppendAllOnDisk(cfg, s.spool, LeftBehind(points, m));
    hide AppendAll, AfterMishap, SeqFresh;
    UnansweredKeeps(cfg, s, whole, s');
  }

  /** `s'` is `whole` without the request that `whole` has to enqueue yet. */
  lemma UnansweredKeeps(cfg: Config, s: State, whole: State, s': State)
    requires Inv(cfg, s) && Inv(cfg, whole)
    requires s' == s.(spool := s'.spool, issued := whole.issued)
    requires whole == s.(spool := whole.spool, issued := whole.issued, pending := whole.pending)
    requires s'.spool.dir == whole.spool.dir && s'.spool.checkpoint == whole.spool.checkpoint == s.spool.checkpoint
    requires s.up && SpoolOk(s'.spool)
    requires forall r :: OnDisk(s.spool.dir, r) ==> OnDisk(s'.spool.dir, r)
    ensures Inv(cfg, s')
  {
    TablesUnchanged(s, s');
    IssuedUnchanged(whole, s');
    SafeMonotone(cfg, s, s');
  }

  ghost predicate OrderlyEvent(w: World, e: Event) {
    match e
    case Plain(step) => Orderly(w.s, step)
    case AppendFail(_, _) => SeqFresh(w.s.spool)
  }

  ghost predicate OrderlyPlay(cfg: Config, w: World, events: seq<Event>)
    decreases |events|
  {
    events == [] ||
    (CanHappen(cfg, w, events[0]) && OrderlyEvent(w, events[0]) && OrderlyPlay(cfg, Happen(cfg, w, events[0]), events[1..]))
  }

  lemma EventKeeps(cfg: Config, w: World, e: Event)
    requires Inv(cfg, w.s) && CanHappen(cfg, w, e) && OrderlyEvent(w, e)
    ensures Inv(cfg, Happen(cfg, w, e).s)
  {
    match e
    case Plain(step) => StepKeeps(cfg, w.s, step);
    case AppendFail(points, m) => FailedAppendKeeps(cfg, w.s, points, m);
  }

  lemma {:induction false} PlayKeeps(cfg: Config, w: World, events: seq<Event>)
    requires Inv(cfg, w.s) && OrderlyPlay(cfg, w, events)
    ensures Play(cfg, w, events).Some? && Inv(cfg, Play(cfg, w, events).value.s)
    decreases |events|
  {
    if events != [] {
      EventKeeps(cfg, w, events[0]);
      PlayKeeps(cfg, Happen(cfg, w, events[0]), events[1..]);
    }
  }

  /** What the next start reads, if it can read everything. */
  ghost function NextStart(w: World): Option<seq<Record>> {
    if w.damaged != {} then None else NextReplay(w.s.spool)
  }

  /** Crash safety with failing appends: as long as numbers are fresh, an acknowledged
      record above the checkpoint is on disk, and in the next replay if every file can
      be read; one at or below it is in the database or suppressed by one that is. */
  lemma FaultyCrashSafety(cfg: Config, events: seq<Event>)
    requires OrderlyPlay(cfg, START, events)
    ensures Play(cfg, START, events).Some?
    ensures var w := Play(cfg, START, events).value; var c := LastGood(w.s.spool.checkpoint);
      && (forall r :: r in w.s.acked && r.seqNo > c ==> OnDisk(w.s.spool.dir, r))
      && (match NextStart(w)
          case Some(rs) => forall r :: r in w.s.acked && r.seqNo > c ==> r in rs
          case None => w.s.spool.checkpoint.Torn? || w.damaged != {})
      && (forall r :: r in w.s.acked && r.seqNo <= c ==> Covered(cfg, w.s, r))
      && Store.Consistent(w.s.tables)
  {
    InitInv(cfg);
    PlayKeeps(cfg, START, events);
    var s := Play(cfg, START, events).value.s;
    ReplayMembers(s.spool.dir, LastGood(s.spool.checkpoint));
  }

  /* ------------------------------- one life ------------------------------- */

  predicate Appends(e: Event) {
    e.AppendFail? || e.step.Append?
  }

  predicate Restarts(e: Event) {
    e.Plain? && e.step.Restart?
  }

  /** One process life and any recoveries after it, with no sync failing under a line
      that has been written. */
  ghost predicate CountedLife(events: seq<Event>) {
    && (forall k :: 0 <= k < |events| && events[k].Plain? && events[k].step.Enqueue? ==> events[k].step.i == 0)
    && (forall k :: 0 <= k < |events| && events[k].AppendFail? ==> !events[k].mishap.Landed?)
    && (forall i, j :: 0 <= i < j < |events| && Restarts(events[i]) ==> !Appends(events[j]))
  }

  lemma {:induction false} CountedLifeIsOrderly(cfg: Config, w: World, events: seq<Event>)
    requires Inv(cfg, w.s) && Play(cfg, w, events).Some? && CountedLife(events)
    requires SeqFresh(w.s.spool) || forall k :: 0 <= k < |events| ==> !Appends(events[k])
    ensures OrderlyPlay(cfg, w, events)
    decreases |events|
  {
    if events != [] {
      var e, rest := events[0], events[1..];
      assert forall k :: 0 <= k < |rest| ==> rest[k] == events[k + 1];
      EventKeeps(cfg, w, e);
      if SeqFresh(w.s.spool) && !Restarts(e) {
        match e
        case Plain(step) => FreshStep(cfg, w.s, step);
        case AppendFail(points, m) => FailedAppendKeeps(cfg, w.s, points, m);
      }
      CountedLifeIsOrderly(cfg, Happen(cfg, w, e), rest);
    }
  }

  /** One life from an empty spool, with any failures but those syncs, and any
      recoveries after it: crash safe without an assumption on numbers. */
  lemma CountedLifeCrashSafety(cfg: Config, events: seq<Event>)
    requires Play(cfg, START, events).Some? && CountedLife(events)
    ensures OrderlyPlay(cfg, START, events) && Safe(cfg, Play(cfg, START, events).value.s)
  {
    InitInv(cfg);
    CountedLifeIsOrderly(cfg, START, events);
    PlayKeeps(cfg, START, events);
  }

  /* ------------------------- the law for every run -------------------------- */

  lemma FailKeepsCore(cfg: Config, s: State, points: seq<Point>, m: Mishap)
    requires Core(cfg, s) && Secure(cfg, s) && s.up && s.recovering == []
    ensures Core(cfg, FailApply(cfg, s, points, m)) && Secure(cfg, FailApply(cfg, s, points, m))
  {
    var s' := FailApply(cfg, s, points, m);
    FailedAppendDisk(cfg, s.spool, points, m);
    AppendAllOnDisk(cfg, s.spool, LeftBehind(points, m));
    hide AppendAll, AfterMishap, Deduped;
    forall r | Represented(cfg, s, r) ensures Represented(cfg, s', r) { RepresentedMonotone(cfg, s, s', r); }
    hide Represented;
    assert InRam(s') == InRam(s);
    assert s'.accepted == s.accepted && s'.buffer == s.buffer;
    assert Deduped(cfg, s') by { SameDedupe(cfg, s, s'); }
  }

  lemma SameDedupe(cfg: Config, s: State, s': State)
    requires Deduped(cfg, s) && s'.accepted == s.accepted && s'.buffer == s.buffer
    ensures Deduped(cfg, s')
  {
  }

  ghost predicate SecurePlay(cfg: Config, w: World, events: seq<Event>)
    decreases |events|
  {
    && Secure(cfg, w.s)
    && (events != [] ==> CanHappen(cfg, w, events[0]) && SecurePlay(cfg, Happen(cfg, w, events[0]), events[1..]))
  }

  ghost predicate GuardedPlay(cfg: Config, w: World, events: seq<Event>)
    decreases |events|
  {
    events == [] ||
    (&& CanHappen(cfg, w, events[0])
     && (events[0].Plain? ==> Guard(cfg, w.s, events[0].step))
     && GuardedPlay(cfg, Happen(cfg, w, events[0]), events[1..]))
  }

  lemma EventSecureIff(cfg: Config, w: World, e: Event)
    requires Core(cfg, w.s) && Secure(cfg, w.s) && CanHappen(cfg, w, e)
    ensures Core(cfg, Happen(cfg, w, e).s)
    ensures Secure(cfg, Happen(cfg, w, e).s) <==> (e.Plain? ==> Guard(cfg, w.s, e.step))
  {
    hide Core, Secure, Guard;
    match e
    case Plain(step) =>
      StepSecureIff(cfg, w.s, step);
      StepKeepsCore(cfg, w.s, step);
    case AppendFail(points, m) => FailKeepsCore(cfg, w.s, points, m);
  }

  lemma {:induction false} SecurePlayIff(cfg: Config, w: World, events: seq<Event>)
    requires Core(cfg, w.s) && Secure(cfg, w.s) && Play(cfg, w, events).Some?
    ensures SecurePlay(cfg, w, events) <==> GuardedPlay(cfg, w, events)
    decreases |events|
  {
    hide Core, Secure, Guard, Happen, CanHappen;
    if events != [] {
      EventSecureIff(cfg, w, events[0]);
      var w' := Happen(cfg, w, events[0]);
      if Secure(cfg, w'.s) {
        SecurePlayIff(cfg, w', events[1..]);
      } else {
        assert !SecurePlay(cfg, w', events[1..]);
      }
    }
  }

  /** The law of acknowledgements with failing appends: they add no third moment. A
      run keeps every acknowledged record on disk or represented at every moment if and
      only if the acknowledgements and checkpoints in it meet their guards. */
  lemma FaultyAckLawIff(cfg: Config, events: seq<Event>)
    requires Play(cfg, START, events).Some?
    ensures SecurePlay(cfg, START, events) <==> GuardedPlay(cfg, START, events)
  {
    InitCore(cfg);
    SecurePlayIff(cfg, START, events);
  }

  /* ------------------------------- cut lines ------------------------------ */

  /** Nothing the program does repairs a damaged segment or removes it. */
  lemma {:induction false} DamageIsForever(cfg: Config, w: World, events: seq<Event>)
    requires Play(cfg, w, events).Some?
    ensures w.damaged <= Play(cfg, w, events).value.damaged
    ensures forall k :: k in w.damaged && k in w.s.spool.dir ==> k in Play(cfg, w, events).value.s.spool.dir
    decreases |events|
  {
    if events != [] {
      DamageStays(cfg, w, events[0]);
      hide CanHappen, Happen;
      DamageIsForever(cfg, Happen(cfg, w, events[0]), events[1..]);
    }
  }

  lemma DamageStays(cfg: Config, w: World, e: Event)
    requires CanHappen(cfg, w, e)
    ensures w.damaged <= Happen(cfg, w, e).damaged
    ensures forall k :: k in w.damaged && k in w.s.spool.dir ==> k in Happen(cfg, w, e).s.spool.dir
  {
    match e
    case Plain(step) =>
      if step.Append? { StartsStay(cfg, w.s.spool, step.points); }
    case AppendFail(points, m) =>
      StartsStay(cfg, w.s.spool, points);
  }

  lemma {:induction false} StartsStay(cfg: Config, sp: SpoolState, points: seq<Point>)
    ensures forall k :: k in sp.dir ==> k in AppendAll(cfg, sp, points).dir
  {
    if points != [] { StartsStay(cfg, sp, points[..|points| - 1]); }
  }

  /** These events end with everything acknowledged so far durable. */
  ghost predicate Recovers(cfg: Config, w: World, events: seq<Event>) {
    Play(cfg, w, events).Some? && forall r :: r in w.s.acked ==> Covered(cfg, Play(cfg, w, events).value.s, r)
  }

  ghost predicate Readable(w: World) {
    !w.s.spool.checkpoint.Torn? && w.damaged == {}
  }

  lemma UnreadableIsStuck(cfg: Config, w: World, events: seq<Event>)
    requires PhaseOk(w.s) && FlightOk(w.s) && !w.s.up && !Readable(w) && Play(cfg, w, events).Some?
    ensures events == []
  {
    assert w.s.flight.Idle? by { assert BatchOf(w.s.flight) == []; }
  }

  function Plains(steps: seq<Step>): seq<Event> {
    seq(|steps|, i requires 0 <= i < |steps| => Plain(steps[i]))
  }

  lemma {:induction false} PlayPlains(cfg: Config, s: State, steps: seq<Step>)
    requires Exec(cfg, s, steps).Some?
    ensures Play(cfg, World(s, {}), Plains(steps)) == Some(World(Exec(cfg, s, steps).value, {}))
    decreases |steps|
  {
    if steps != [] {
      var events := Plains(steps);
      assert events[0] == Plain(steps[0]) && events[1..] == Plains(steps[1..]);
      assert CanHappen(cfg, World(s, {}), Plain(steps[0]));
      PlayPlains(cfg, Apply(cfg, s, steps[0]), steps[1..]);
    }
  }

  /** After a crash, with room in the buffer for a record, acknowledged records can be
      made durable if and only if the checkpoint file and every segment can be read
      (or nothing is left to bring back). */
  lemma RecoversIff(cfg: Config, w: World)
    requires Inv(cfg, w.s) && !w.s.up && cfg.batchSize > 0
    requires forall r :: OnDisk(w.s.spool.dir, r) && r.seqNo > LastGood(w.s.spool.checkpoint) ==> Fits(cfg, r)
    ensures (exists events :: Recovers(cfg, w, events)) <==> Readable(w) || AllDurable(cfg, w.s)
  {
    if Readable(w) {
      var steps := RestartBringsBack(cfg, w.s, 1);
      PlayPlains(cfg, w.s, steps);
      assert Recovers(cfg, w, Plains(steps));
    } else {
      forall events | Recovers(cfg, w, events) ensures AllDurable(cfg, w.s) {
        UnreadableIsStuck(cfg, w, events);
      }
      if AllDurable(cfg, w.s) { assert Recovers(cfg, w, []); }
    }
  }

  lemma {:induction false} PlayConcat(cfg: Config, w: World, a: seq<Event>, b: seq<Event>)
    requires Play(cfg, w, a).Some?
    ensures Play(cfg, w, a + b) == Play(cfg, Play(cfg, w, a).value, b)
    decreases |a|
  {
    hide CanHappen, Happen;
    if a == [] {
      assert a + b == b;
    } else {
      assert (a + b)[1..] == a[1..] + b;
      PlayConcat(cfg, Happen(cfg, w, a[0]), a[1..], b);
    }
  }

  lemma PlayOne(cfg: Config, w: World, e: Event)
    requires CanHappen(cfg, w, e)
    ensures Play(cfg, w, [e]) == Some(Happen(cfg, w, e))
  {
    assert [e][1..] == [];
    assert Play(cfg, Happen(cfg, w, e), []) == Some(Happen(cfg, w, e));
  }

  /** One point is acknowledged, the line of the next one is cut, and the process dies. */
  function CuttingRun(p: Point, q: Point): seq<Event> {
    Plains([Append([p]), Enqueue(0)]) + [AppendFail([], Cut(q))] + [Plain(Crash)]
  }

  lemma CuttingEnds(cfg: Config, p: Point, q: Point) returns (w: World)
    requires Fits(cfg, RecordFor(cfg, 1, p))
    ensures Play(cfg, START, CuttingRun(p, q)) == Some(w)
    ensures !w.s.up && w.damaged != {} && w.s.acked == {RecordFor(cfg, 1, p)}
    ensures w.s.tables == Store.NO_ROWS && w.s.written == {}
  {
    hide Exec, Play, Fits;
    var a, b, c := Plains([Append([p]), Enqueue(0)]), AppendFail([], Cut(q)), Plain(Crash);
    var s := IngestOne(cfg, INIT, p);
    PlayPlains(cfg, INIT, [Append([p]), Enqueue(0)]);
    var w1 := Happen(cfg, World(s, {}), b);
    PlayOne(cfg, World(s, {}), b);
    PlayConcat(cfg, START, a, [b]);
    PlayOne(cfg, w1, c);
    PlayConcat(cfg, START, a + [b], [c]);
    w := Happen(cfg, w1, c);
  }

  /** A cut line costs acknowledged records: a run of one life, with no number reused,
      after which no continuation brings the acknowledged point back. */
  lemma CutLosesAcked(cfg: Config, p: Point, q: Point)
    requires Fits(cfg, RecordFor(cfg, 1, p))
    ensures OrderlyPlay(cfg, START, CuttingRun(p, q)) && Play(cfg, START, CuttingRun(p, q)).Some?
    ensures var w, r := Play(cfg, START, CuttingRun(p, q)).value, RecordFor(cfg, 1, p);
      && r in w.s.acked && OnDisk(w.s.spool.dir, r) && !Covered(cfg, w.s, r)
      && forall events :: !Recovers(cfg, w, events)
  {
    hide Play, Fits;
    var r := RecordFor(cfg, 1, p);
    var w := CuttingEnds(cfg, p, q);
    var run := CuttingRun(p, q);
    assert run == [Plain(Append([p])), Plain(Enqueue(0)), AppendFail([], Cut(q)), Plain(Crash)];
    CountedLifeCrashSafety(cfg, run);
    InitInv(cfg);
    PlayKeeps(cfg, START, run);
    assert !Covered(cfg, w.s, r);
    forall events ensures !Recovers(cfg, w, events) {
      if Recovers(cfg, w, events) {
        UnreadableIsStuck(cfg, w, events);
        StayHere(cfg, w);
      }
    }
  }

  lemma StayHere(cfg: Config, w: World)
    ensures Play(cfg, w, []) == Some(w)
  {
  }

  /* ------------------------------ landed lines ---------------------------- */

  /** `s` with one more acknowledged record at the end of what is being recovered, the
      disk being `dir`. Flushing and reloading do not notice. */
  ghost function WithLast(s: State, b: Record, dir: Directory): State {
    s.(spool := s.spool.(dir := dir), recovering := s.recovering + [b],
       issued := s.issued + {b}, acked := s.acked + {b})
  }

  lemma LastIsUnnoticed(cfg: Config, s: State, b: Record, dir: Directory, step: Step)
    requires Enabled(cfg, s, step) && (Flushes(step) || step.Reload?)
    ensures Enabled(cfg, WithLast(s, b, dir), step)
    ensures Apply(cfg, WithLast(s, b, dir), step) == WithLast(Apply(cfg, s, step), b, dir)
  {
    if step.Reload? {
      assert (s.recovering + [b])[..step.n] == s.recovering[..step.n];
      assert (s.recovering + [b])[step.n..] == s.recovering[step.n..] + [b];
    }
  }

  lemma {:induction false} RecoveryUnnoticed(cfg: Config, s: State, b: Record, dir: Directory, steps: seq<Step>)
    requires RecoverySteps(steps) && Exec(cfg, s, steps).Some?
    ensures Exec(cfg, WithLast(s, b, dir), steps) == Some(WithLast(Exec(cfg, s, steps).value, b, dir))
    decreases |steps|
  {
    if steps != [] {
      LastIsUnnoticed(cfg, s, b, dir, steps[0]);
      assert RecoverySteps(steps[1..]);
      hide Enabled, Apply, WithLast;
      RecoveryUnnoticed(cfg, Apply(cfg, s, steps[0]), b, dir, steps[1..]);
    }
  }

  /** A point that shares neither hash nor place with anything ever appended. */
  ghost predicate Novel(cfg: Config, s: State, q: Point) {
    var b := RecordFor(cfg, s.spool.nextSeq, q);
    forall r :: r in s.issued ==> r.point.hash != b.point.hash && !Resembles(cfg, r, b)
  }

  lemma NovelIsUnrepresented(cfg: Config, s: State, b: Record)
    requires TablesOk(s) && s.written <= s.issued
    requires forall r :: r in s.issued ==> r.point.hash != b.point.hash && !Resembles(cfg, r, b)
    ensures !Represented(cfg, s, b)
  {
    forall i | 0 <= i < |s.tables.raw| ensures s.tables.raw[i].hash != b.point.hash {
      assert RowFromWritten(s, s.tables.raw[i]);
    }
  }

  /** A running process with nothing in RAM, and a record on disk that already has the
      number the next one will get. */
  ghost predicate Doubling(cfg: Config, s: State, a: Record) {
    && Inv(cfg, s) && s.up && s.recovering == [] && s.pending == [] && InRam(s) == []
    && !s.spool.checkpoint.Torn? && cfg.batchSize > 0
    && (forall k :: k in s.spool.dir ==> k <= s.spool.nextSeq)
    && OnDisk(s.spool.dir, a) && a.seqNo == s.spool.nextSeq > LastGood(s.spool.checkpoint)
  }

  ghost predicate DiskFits(cfg: Config, s: State) {
    forall r :: OnDisk(s.spool.dir, r) && r.seqNo > LastGood(s.spool.checkpoint) ==> Fits(cfg, r)
  }

  const DIE_AND_RISE := [Crash, Restart(1)]

  lemma DieAndRise(cfg: Config, s: State) returns (s': State)
    requires s.up && !s.spool.checkpoint.Torn?
    ensures Exec(cfg, s, DIE_AND_RISE) == Some(s')
    ensures s' == s.(buffer := EMPTY, flight := Idle, pending := [], accepted := [], flushed := [],
                     spool := s.spool.(active := Closed, nextSeq := 1),
                     recovering := Replay(s.spool.dir, LastGood(s.spool.checkpoint)))
    ensures Inv(cfg, s) ==> Inv(cfg, s')
  {
    var t := Apply(cfg, s, Crash);
    s' := Apply(cfg, t, Restart(1));
    Exec2(cfg, s, Crash, Restart(1));
    if Inv(cfg, s) {
      CrashKeeps(cfg, s);
      RestartKeeps(cfg, t, 1);
    }
  }

  /** Ingesting, dying and starting again leads where dying and starting again does,
      with the new record last. */
  lemma IngestThenRise(cfg: Config, s: State, a: Record, q: Point) returns (v: State, dir: Directory)
    requires Doubling(cfg, s, a) && Fits(cfg, RecordFor(cfg, s.spool.nextSeq, q))
    ensures Exec(cfg, s, DIE_AND_RISE) == Some(v) && Inv(cfg, v)
    ensures v.up && v.issued == s.issued && v.spool.checkpoint == s.spool.checkpoint
    ensures v.recovering == Replay(s.spool.dir, LastGood(s.spool.checkpoint))
    ensures Exec(cfg, s, [Append([q]), Enqueue(0)] + DIE_AND_RISE)
         == Some(WithLast(v, RecordFor(cfg, s.spool.nextSeq, q), dir))
  {
    var b, c := RecordFor(cfg, s.spool.nextSeq, q), LastGood(s.spool.checkpoint);
    assert s.buffer.queue == [];
    SingleIsAccepted(cfg, s.buffer, b);
    var x := IngestAccepted(cfg, s, q);
    dir := x.spool.dir;
    AppendOneReplay(cfg, s.spool, q, c);
    AfterAll([b], c);
    hide Exec, Inv, Replay, After, AppendOne, RecordFor, OnDisk, Fits;
    ExecConcat(cfg, s, [Append([q]), Enqueue(0)], DIE_AND_RISE);
    v := DieAndRise(cfg, s);
    var y := DieAndRise(cfg, x);
  }

  /** From there the recovery of the older record moves the checkpoint past the newer. */
  lemma DoubledNumberIsLost(cfg: Config, s: State, a: Record, q: Point) returns (steps: seq<Step>)
    requires Doubling(cfg, s, a) && DiskFits(cfg, s)
    requires Novel(cfg, s, q) && Fits(cfg, RecordFor(cfg, s.spool.nextSeq, q))
    ensures RecoverySteps(steps)
    ensures Exec(cfg, s, [Append([q]), Enqueue(0)] + DIE_AND_RISE + steps).Some?
    ensures !Secure(cfg, Exec(cfg, s, [Append([q]), Enqueue(0)] + DIE_AND_RISE + steps).value)
  {
    var b := RecordFor(cfg, s.spool.nextSeq, q);
    var v, dir := IngestThenRise(cfg, s, a, q);
    ReplayMembers(s.spool.dir, LastGood(s.spool.checkpoint));
    var v';
    steps, v' := ReloadAll(cfg, v);
    RecoveryUnnoticed(cfg, v, b, dir, steps);
    NovelIsUnrepresented(cfg, v', b);
    hide Exec;
    ExecConcat(cfg, s, [Append([q]), Enqueue(0)] + DIE_AND_RISE, steps);
    var y := WithLast(v', b, dir);
    if Represented(cfg, y, b) { RepresentedMonotone(cfg, y, v', b); }
    assert b in y.acked;
  }

  /** The next number is on disk already, as a landed line leaves it. */
  ghost predicate Repeating(cfg: Config, s: State, a: Record, q: Point) {
    && Inv(cfg, s) && s.up && s.recovering == [] && s.pending == [] && !s.spool.checkpoint.Torn?
    && cfg.batchSize > 0 && (forall k :: k in s.spool.dir ==> k <= s.spool.nextSeq)
    && OnDisk(s.spool.dir, a) && a.seqNo == s.spool.nextSeq
    && DiskFits(cfg, s) && Novel(cfg, s, q) && Fits(cfg, RecordFor(cfg, s.spool.nextSeq, q))
  }

  lemma RepeatingFlushed(cfg: Config, s: State, a: Record, q: Point) returns (flush: seq<Step>, u: State)
    requires Repeating(cfg, s, a, q)
    ensures AllFlush(flush) && Exec(cfg, s, flush) == Some(u)
    ensures Repeating(cfg, u, a, q) && InRam(u) == []
  {
    hide Exec, Fits, OnDisk, Novel;
    flush, u := FlushAll(cfg, s);
    hide FlushedTo, Inv;
    QuietRunKeeps(cfg, s, flush);
    FlushedFields(s, u);
    NovelStays(cfg, s, u, q);
  }

  lemma FlushedFields(s: State, u: State)
    requires FlushedTo(s, u)
    ensures u.spool == s.spool.(checkpoint := u.spool.checkpoint) && u.issued == s.issued
    ensures u.up == s.up && u.recovering == s.recovering && u.pending == s.pending
    ensures LastGood(s.spool.checkpoint) <= LastGood(u.spool.checkpoint)
  {
  }

  lemma NovelStays(cfg: Config, s: State, u: State, q: Point)
    requires Novel(cfg, s, q) && u.issued == s.issued && u.spool.nextSeq == s.spool.nextSeq
    ensures Novel(cfg, u, q)
  {
  }

  lemma BehindIsLost(cfg: Config, u: State, a: Record, q: Point)
    requires Repeating(cfg, u, a, q) && InRam(u) == [] && u.spool.nextSeq <= LastGood(u.spool.checkpoint)
    ensures Exec(cfg, u, [Append([q]), Enqueue(0)]).Some?
    ensures !Secure(cfg, Exec(cfg, u, [Append([q]), Enqueue(0)]).value)
  {
    NovelIsUnrepresented(cfg, u, RecordFor(cfg, u.spool.nextSeq, q));
    hide Exec, Inv, Secure, Fits;
    IngestBehindCheckpoint(cfg, u, q);
  }

  /** A landed line: flush what is in RAM, ingest, die and recover. */
  lemma LandedHasLoss(cfg: Config, s: State, a: Record, q: Point) returns (steps: seq<Step>)
    requires Repeating(cfg, s, a, q)
    ensures OneLife(cfg, s, steps) && !Secure(cfg, Exec(cfg, s, steps).value)
  {
    var ingest := [Append([q]), Enqueue(0)];
    hide Exec, Inv, Secure, Fits, Novel, DiskFits, OnDisk, EnqueuesInOrder, NoAppendAfterRestart, AllFlush, RecoverySteps;
    var flush, u := RepeatingFlushed(cfg, s, a, q);
    if u.spool.nextSeq <= LastGood(u.spool.checkpoint) {
      BehindIsLost(cfg, u, a, q);
      ExecConcat(cfg, s, flush, ingest);
      FlushThenIngestIsOneLife(flush, q);
      steps := flush + ingest;
    } else {
      var recovery := DoubledNumberIsLost(cfg, u, a, q);
      ExecConcat(cfg, s, flush, ingest + DIE_AND_RISE + recovery);
      IngestBeforeRise(flush, q, recovery);
      steps := flush + (ingest + DIE_AND_RISE + recovery);
    }
  }

  lemma IngestBeforeRise(flush: seq<Step>, q: Point, recovery: seq<Step>)
    requires AllFlush(flush) && RecoverySteps(recovery)
    ensures var steps := flush + ([Append([q]), Enqueue(0)] + DIE_AND_RISE + recovery);
      EnqueuesInOrder(steps) && NoAppendAfterRestart(steps)
  {
    var f := |flush|;
    var steps := flush + ([Append([q]), Enqueue(0)] + DIE_AND_RISE + recovery);
    forall k | 0 <= k < |steps|
      ensures steps[k].Enqueue? ==> steps[k].i == 0
      ensures steps[k].Restart? ==> k == f + 3
      ensures steps[k].Append? ==> k == f
    {
      if k < f { assert steps[k] == flush[k]; }
      if k >= f + 4 { assert steps[k] == recovery[k - f - 4]; }
    }
  }

  /** All that this life may yet do short of another such sync, failures included, and
      all recoveries after it, keep every acknowledgement. */
  ghost predicate LivesOn(cfg: Config, w: World) {
    forall events :: Continues(cfg, w, events) ==> Secure(cfg, Play(cfg, w, events).value.s)
  }

  ghost predicate Continues(cfg: Config, w: World, events: seq<Event>) {
    Play(cfg, w, events).Some? && CountedLife(events)
  }

  lemma PlainsAreCounted(cfg: Config, s: State, steps: seq<Step>)
    requires OneLife(cfg, s, steps)
    ensures Continues(cfg, World(s, {}), Plains(steps))
    ensures Play(cfg, World(s, {}), Plains(steps)).value.s == Exec(cfg, s, steps).value
  {
    PlayPlains(cfg, s, steps);
  }

  lemma CountedLivesOn(cfg: Config, w: World)
    requires Inv(cfg, w.s) && SeqFresh(w.s.spool)
    ensures LivesOn(cfg, w)
  {
    forall events | Continues(cfg, w, events) ensures Secure(cfg, Play(cfg, w, events).value.s) {
      CountedLifeIsOrderly(cfg, w, events);
      PlayKeeps(cfg, w, events);
      SafeIsSecure(cfg, Play(cfg, w, events).value.s);
    }
  }

  /** After a failed append, everything the process may yet do keeps every
      acknowledgement if and only if no whole line was left behind uncounted, as long as
      the buffer has room for a record and there is any new point to ingest. */
  lemma FailedAppendIff(cfg: Config, w: World, points: seq<Point>, m: Mishap, q: Point)
    requires Inv(cfg, w.s) && SeqFresh(w.s.spool) && w.s.pending == [] && Readable(w) && cfg.batchSize > 0
    requires CanHappen(cfg, w, AppendFail(points, m))
    requires var s' := FailApply(cfg, w.s, points, m);
      DiskFits(cfg, s') && Novel(cfg, s', q) && Fits(cfg, RecordFor(cfg, s'.spool.nextSeq, q))
    ensures LivesOn(cfg, Happen(cfg, w, AppendFail(points, m))) <==> !m.Landed?
  {
    if m.Landed? {
      LandedFails(cfg, w, points, m.next, q);
    } else {
      FailedAppendKeeps(cfg, w.s, points, m);
      hide Inv, SeqFresh, LivesOn;
      CountedLivesOn(cfg, Happen(cfg, w, AppendFail(points, m)));
    }
  }

  lemma LandedFails(cfg: Config, w: World, points: seq<Point>, p: Point, q: Point)
    requires Inv(cfg, w.s) && SeqFresh(w.s.spool) && w.s.pending == [] && Readable(w) && cfg.batchSize > 0
    requires CanHappen(cfg, w, AppendFail(points, Landed(p)))
    requires var s' := FailApply(cfg, w.s, points, Landed(p));
      DiskFits(cfg, s') && Novel(cfg, s', q) && Fits(cfg, RecordFor(cfg, s'.spool.nextSeq, q))
    ensures !LivesOn(cfg, Happen(cfg, w, AppendFail(points, Landed(p))))
  {
    var s' := FailApply(cfg, w.s, points, Landed(p));
    var a := LandedIsRepeating(cfg, w.s, points, p, q);
    var w' := Happen(cfg, w, AppendFail(points, Landed(p)));
    assert w' == World(s', {}) by { assert w.damaged + {} == {}; }
    LossEndsLife(cfg, s', a, q);
  }

  lemma LossEndsLife(cfg: Config, s: State, a: Record, q: Point)
    requires Repeating(cfg, s, a, q)
    ensures !LivesOn(cfg, World(s, {}))
  {
    hide Repeating, Exec, Secure, Play, CountedLife, OneLife;
    var steps := LandedHasLoss(cfg, s, a, q);
    PlainsAreCounted(cfg, s, steps);
  }

  lemma LandedIsRepeating(cfg: Config, s: State, points: seq<Point>, p: Point, q: Point) returns (a: Record)
    requires Inv(cfg, s) && SeqFresh(s.spool) && s.pending == [] && s.up && s.recovering == []
    requires !s.spool.checkpoint.Torn? && cfg.batchSize > 0
    requires var s' := FailApply(cfg, s, points, Landed(p));
      DiskFits(cfg, s') && Novel(cfg, s', q) && Fits(cfg, RecordFor(cfg, s'.spool.nextSeq, q))
    ensures Repeating(cfg, FailApply(cfg, s, points, Landed(p)), a, q)
  {
    a := LandedRecord(cfg, s, points, p);
    hide DiskFits, Novel, Fits, AppendAll, AfterMishap, OnDisk;
    FailedAppendKeeps(cfg, s, points, Landed(p));
    hide Inv, SeqFresh;
  }

  lemma LandedRecord(cfg: Config, s: State, points: seq<Point>, p: Point) returns (a: Record)
    requires DiskOk(s) && SeqFresh(s.spool)
    ensures var sp := FailApply(cfg, s, points, Landed(p)).spool;
      && OnDisk(sp.dir, a) && a.seqNo == sp.nextSeq && sp.checkpoint == s.spool.checkpoint
      && forall k :: k in sp.dir ==> k <= sp.nextSeq
  {
    var mid := AppendAll(cfg, s.spool, points);
    a := RecordFor(cfg, mid.nextSeq, p);
    AppendAllOrdered(cfg, s.spool, points);
    AppendOneOrdered(cfg, mid, p);
    StartsBelowNext(AppendOne(cfg, mid, p));
    AppendOneOnDisk(cfg, mid, p);
  }

  /** At the very first request: a failed sync, the next point acknowledged under the
      same number, a crash, and the recovery of the first loses the second. */
  lemma LandedLosesAcked(cfg: Config, p: Point, q: Point) returns (events: seq<Event>)
    requires Fits(cfg, RecordFor(cfg, 1, p)) && Fits(cfg, RecordFor(cfg, 1, q)) && cfg.batchSize > 0
    requires RecordFor(cfg, 1, p).point.hash != RecordFor(cfg, 1, q).point.hash
    requires !Resembles(cfg, RecordFor(cfg, 1, p), RecordFor(cfg, 1, q))
    ensures CountedLife(events)
    ensures var run := [AppendFail([], Landed(p))] + events;
      Play(cfg, START, run).Some? && !Secure(cfg, Play(cfg, START, run).value.s)
  {
    var first := AppendFail([], Landed(p));
    var w := Happen(cfg, START, first);
    InitInv(cfg);
    FirstLandedDisk(cfg, p);
    hide Inv, Secure, Play, Fits, CountedLife, OnDisk;
    FailedAppendIff(cfg, START, [], Landed(p), q);
    events :| Continues(cfg, w, events) && !Secure(cfg, Play(cfg, w, events).value.s);
    PlayOne(cfg, START, first);
    PlayConcat(cfg, START, [first], events);
  }

  lemma FirstLandedDisk(cfg: Config, p: Point)
    ensures var s := FailApply(cfg, INIT, [], Landed(p)); var a := RecordFor(cfg, 1, p);
      s.issued == {a} && s.spool.nextSeq == 1 && forall r: Record :: OnDisk(s.spool.dir, r) ==> r == a
  {
    AppendOneOnDisk(cfg, FRESH, p);
    assert [] + [p] == [p];
    var a := RecordFor(cfg, 1, p);
    assert NewRecords(cfg, 1, [p]) == [a];
  }
}
