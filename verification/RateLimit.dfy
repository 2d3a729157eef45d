/** The fixed-window rate limiter, and what it promises over whole traces of calls
    under a clock that never runs backwards. */
module RateLimit {
  import opened Text

  datatype Entry = Entry(windowStart: int, count: nat)

  type Entries = map<string, Entry>

  datatype Decision = Allowed | Denied(retryAfter: int)

  datatype Call = Call(key: string, now: int)

  datatype Limits = Limits(limit: int, window: int, cleanupAt: nat)

  /** The size from which the program sweeps out old entries. */
  const CLEANUP_SIZE: nat := 2048

  predicate Enforced(l: Limits) {
    l.limit > 0 && l.window > 0
  }

  function NormalizedKey(key: string): string {
    var k := TrimSpace(key);
    if k == "" then "unknown" else k
  }

  /* ---------------------------- one call, as values -------------------------- */

  predicate OpensWindow(l: Limits, es: Entries, key: string, now: int) {
    key !in es || now - es[key].windowStart >= l.window
  }

  function DecideAt(l: Limits, es: Entries, key: string, now: int): Decision {
    if OpensWindow(l, es, key, now) || es[key].count < l.limit then Allowed
    else
      var left := l.window - (now - es[key].windowStart);
      Denied(if left < 0 then 0 else left)
  }

  /** The map after the call, before any sweep. */
  function Counted(l: Limits, es: Entries, key: string, now: int): Entries {
    if OpensWindow(l, es, key, now) then es[key := Entry(now, 1)]
    else if es[key].count >= l.limit then es
    else es[key := es[key].(count := es[key].count + 1)]
  }

  function Swept(l: Limits, es: Entries, now: int): Entries {
    if |es| < l.cleanupAt then es
    else map k | k in es && now - es[k].windowStart < l.window * 2 :: es[k]
  }

  /** The map after the call; a sweep happens only when a window was opened. */
  function Next(l: Limits, es: Entries, key: string, now: int): Entries {
    if OpensWindow(l, es, key, now) then Swept(l, Counted(l, es, key, now), now)
    else Counted(l, es, key, now)
  }

  /* --------------------------------- the code -------------------------------- */

  class FixedWindowLimiter {
    const limits: Limits
    var entries: Entries

    /** The calls so far, with the keys as they were given. */
    ghost var calls: seq<Call>

    /** The entries are what the calls left behind. */
    ghost predicate Valid()
      reads this
    {
      Enforced(limits) ==> entries == After(limits, map[], Normalized(calls))
    }

    constructor (limit: int, window: int)
      ensures Valid() && calls == [] && limits == Limits(limit, window, 2048)
    {
      limits := Limits(limit, window, CLEANUP_SIZE);
      entries, calls := map[], [];
    }

    /** Every call gets the answer that its place in the trace of all calls gives it. */
    method Allow(key: string, now: int) returns (ok: bool, retryAfter: int)
      requires Valid()
      modifies this
      ensures Valid() && calls == old(calls) + [Call(key, now)]
      ensures limits.limit <= 0 || limits.window <= 0 ==> ok && retryAfter == 0 && entries == old(entries)
      ensures Enforced(limits) ==>
        match ReplyTo(limits, calls, |calls| - 1)
        case Allowed => ok && retryAfter == 0
        case Denied(r) => !ok && retryAfter == r
    {
      calls := calls + [Call(key, now)];
      NormalizedSnoc(limits, old(calls), Call(key, now));
      ok, retryAfter := Decide(key, now);
    }

    method Decide(key: string, now: int) returns (ok: bool, retryAfter: int)
      modifies this`entries
      ensures !Enforced(limits) ==> ok && retryAfter == 0 && entries == old(entries)
      ensures Enforced(limits) ==>
        var k := NormalizedKey(key);
        && entries == Next(limits, old(entries), k, now)
        && match DecideAt(limits, old(entries), k, now)
           case Allowed => ok && retryAfter == 0
           case Denied(r) => !ok && retryAfter == r
    {
      if limits.limit <= 0 || limits.window <= 0 {
        return true, 0;
      }
      var k := TrimSpace(key);
      if k == "" {
        k := "unknown";
      }
      if k !in entries || now - entries[k].windowStart >= limits.window {
        entries := entries[k := Entry(now, 1)];
        MaybeCleanup(now);
        return true, 0;
      }
      var entry := entries[k];
      if entry.count >= limits.limit {
        retryAfter := limits.window - (now - entry.windowStart);
        if retryAfter < 0 {
          retryAfter := 0;
        }
        return false, retryAfter;
      }
      entries := entries[k := entry.(count := entry.count + 1)];
      return true, 0;
    }

    /** The sweep visits keys in no particular order. Below the cleanup size it does
        nothing; else it keeps exactly the entries less than two windows old. */
    method MaybeCleanup(now: int)
      modifies this`entries
      ensures entries == Swept(limits, old(entries), now)
      ensures forall k :: k in entries <==>
        k in old(entries)
        && (|old(entries)| < limits.cleanupAt || now < old(entries)[k].windowStart + 2 * limits.window)
      ensures forall k :: k in entries ==> entries[k] == old(entries)[k]
    {
      if |entries| < limits.cleanupAt {
        return;
      }
      var todo := entries.Keys;
      var all := entries;
      while todo != {}
        invariant todo <= all.Keys
        invariant entries == map k | k in all && (k in todo || now - all[k].windowStart < limits.window * 2) :: all[k]
        decreases todo
      {
        var k :| k in todo;
        if now - entries[k].windowStart >= limits.window * 2 {
          entries := entries - {k};
        }
        todo := todo - {k};
      }
    }
  }

  /* ---------------------------------- traces --------------------------------- */

  ghost predicate Monotone(calls: seq<Call>) {
    forall i, j :: 0 <= i < j < |calls| ==> calls[i].now <= calls[j].now
  }

  /** The limiter's map after a list of calls. */
  function After(l: Limits, es: Entries, calls: seq<Call>): Entries {
    if calls == [] then es
    else
      var before := After(l, es, calls[..|calls| - 1]);
      var c := calls[|calls| - 1];
      Next(l, before, c.key, c.now)
  }

  /** The answer to call `i`. */
  function AnswerTo(l: Limits, calls: seq<Call>, i: nat): Decision
    requires i < |calls|
  {
    DecideAt(l, After(l, map[], calls[..i]), calls[i].key, calls[i].now)
  }

  /* ----------------------------- keys as given ------------------------------- */

  /** The calls under the keys their entries are kept at. */
  function Normalized(calls: seq<Call>): seq<Call> {
    seq(|calls|, i requires 0 <= i < |calls| => Call(NormalizedKey(calls[i].key), calls[i].now))
  }

  /** The answer to call `i` of a trace with keys as given. */
  function ReplyTo(l: Limits, calls: seq<Call>, i: nat): Decision
    requires i < |calls|
  {
    AnswerTo(l, Normalized(calls), i)
  }

  lemma NormalizedSnoc(l: Limits, calls: seq<Call>, c: Call)
    ensures var k := NormalizedKey(c.key); var es := After(l, map[], Normalized(calls));
      && After(l, map[], Normalized(calls + [c])) == Next(l, es, k, c.now)
      && ReplyTo(l, calls + [c], |calls|) == DecideAt(l, es, k, c.now)
  {
    assert Normalized(calls + [c])[..|calls|] == Normalized(calls);
  }

  /** A limiter that never sweeps. */
  function AfterUnswept(l: Limits, es: Entries, calls: seq<Call>): Entries {
    if calls == [] then es
    else
      var before := AfterUnswept(l, es, calls[..|calls| - 1]);
      var c := calls[|calls| - 1];
      Counted(l, before, c.key, c.now)
  }

  function UnsweptAnswerTo(l: Limits, calls: seq<Call>, i: nat): Decision
    requires i < |calls|
  {
    DecideAt(l, AfterUnswept(l, map[], calls[..i]), calls[i].key, calls[i].now)
  }

  /** What the sweep may have removed by time `now`: only windows that are over. */
  ghost predicate Agrees(l: Limits, swept: Entries, full: Entries, now: int) {
    && (forall k :: k in swept ==> k in full && swept[k] == full[k])
    && (forall k :: k in full && k !in swept ==> now - full[k].windowStart >= l.window)
  }

  lemma AgreesStep(l: Limits, swept: Entries, full: Entries, t: int, key: string, now: int)
    requires Enforced(l) && Agrees(l, swept, full, t) && t <= now
    ensures DecideAt(l, swept, key, now) == DecideAt(l, full, key, now)
    ensures Agrees(l, Next(l, swept, key, now), Counted(l, full, key, now), now)
  {
    assert OpensWindow(l, swept, key, now) == OpensWindow(l, full, key, now);
  }

  lemma {:induction false} AgreesAlong(l: Limits, calls: seq<Call>, t: int)
    requires Enforced(l) && Monotone(calls)
    requires forall i :: 0 <= i < |calls| ==> calls[i].now <= t
    ensures Agrees(l, After(l, map[], calls), AfterUnswept(l, map[], calls), t)
  {
    if calls != [] {
      var init, c := calls[..|calls| - 1], calls[|calls| - 1];
      AgreesAlong(l, init, c.now);
      AgreesStep(l, After(l, map[], init), AfterUnswept(l, map[], init), c.now, c.key, c.now);
    }
  }

  /** Sweeping never changes an answer. */
  lemma SweepIsInvisible(l: Limits, calls: seq<Call>, i: nat)
    requires Enforced(l) && Monotone(calls) && i < |calls|
    ensures AnswerTo(l, calls, i) == UnsweptAnswerTo(l, calls, i)
  {
    AgreesAlong(l, calls[..i], calls[i].now);
    AgreesStep(l, After(l, map[], calls[..i]), AfterUnswept(l, map[], calls[..i]),
               calls[i].now, calls[i].key, calls[i].now);
  }

  /* --------------------------- less than twice the limit ---------------------- */

  /** Calls of `key` admitted in the half-open span [from, from + window). */
  function Admitted(l: Limits, calls: seq<Call>, key: string, from: int): nat {
    if calls == [] then 0
    else
      var n := |calls| - 1;
      var c := calls[n];
      Admitted(l, calls[..n], key, from) +
      if c.key == key && from <= c.now < from + l.window
         && DecideAt(l, AfterUnswept(l, map[], calls[..n]), c.key, c.now).Allowed? then 1 else 0
  }

  /** How many admissions the span may hold, given the key's current window: a span
      of one window's length meets at most two windows, and the call that opened the
      earlier one is outside it. */
  function Budget(l: Limits, e: Entry, from: int): int {
    if e.windowStart < from then e.count - 1
    else if e.windowStart < from + l.window then l.limit - 1 + e.count
    else 2 * l.limit - 1
  }

  ghost predicate SpanInv(l: Limits, calls: seq<Call>, key: string, from: int) {
    var es := AfterUnswept(l, map[], calls);
    && (key !in es ==> Admitted(l, calls, key, from) == 0)
    && (key in es ==>
         && 1 <= es[key].count <= l.limit
         && Admitted(l, calls, key, from) <= Budget(l, es[key], from)
         && (calls != [] ==> es[key].windowStart <= calls[|calls| - 1].now))
    && (calls != [] && calls[|calls| - 1].now < from ==> Admitted(l, calls, key, from) == 0)
  }

  lemma {:induction false} SpanInvAlong(l: Limits, calls: seq<Call>, key: string, from: int)
    requires Enforced(l) && Monotone(calls)
    ensures SpanInv(l, calls, key, from)
  {
    if calls != [] {
      var n := |calls| - 1;
      SpanInvAlong(l, calls[..n], key, from);
      if n > 0 { assert calls[n - 1].now <= calls[n].now; }
    }
  }

  lemma {:induction false} AdmittedOnSwept(l: Limits, calls: seq<Call>, key: string, from: int)
    requires Enforced(l) && Monotone(calls)
    ensures Admitted(l, calls, key, from) == AdmittedBySwept(l, calls, key, from)
  {
    if calls != [] {
      var n := |calls| - 1;
      AdmittedOnSwept(l, calls[..n], key, from);
      SweepIsInvisible(l, calls, n);
    }
  }

  /** The same count over the limiter as it is. */
  function AdmittedBySwept(l: Limits, calls: seq<Call>, key: string, from: int): nat {
    if calls == [] then 0
    else
      var n := |calls| - 1;
      var c := calls[n];
      AdmittedBySwept(l, calls[..n], key, from) +
      if c.key == key && from <= c.now < from + l.window && AnswerTo(l, calls, n).Allowed? then 1 else 0
  }

  /** However calls are spread, a span of one window admits less than twice the limit
      per key. */
  lemma LessThanTwiceTheLimit(l: Limits, calls: seq<Call>, key: string, from: int)
    requires Enforced(l) && Monotone(calls)
    ensures AdmittedBySwept(l, calls, key, from) <= 2 * l.limit - 1
  {
    SpanInvAlong(l, calls, key, from);
    AdmittedOnSwept(l, calls, key, from);
  }

  /** The worst trace: one call opens a window at time 0, the rest of the limit comes
      in its last moment, and a full window of calls follows at once. */
  function Burst(l: Limits, key: string, n: nat): seq<Call>
    requires Enforced(l)
  {
    if n == 0 then []
    else
      Burst(l, key, n - 1) + [Call(key, if n == 1 then 0 else if n <= l.limit then l.window - 1 else l.window)]
  }

  lemma {:induction false} BurstCalls(l: Limits, key: string, n: nat)
    requires Enforced(l)
    ensures |Burst(l, key, n)| == n && Monotone(Burst(l, key, n))
    ensures forall i :: 0 <= i < n ==>
      Burst(l, key, n)[i] == Call(key, if i == 0 then 0 else if i < l.limit then l.window - 1 else l.window)
  {
    if n > 0 { BurstCalls(l, key, n - 1); }
  }

  lemma BurstLast(l: Limits, key: string, n: nat)
    requires Enforced(l) && n > 0
    ensures var calls := Burst(l, key, n);
      |calls| == n && calls[..n - 1] == Burst(l, key, n - 1)
      && calls[n - 1] == Call(key, if n == 1 then 0 else if n <= l.limit then l.window - 1 else l.window)
  {
    BurstCalls(l, key, n - 1);
  }

  /** The one entry a burst of `n` calls leaves. */
  function BurstEntry(l: Limits, n: nat): Entry
    requires Enforced(l) && 0 < n
  {
    if n <= l.limit then Entry(0, n) else Entry(l.window, n - l.limit)
  }

  lemma {:induction false} BurstLeaves(l: Limits, key: string, n: nat)
    requires Enforced(l) && 0 < n <= 2 * l.limit
    ensures AfterUnswept(l, map[], Burst(l, key, n)) == map[key := BurstEntry(l, n)]
  {
    hide Burst;
    BurstLast(l, key, n);
    if n > 1 {
      BurstLeaves(l, key, n - 1);
    } else {
      assert Burst(l, key, 0) == [] by { BurstCalls(l, key, 0); }
    }
  }

  lemma {:induction false} BurstAdmitted(l: Limits, key: string, n: nat)
    requires Enforced(l) && l.window > 1 && 0 < n <= 2 * l.limit
    ensures Admitted(l, Burst(l, key, n), key, 1) == n - 1
  {
    hide Burst, AfterUnswept;
    BurstLast(l, key, n);
    if n > 1 {
      BurstAdmitted(l, key, n - 1);
      BurstLeaves(l, key, n - 1);
    } else {
      assert Burst(l, key, 0) == [] by { BurstCalls(l, key, 0); }
    }
  }

  /** The bound is reached, for every limit and every window longer than one tick. */
  lemma BurstReachesBound(l: Limits, key: string)
    requires Enforced(l) && l.window > 1
    ensures Monotone(Burst(l, key, 2 * l.limit))
    ensures AdmittedBySwept(l, Burst(l, key, 2 * l.limit), key, 1) == 2 * l.limit - 1
  {
    BurstCalls(l, key, 2 * l.limit);
    BurstAdmitted(l, key, 2 * l.limit);
    AdmittedOnSwept(l, Burst(l, key, 2 * l.limit), key, 1);
  }

  /* ------------------------- clients and their keys ---------------------------- */

  /** Two keys mean the same client: they differ in white space around them only, a
      blank key standing for "unknown". */
  ghost predicate SameClient(a: string, b: string) {
    exists t :: Names(a, t) && Names(b, t)
  }

  ghost predicate Names(key: string, client: string) {
    if TrimsTo(key, "") then client == "unknown" else TrimsTo(key, client)
  }

  lemma NamesIff(key: string, client: string)
    ensures Names(key, client) <==> NormalizedKey(key) == client
  {
    TrimSpaceIff(key, "");
    TrimSpaceIff(key, client);
  }

  lemma SameClientIff(a: string, b: string)
    ensures SameClient(a, b) <==> NormalizedKey(a) == NormalizedKey(b)
  {
    NamesIff(a, NormalizedKey(a));
    NamesIff(b, NormalizedKey(a));
    if SameClient(a, b) {
      var t :| Names(a, t) && Names(b, t);
      NamesIff(a, t);
      NamesIff(b, t);
    }
  }

  /** The calls of one client, in order. */
  ghost function Own(calls: seq<Call>, key: string): seq<Call> {
    if calls == [] then []
    else
      var before, c := Own(calls[..|calls| - 1], key), calls[|calls| - 1];
      if SameClient(c.key, key) then before + [c] else before
  }

  /** An entry depends on the calls of its own client only. */
  lemma {:induction false} EntryIsOwn(l: Limits, calls: seq<Call>, key: string)
    ensures var k := NormalizedKey(key);
      var all, own := AfterUnswept(l, map[], Normalized(calls)), AfterUnswept(l, map[], Normalized(Own(calls, key)));
      (k in all <==> k in own) && (k in all ==> all[k] == own[k])
  {
    hide NormalizedKey;
    if calls != [] {
      var init, c := calls[..|calls| - 1], calls[|calls| - 1];
      EntryIsOwn(l, init, key);
      SameClientIff(c.key, key);
      assert Normalized(calls)[..|init|] == Normalized(init);
      var own := Own(init, key);
      assert Normalized(own + [c])[..|own|] == Normalized(own);
    }
  }

  lemma {:induction false} OwnMonotone(calls: seq<Call>, key: string, t: int)
    requires Monotone(calls) && forall i :: 0 <= i < |calls| ==> calls[i].now <= t
    ensures Monotone(Own(calls, key))
    ensures forall i :: 0 <= i < |Own(calls, key)| ==> Own(calls, key)[i].now <= t
  {
    if calls != [] {
      OwnMonotone(calls[..|calls| - 1], key, calls[|calls| - 1].now);
    }
  }

  lemma ReplyIsUnswept(l: Limits, calls: seq<Call>, i: nat)
    requires Enforced(l) && Monotone(calls) && i < |calls|
    ensures ReplyTo(l, calls, i) ==
      DecideAt(l, AfterUnswept(l, map[], Normalized(calls[..i])), NormalizedKey(calls[i].key), calls[i].now)
  {
    SweepIsInvisible(l, Normalized(calls), i);
    assert Normalized(calls)[..i] == Normalized(calls[..i]);
  }

  /** Clients do not affect each other: a call gets the answer it would get if its own
      client had been the only one to call. */
  lemma ClientsAreIndependent(l: Limits, calls: seq<Call>, i: nat)
    requires Enforced(l) && Monotone(calls) && i < |calls|
    ensures var own := Own(calls[..i], calls[i].key) + [calls[i]];
      ReplyTo(l, calls, i) == ReplyTo(l, own, |own| - 1)
  {
    var key, now := calls[i].key, calls[i].now;
    var own := Own(calls[..i], key);
    OwnMonotone(calls[..i], key, now);
    ReplyIsUnswept(l, calls, i);
    ReplyIsUnswept(l, own + [calls[i]], |own|);
    assert (own + [calls[i]])[..|own|] == own;
    EntryIsOwn(l, calls[..i], key);
  }

  /** Calls of a client admitted in the half-open span [from, from + window). */
  ghost function AdmittedTo(l: Limits, calls: seq<Call>, key: string, from: int): nat {
    if calls == [] then 0
    else
      var n := |calls| - 1;
      AdmittedTo(l, calls[..n], key, from) +
      if SameClient(calls[n].key, key) && from <= calls[n].now < from + l.window && ReplyTo(l, calls, n).Allowed?
      then 1 else 0
  }

  lemma {:induction false} AdmittedToIs(l: Limits, calls: seq<Call>, key: string, from: int)
    ensures AdmittedTo(l, calls, key, from) == AdmittedBySwept(l, Normalized(calls), NormalizedKey(key), from)
  {
    hide NormalizedKey;
    if calls != [] {
      var n := |calls| - 1;
      AdmittedToIs(l, calls[..n], key, from);
      SameClientIff(calls[n].key, key);
      assert Normalized(calls)[..n] == Normalized(calls[..n]);
      assert Normalized(calls)[n] == Call(NormalizedKey(calls[n].key), calls[n].now);
    }
  }

  /** All spellings of a client's key share one budget: whatever clients call, a span of
      one window admits less than twice the limit to each. */
  lemma OneBudgetPerClient(l: Limits, calls: seq<Call>, key: string, from: int)
    requires Enforced(l) && Monotone(calls)
    ensures AdmittedTo(l, calls, key, from) <= 2 * l.limit - 1
  {
    AdmittedToIs(l, calls, key, from);
    LessThanTwiceTheLimit(l, Normalized(calls), NormalizedKey(key), from);
  }

  /* ------------------------------- retry after -------------------------------- */

  /** While the window lasts, a full entry stays exactly as it is. */
  lemma {:induction false} FullEntryStays(l: Limits, es: Entries, key: string, calls: seq<Call>)
    requires Enforced(l) && key in es && es[key].count >= l.limit
    requires forall i :: 0 <= i < |calls| ==> calls[i].now < es[key].windowStart + l.window
    ensures key in After(l, es, calls) && After(l, es, calls)[key] == es[key]
  {
    if calls != [] {
      FullEntryStays(l, es, key, calls[..|calls| - 1]);
    }
  }

  /** `retryAfter` is exact. If a call is denied with `r`, then whatever calls
      follow before that time has passed, every further call of the key is denied
      until then and allowed from then on. */
  lemma RetryAfterIsExact(l: Limits, es: Entries, key: string, t: int, between: seq<Call>, now: int)
    requires Enforced(l) && DecideAt(l, es, key, t).Denied?
    requires var r := DecideAt(l, es, key, t).retryAfter;
      forall i :: 0 <= i < |between| ==> between[i].now < t + r
    ensures var r := DecideAt(l, es, key, t).retryAfter;
      var later := After(l, Next(l, es, key, t), between);
      && r > 0
      && (DecideAt(l, later, key, now).Denied? <==> now < t + r)
      && (now < t + r ==> DecideAt(l, later, key, now).retryAfter == t + r - now)
  {
    FullEntryStays(l, es, key, between);
  }
}
