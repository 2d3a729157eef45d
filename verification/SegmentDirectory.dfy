/** The spool directory as the program meets it: files with names. Listing parses
    every name, reading opens the name the program would have written for the number
    found. This module proves when that amounts to the directory keyed by number that
    the rest of the model works with, and what a stray name does otherwise. */
module SegmentDirectory {
  import opened Ingest
  import opened Spool
  import opened SpoolManager
  import opened SegmentName

  type Files = map<string, seq<Record>>

  /** The names as a directory listing returns them: each file once, in any order. */
  ghost predicate Lists(names: seq<string>, files: Files) {
    && (forall i, j :: 0 <= i < j < |names| ==> names[i] != names[j])
    && (forall name :: name in names <==> name in files)
  }

  /** The name the program writes for some number. */
  predicate Canonical(name: string) {
    match ParseSegmentStartSeq(name)
    case Some(n) => n < UINT64 && SegmentFileName(n) == name
    case None => false
  }

  /** A name that is taken for a segment's but is not the one written for its number. */
  predicate Stray(name: string) {
    ParseSegmentStartSeq(name).Some? && !Canonical(name)
  }

  /** The segments the program wrote, by number. */
  ghost function SegmentsOf(files: Files): Directory {
    map n | n in (set name | name in files && Canonical(name) :: ParseSegmentStartSeq(name).value)
      :: files[SegmentFileName(n)]
  }

  lemma InSegments(files: Files, n: nat)
    ensures n in SegmentsOf(files) <==> n < UINT64 && SegmentFileName(n) in files
    ensures n in SegmentsOf(files) ==> SegmentsOf(files)[n] == files[SegmentFileName(n)]
  {
    if n < UINT64 { NameRoundTrip(n); }
  }

  /* --------------------------------- listing -------------------------------- */

  function Insert(n: nat, xs: seq<nat>): seq<nat> {
    if xs == [] || n < xs[0] then [n] + xs else [xs[0]] + Insert(n, xs[1..])
  }

  function Sorted(xs: seq<nat>): seq<nat> {
    if xs == [] then [] else Insert(xs[|xs| - 1], Sorted(xs[..|xs| - 1]))
  }

  /** The numbers of the names that parse, in listing order. */
  function Parsed(names: seq<string>): seq<nat> {
    if names == [] then []
    else
      var before := Parsed(names[..|names| - 1]);
      match ParseSegmentStartSeq(names[|names| - 1])
      case Some(n) => before + [n]
      case None => before
  }

  function Starts(names: seq<string>): seq<nat> {
    Sorted(Parsed(names))
  }

  lemma StartsSnoc(names: seq<string>)
    requires names != []
    ensures var n := |names| - 1;
      Starts(names) ==
        match ParseSegmentStartSeq(names[n])
        case Some(m) => Insert(m, Starts(names[..n]))
        case None => Starts(names[..n])
  {
    var n := |names| - 1;
    var before := Parsed(names[..n]);
    match ParseSegmentStartSeq(names[n])
    case Some(m) => assert (before + [m])[..|before|] == before;
    case None =>
  }

  ghost predicate Ascends(xs: seq<nat>) {
    forall i, j :: 0 <= i < j < |xs| ==> xs[i] <= xs[j]
  }

  lemma {:induction false} InsertFacts(n: nat, xs: seq<nat>)
    requires Ascends(xs)
    ensures Ascends(Insert(n, xs)) && forall x :: x in Insert(n, xs) <==> x == n || x in xs
  {
    if xs != [] && n >= xs[0] {
      InsertFacts(n, xs[1..]);
      var tail := Insert(n, xs[1..]);
      forall j | 0 <= j < |tail| ensures xs[0] <= tail[j] { assert tail[j] in tail; }
    }
  }

  lemma {:induction false} StartsFacts(names: seq<string>)
    ensures Ascends(Starts(names))
    ensures forall n :: n in Starts(names) <==> exists name :: name in names && ParseSegmentStartSeq(name) == Some(n)
  {
    if names != [] {
      var init, last := names[..|names| - 1], names[|names| - 1];
      StartsFacts(init);
      StartsSnoc(names);
      assert names == init + [last];
      match ParseSegmentStartSeq(last)
      case Some(m) => InsertFacts(m, Starts(init)); assert last in names;
      case None =>
    }
  }

  /** Every entry of the listing is parsed, names that do not parse are passed over,
      and the numbers are sorted: one for each name, even when two names have the same. */
  method ListSegmentStarts(names: seq<string>) returns (starts: seq<nat>)
    ensures starts == Starts(names)
    ensures Ascends(starts)
    ensures forall n :: n in starts <==> exists name :: name in names && ParseSegmentStartSeq(name) == Some(n)
  {
    var found: seq<nat> := [];
    for i := 0 to |names|
      invariant found == Parsed(names[..i])
    {
      assert names[..i + 1][..i] == names[..i];
      match ParseSegmentStartSeq(names[i])
      case Some(n) => found := found + [n];
      case None =>
    }
    assert names[..|names|] == names;
    starts := [];
    for i := 0 to |found|
      invariant starts == Sorted(found[..i])
    {
      assert found[..i + 1][..i] == found[..i];
      starts := Insert(found[i], starts);
    }
    assert found[..|found|] == found;
    StartsFacts(names);
  }

  /* --------------------------------- reading -------------------------------- */

  /** What the file of segment `n` holds above `c`. */
  function Tail(files: Files, n: nat, c: nat): seq<Record> {
    if n < UINT64 && SegmentFileName(n) in files then After(files[SegmentFileName(n)], c) else []
  }

  /** The tails of these segments, one after the other. */
  function Tails(files: Files, starts: seq<nat>, c: nat): seq<Record> {
    if starts == [] then [] else Tail(files, starts[0], c) + Tails(files, starts[1..], c)
  }

  predicate Openable(files: Files, n: nat) {
    n < UINT64 && SegmentFileName(n) in files
  }

  ghost predicate AllOpenable(files: Files, starts: seq<nat>) {
    forall n :: n in starts ==> Openable(files, n)
  }

  /** The replay of a directory of named files, or nothing when one cannot be opened. */
  ghost function NamedReplay(names: seq<string>, files: Files, c: nat): Option<seq<Record>> {
    if AllOpenable(files, Starts(names)) then Some(Tails(files, Starts(names), c)) else None
  }

  lemma {:induction false} TailsSnoc(files: Files, starts: seq<nat>, n: nat, c: nat)
    ensures Tails(files, starts + [n], c) == Tails(files, starts, c) + Tail(files, n, c)
  {
    if starts == [] {
      assert [] + [n] == [n] && [n][1..] == [];
      assert Tails(files, [], c) == [];
    } else {
      TailsSnoc(files, starts[1..], n, c);
      assert (starts + [n])[1..] == starts[1..] + [n];
    }
  }

  /** Opening the listed segments one after the other; a missing file ends it. */
  method ReplayNamed(names: seq<string>, files: Files, c: nat) returns (r: Option<seq<Record>>)
    ensures r == NamedReplay(names, files, c)
  {
    hide Openable, Tail, Starts;
    var starts := ListSegmentStarts(names);
    var out: seq<Record> := [];
    for i := 0 to |starts|
      invariant forall k :: 0 <= k < i ==> Openable(files, starts[k])
      invariant out == Tails(files, starts[..i], c)
    {
      if !Openable(files, starts[i]) {
        assert starts[i] in starts;
        return None;
      }
      assert starts[..i + 1] == starts[..i] + [starts[i]];
      TailsSnoc(files, starts[..i], starts[i], c);
      out := out + Tail(files, starts[i], c);
    }
    assert starts[..|starts|] == starts;
    return Some(out);
  }

  /* --------------------------- strays and the rest -------------------------- */

  /** The listing without the strays. */
  function Proper(names: seq<string>): seq<string> {
    if names == [] then []
    else
      var before := Proper(names[..|names| - 1]);
      if Stray(names[|names| - 1]) then before else before + [names[|names| - 1]]
  }

  /** How many records the strays make a replay read twice. */
  function Extra(names: seq<string>, files: Files, c: nat): nat {
    if names == [] then 0
    else
      Extra(names[..|names| - 1], files, c) +
      if Stray(names[|names| - 1]) then |Tail(files, ParseSegmentStartSeq(names[|names| - 1]).value, c)| else 0
  }

  lemma ProperSnoc(names: seq<string>)
    requires names != [] && !Stray(names[|names| - 1])
    ensures var n := |names| - 1;
      Starts(Proper(names)) ==
        match ParseSegmentStartSeq(names[n])
        case Some(m) => Insert(m, Starts(Proper(names[..n])))
        case None => Starts(Proper(names[..n]))
  {
    var n := |names| - 1;
    var before := Proper(names[..n]);
    assert (before + [names[n]])[..|before|] == before;
    StartsSnoc(before + [names[n]]);
  }

  lemma {:induction false} InsertLength(files: Files, n: nat, xs: seq<nat>, c: nat)
    ensures |Tails(files, Insert(n, xs), c)| == |Tails(files, xs, c)| + |Tail(files, n, c)|
  {
    if xs != [] && n >= xs[0] {
      InsertLength(files, n, xs[1..], c);
    } else {
      assert ([n] + xs)[1..] == xs;
    }
  }

  lemma {:induction false} ReplayLength(names: seq<string>, files: Files, c: nat)
    ensures |Tails(files, Starts(names), c)| == |Tails(files, Starts(Proper(names)), c)| + Extra(names, files, c)
  {
    if names != [] {
      var init, last := names[..|names| - 1], names[|names| - 1];
      ReplayLength(init, files, c);
      StartsSnoc(names);
      if ParseSegmentStartSeq(last).Some? {
        InsertLength(files, ParseSegmentStartSeq(last).value, Starts(init), c);
      }
      if !Stray(last) {
        ProperSnoc(names);
        if ParseSegmentStartSeq(last).Some? {
          InsertLength(files, ParseSegmentStartSeq(last).value, Starts(Proper(init)), c);
        }
      }
    }
  }

  /** The segments that have anything to replay. */
  function Full(files: Files, xs: seq<nat>, c: nat): seq<nat> {
    if xs == [] then []
    else if Tail(files, xs[0], c) == [] then Full(files, xs[1..], c)
    else [xs[0]] + Full(files, xs[1..], c)
  }

  lemma {:induction false} FullIsEnough(files: Files, xs: seq<nat>, c: nat)
    ensures Tails(files, Full(files, xs, c), c) == Tails(files, xs, c)
  {
    if xs != [] {
      FullIsEnough(files, xs[1..], c);
      var rest := Full(files, xs[1..], c);
      assert ([xs[0]] + rest)[1..] == rest;
    }
  }

  lemma {:induction false} FullMembers(files: Files, xs: seq<nat>, c: nat)
    ensures forall x :: x in Full(files, xs, c) ==> x in xs
  {
    if xs != [] { FullMembers(files, xs[1..], c); }
  }

  lemma InsertFirst(n: nat, xs: seq<nat>)
    requires forall x :: x in xs ==> n < x
    ensures Insert(n, xs) == [n] + xs
  {
    if xs != [] { assert xs[0] in xs; }
  }

  lemma {:induction false} FullInsert(files: Files, n: nat, xs: seq<nat>, c: nat)
    requires Ascends(xs)
    ensures Full(files, Insert(n, xs), c) ==
      if Tail(files, n, c) == [] then Full(files, xs, c) else Insert(n, Full(files, xs, c))
  {
    if xs == [] || n < xs[0] {
      assert ([n] + xs)[1..] == xs;
      FullMembers(files, xs, c);
      forall x | x in Full(files, xs, c) ensures n < x {
        var k :| 0 <= k < |xs| && xs[k] == x;
      }
      InsertFirst(n, Full(files, xs, c));
    } else {
      FullInsert(files, n, xs[1..], c);
      var tail := Insert(n, xs[1..]);
      assert ([xs[0]] + tail)[1..] == tail;
      var rest := Full(files, xs[1..], c);
      assert ([xs[0]] + rest)[1..] == rest;
    }
  }

  /** Strays whose segment has nothing to replay leave no trace. */
  lemma {:induction false} SameFull(names: seq<string>, files: Files, c: nat)
    requires Extra(names, files, c) == 0
    ensures Full(files, Starts(names), c) == Full(files, Starts(Proper(names)), c)
  {
    if names != [] {
      var init, last := names[..|names| - 1], names[|names| - 1];
      SameFull(init, files, c);
      StartsSnoc(names);
      StartsFacts(init);
      if ParseSegmentStartSeq(last).Some? {
        FullInsert(files, ParseSegmentStartSeq(last).value, Starts(init), c);
      }
      if !Stray(last) {
        ProperSnoc(names);
        StartsFacts(Proper(init));
        if ParseSegmentStartSeq(last).Some? {
          FullInsert(files, ParseSegmentStartSeq(last).value, Starts(Proper(init)), c);
        }
      }
    }
  }

  /* -------------------- the listing without its strays ---------------------- */

  lemma {:induction false} ProperMembers(names: seq<string>)
    ensures forall name :: name in Proper(names) <==> name in names && !Stray(name)
  {
    if names != [] {
      ProperMembers(names[..|names| - 1]);
      assert names == names[..|names| - 1] + [names[|names| - 1]];
    }
  }

  lemma {:induction false} InsertStrict(n: nat, xs: seq<nat>)
    requires n !in xs && forall i, j :: 0 <= i < j < |xs| ==> xs[i] < xs[j]
    ensures forall i, j :: 0 <= i < j < |Insert(n, xs)| ==> Insert(n, xs)[i] < Insert(n, xs)[j]
  {
    if xs != [] && n >= xs[0] {
      InsertStrict(n, xs[1..]);
      InsertFacts(n, xs[1..]);
      var tail := Insert(n, xs[1..]);
      forall j | 0 <= j < |tail| ensures xs[0] < tail[j] { assert tail[j] in tail; }
    }
  }

  /** Without strays no number is listed twice. */
  lemma {:induction false} ProperStrict(names: seq<string>)
    requires forall i, j :: 0 <= i < j < |names| ==> names[i] != names[j]
    ensures var xs := Starts(Proper(names)); forall i, j :: 0 <= i < j < |xs| ==> xs[i] < xs[j]
  {
    if names != [] {
      var init, last := names[..|names| - 1], names[|names| - 1];
      ProperStrict(init);
      if !Stray(last) {
        ProperSnoc(names);
        if ParseSegmentStartSeq(last).Some? {
          NotYetListed(init, last);
          InsertStrict(ParseSegmentStartSeq(last).value, Starts(Proper(init)));
        }
      }
    }
  }

  lemma NotYetListed(init: seq<string>, last: string)
    requires last !in init && Canonical(last)
    ensures ParseSegmentStartSeq(last).value !in Starts(Proper(init))
  {
    var n := ParseSegmentStartSeq(last).value;
    StartsFacts(Proper(init));
    ProperMembers(init);
    forall name | name in Proper(init) ensures ParseSegmentStartSeq(name) != Some(n) {
      assert ParseSegmentStartSeq(name).Some? ==> Canonical(name);
    }
  }

  lemma ProperIsListing(names: seq<string>, files: Files)
    requires Lists(names, files)
    ensures Listing(SegmentsOf(files), Starts(Proper(names)))
  {
    var starts := Starts(Proper(names));
    ProperStrict(names);
    StartsFacts(Proper(names));
    ProperMembers(names);
    forall n ensures n in starts <==> n in SegmentsOf(files) {
      InSegments(files, n);
      if n in starts {
        var name :| name in Proper(names) && ParseSegmentStartSeq(name) == Some(n);
        assert Canonical(name);
      }
      if n in SegmentsOf(files) {
        NameRoundTrip(n);
        assert SegmentFileName(n) in Proper(names);
      }
    }
  }

  lemma TailsOfNone(files: Files, dir: Directory, starts: seq<nat>, c: nat)
    ensures Tails(files, starts[..0], c) == Replay(Upto(dir, starts, 0), c)
  {
    assert Upto(dir, starts, 0) == map[];
  }

  lemma {:induction false} TailsOfListing(files: Files, dir: Directory, starts: seq<nat>, k: nat, c: nat)
    requires Listing(dir, starts) && k <= |starts|
    requires forall n :: n in dir ==> Tail(files, n, c) == After(dir[n], c)
    ensures Tails(files, starts[..k], c) == Replay(Upto(dir, starts, k), c)
  {
    hide Upto, Replay, Tail, Tails, After;
    if k == 0 {
      TailsOfNone(files, dir, starts, c);
    } else {
      TailsOfListing(files, dir, starts, k - 1, c);
      assert starts[k - 1] in starts;
      UptoStep(dir, starts, k - 1, c);
      assert starts[..k] == starts[..k - 1] + [starts[k - 1]];
      TailsSnoc(files, starts[..k - 1], starts[k - 1], c);
    }
  }

  lemma TailOfSegment(files: Files, n: nat, c: nat)
    requires n in SegmentsOf(files)
    ensures Tail(files, n, c) == After(SegmentsOf(files)[n], c)
  {
    InSegments(files, n);
  }

  lemma ProperReplays(names: seq<string>, files: Files, c: nat)
    requires Lists(names, files)
    ensures Tails(files, Starts(Proper(names)), c) == Replay(SegmentsOf(files), c)
  {
    var starts := Starts(Proper(names));
    ProperIsListing(names, files);
    forall n | n in SegmentsOf(files) ensures Tail(files, n, c) == After(SegmentsOf(files)[n], c) {
      TailOfSegment(files, n, c);
    }
    TailsOfListing(files, SegmentsOf(files), starts, |starts|, c);
    UptoAll(SegmentsOf(files), starts);
    assert starts[..|starts|] == starts;
  }

  /* --------------------------------- theorems ------------------------------- */

  /** The stray's own file is never read; the segment of its number is there instead
      and has nothing above `c`. */
  ghost predicate Mute(name: string, files: Files, c: nat) {
    Stray(name) ==>
      var n := ParseSegmentStartSeq(name).value; Openable(files, n) && Tail(files, n, c) == []
  }

  lemma {:induction false} ExtraIsZeroIff(names: seq<string>, files: Files, c: nat)
    ensures Extra(names, files, c) == 0 <==>
      forall name :: name in names && Stray(name) ==> Tail(files, ParseSegmentStartSeq(name).value, c) == []
  {
    if names != [] {
      var init, last := names[..|names| - 1], names[|names| - 1];
      ExtraIsZeroIff(init, files, c);
      assert names == init + [last];
      assert last in names;
    }
  }

  lemma OpenableIff(names: seq<string>, files: Files)
    requires Lists(names, files)
    ensures AllOpenable(files, Starts(names)) <==>
      forall name :: name in names && Stray(name) ==> Openable(files, ParseSegmentStartSeq(name).value)
  {
    StartsFacts(names);
    forall name | name in names && ParseSegmentStartSeq(name).Some? && !Stray(name)
      ensures Openable(files, ParseSegmentStartSeq(name).value)
    {
      assert Canonical(name);
    }
    if AllOpenable(files, Starts(names)) {
      forall name | name in names && Stray(name) ensures Openable(files, ParseSegmentStartSeq(name).value) {
        assert ParseSegmentStartSeq(name).value in Starts(names);
      }
    }
  }

  /** The law of names. Reading the directory back works and yields exactly what the
      program's own segments hold above the checkpoint if and only if every stray name
      has the number of a segment that is there and wholly committed. Otherwise the
      replay fails, or returns records twice. */
  lemma NamedReplayIff(names: seq<string>, files: Files, c: nat)
    requires Lists(names, files)
    ensures NamedReplay(names, files, c) == Some(Replay(SegmentsOf(files), c))
      <==> forall name :: name in names ==> Mute(name, files, c)
  {
    OpenableIff(names, files);
    ReplayLength(names, files, c);
    ExtraIsZeroIff(names, files, c);
    ProperReplays(names, files, c);
    if Extra(names, files, c) == 0 {
      SameFull(names, files, c);
      FullIsEnough(files, Starts(names), c);
      FullIsEnough(files, Starts(Proper(names)), c);
    }
  }

  /** In particular, a directory with the program's own names only is read as the model
      reads it. */
  lemma OwnNamesReplay(names: seq<string>, files: Files, c: nat)
    requires Lists(names, files) && forall name :: name in names ==> !Stray(name)
    ensures NamedReplay(names, files, c) == Some(Replay(SegmentsOf(files), c))
  {
    NamedReplayIff(names, files, c);
  }

  /** The same number without its leading zeros. */
  const SHORT := "segment-1.ndjson"

  lemma ShortNameIsStray()
    ensures ParseSegmentStartSeq(SHORT) == Some(1) && Stray(SHORT)
  {
    var digits := "1";
    assert Spelled(digits) == SHORT;
    assert digits[..0] == "" && Decimal("") == 0 && Decimal(digits) == 1;
    ParseSpelled(digits);
    EnoughDigits();
    PaddedRoundTrip(1, WIDTH);
    assert |SegmentFileName(1)| == |PREFIX| + WIDTH + |SUFFIX|;
  }

  /** A file of that name beside the segment it is taken for: a replay from the start
      returns the segment's records twice. Without the segment it fails. */
  lemma ShortNameExample(rs: seq<Record>)
    requires rs != [] && forall r :: r in rs ==> r.seqNo > 0
    ensures var own := SegmentFileName(1);
      && NamedReplay([SHORT], map[SHORT := rs], 0) == None
      && NamedReplay([SHORT, own], map[SHORT := [], own := rs], 0) == Some(rs + rs)
  {
    ShortNameIsStray();
    NameRoundTrip(1);
    var own := SegmentFileName(1);
    StartsOfTwo(own);
    AfterAll(rs, 0);
    var files := map[SHORT := [], own := rs];
    assert [1, 1][1..] == [1] && [1][1..] == [];
    assert Tails(files, [], 0) == [] && Tails(files, [1], 0) == Tail(files, 1, 0) + [] == rs;
    assert Tails(files, [1, 1], 0) == rs + rs;
    assert 1 in Starts([SHORT]);
  }

  lemma StartsOfTwo(own: string)
    requires ParseSegmentStartSeq(SHORT) == Some(1) && ParseSegmentStartSeq(own) == Some(1)
    ensures Starts([SHORT]) == [1] && Starts([SHORT, own]) == [1, 1]
  {
    hide ParseSegmentStartSeq;
    StartsSnoc([SHORT]);
    StartsSnoc([SHORT, own]);
    assert [SHORT][..0] == [] && [SHORT, own][..1] == [SHORT];
    assert Starts([]) == [];
    assert Insert(1, []) == [1];
    assert [1][1..] == [];
    assert Insert(1, [1]) == [1] + Insert(1, []) == [1, 1];
  }
}
