/** The values that travel through the ingest pipeline, the knobs that shape it,
    and the few list facts every later module leans on. */
module Ingest {

  datatype Option<+T> = None | Some(value: T)

  /** A normalized location event. `timestamp` is in whole time units and
      `ZERO_TIME` stands for the unset time; the optional sensor readings ride
      along untouched in the program and are not represented. */
  datatype Point = Point(
    userId: int,
    deviceId: string,
    sourceType: string,
    timestamp: int,
    lat: real,
    lon: real,
    payload: string,
    hash: string)

  const ZERO_TIME: int := 0

  /** The unit written to the spool. A `checkpointOnly` record moves the
      checkpoint but is never inserted into the database. */
  datatype Record = Record(seqNo: nat, deviceId: string, point: Point, checkpointOnly: bool)

  /** Limits of the pipeline, together with the three library computations the
      model keeps abstract: the length of a record's JSON line, the distance
      between two coordinates and the identity hash of a point. */
  datatype Config = Config(
    maxPoints: nat,
    maxBytes: nat,
    dedupeTime: nat,
    dedupeDistance: real,
    segmentMaxBytes: int,
    batchSize: nat,
    lineBytes: Record -> nat,
    distance: (real, real, real, real) -> real,
    hashOf: Point -> string)

  /** Sequence numbers strictly increase along the list. */
  ghost predicate Increasing(rs: seq<Record>) {
    forall i, j :: 0 <= i < j < |rs| ==> rs[i].seqNo < rs[j].seqNo
  }

  lemma IncreasingConcat(a: seq<Record>, b: seq<Record>, n: nat)
    requires Increasing(a) && Increasing(b)
    requires forall r :: r in a ==> r.seqNo < n
    requires forall r :: r in b ==> r.seqNo >= n
    ensures Increasing(a + b)
  {
    var c := a + b;
    forall i, j | 0 <= i < j < |c| ensures c[i].seqNo < c[j].seqNo {
      if i < |a| { assert c[i] in a; }
      if j >= |a| { assert c[j] in b; }
    }
  }

  lemma IncreasingSameNumbers(a: seq<Record>, b: seq<Record>)
    requires |a| == |b| && forall i :: 0 <= i < |a| ==> a[i].seqNo == b[i].seqNo
    requires Increasing(a)
    ensures Increasing(b)
  {
  }

  function MaxSeqNo(rs: seq<Record>): nat {
    if rs == [] then 0
    else
      var before := MaxSeqNo(rs[..|rs| - 1]);
      if rs[|rs| - 1].seqNo > before then rs[|rs| - 1].seqNo else before
  }

  function TotalBytes(f: Record -> nat, rs: seq<Record>): nat {
    if rs == [] then 0 else TotalBytes(f, rs[..|rs| - 1]) + f(rs[|rs| - 1])
  }

  function Flatten<T>(xss: seq<seq<T>>): seq<T> {
    if xss == [] then [] else xss[0] + Flatten(xss[1..])
  }

  lemma {:induction false} MaxSeqNoBounds(rs: seq<Record>)
    ensures forall r :: r in rs ==> r.seqNo <= MaxSeqNo(rs)
    ensures rs != [] ==> exists r :: r in rs && r.seqNo == MaxSeqNo(rs)
  {
    if rs != [] {
      var init, last := rs[..|rs| - 1], rs[|rs| - 1];
      MaxSeqNoBounds(init);
      assert rs == init + [last];
      assert last in rs;
    }
  }

  /** On an increasing list the maximum is the last element. */
  lemma MaxSeqNoOfIncreasing(rs: seq<Record>)
    requires Increasing(rs) && rs != []
    ensures MaxSeqNo(rs) == rs[|rs| - 1].seqNo
  {
    MaxSeqNoBounds(rs);
    var r :| r in rs && r.seqNo == MaxSeqNo(rs);
    assert rs[|rs| - 1] in rs;
  }

  lemma {:induction false} TotalBytesConcat(f: Record -> nat, a: seq<Record>, b: seq<Record>)
    ensures TotalBytes(f, a + b) == TotalBytes(f, a) + TotalBytes(f, b)
  {
    if b == [] {
      assert a + b == a;
    } else {
      TotalBytesConcat(f, a, b[..|b| - 1]);
      assert (a + b)[..|a + b| - 1] == a + b[..|b| - 1];
    }
  }

  lemma TotalBytesSplit(f: Record -> nat, rs: seq<Record>, k: nat)
    requires k <= |rs|
    ensures TotalBytes(f, rs) == TotalBytes(f, rs[..k]) + TotalBytes(f, rs[k..])
  {
    TotalBytesConcat(f, rs[..k], rs[k..]);
    assert rs[..k] + rs[k..] == rs;
  }

  lemma {:induction false} FlattenConcat<T>(a: seq<seq<T>>, b: seq<seq<T>>)
    ensures Flatten(a + b) == Flatten(a) + Flatten(b)
  {
    if a == [] {
      assert a + b == b;
    } else {
      FlattenConcat(a[1..], b);
      assert (a + b)[1..] == a[1..] + b;
      assert a[0] + (Flatten(a[1..]) + Flatten(b)) == (a[0] + Flatten(a[1..])) + Flatten(b);
    }
  }

  lemma FlattenSnoc<T>(xss: seq<seq<T>>, x: seq<T>)
    ensures Flatten(xss + [x]) == Flatten(xss) + x
  {
    FlattenConcat(xss, [x]);
    assert Flatten([x]) == x + Flatten([]);
  }
}
