// Rings in a finite waiting relation.
module Rings {
  import opened Wrappers

  function After(k: nat, n: nat): nat
    requires k < n
  {
    if k + 1 < n then k + 1 else 0
  }

  predicate Link(waits: (nat, nat) -> bool, ring: seq<nat>, k: nat)
    requires k < |ring|
  {
    waits(ring[k], ring[After(k, |ring|)])
  }

  /** Everyone in the ring waits for the one after. */
  ghost predicate Ring(waits: (nat, nat) -> bool, ring: seq<nat>) {
    |ring| > 0 && forall k: nat :: k < |ring| ==> Link(waits, ring, k)
  }

  function Below(n: nat): (s: set<nat>)
    ensures |s| == n && forall x: nat :: x in s <==> x < n
  {
    if n == 0 then {} else Below(n - 1) + {n - 1}
  }

  function Elements(path: seq<nat>): (s: set<nat>)
    ensures forall x :: x in s <==> x in path
  {
    if path == [] then {} else Elements(path[..|path| - 1]) + {path[|path| - 1]}
  }

  lemma {:induction false} DistinctCount(path: seq<nat>)
    requires Distinct(path)
    ensures |Elements(path)| == |path|
  {
    if path != [] {
      DistinctCount(path[..|path| - 1]);
      assert path[|path| - 1] !in path[..|path| - 1];
    }
  }

  lemma SubsetCount(a: set<nat>, b: set<nat>)
    requires a <= b
    ensures |a| <= |b|
  {
    assert b == a + (b - a);
  }

  lemma DistinctBounded(path: seq<nat>, n: nat)
    requires Distinct(path) && forall x :: x in path ==> x < n
    ensures |path| <= n
  {
    DistinctCount(path);
    SubsetCount(Elements(path), Below(n));
  }

  /** A path of different nodes in which each waits for the next. */
  ghost predicate Path(waits: (nat, nat) -> bool, path: seq<nat>) {
    && |path| > 0 && Distinct(path)
    && forall k: nat :: k < |path| - 1 ==> Link(waits, path, k)
  }

  ghost predicate WaitsForOneOf(waits: (nat, nat) -> bool, i: nat, left: set<nat>) {
    exists j :: j in left && waits(i, j)
  }

  ghost predicate Within(path: seq<nat>, left: set<nat>) {
    forall x :: x in path ==> x in left
  }

  ghost predicate EveryoneWaits(waits: (nat, nat) -> bool, left: set<nat>, n: nat) {
    forall i :: i in left ==> i < n && WaitsForOneOf(waits, i, left)
  }

  /** When everyone left waits for someone left, following the waiting closes a ring of different members. */
  lemma {:induction false} FindRing(waits: (nat, nat) -> bool, left: set<nat>, n: nat, path: seq<nat>) returns (ring: seq<nat>)
    requires EveryoneWaits(waits, left, n) && Path(waits, path) && Within(path, left)
    ensures Ring(waits, ring) && Distinct(ring) && Within(ring, left)
    decreases n - |path|
  {
    var next := NextBlocker(waits, left, n, path[|path| - 1]);
    if next in path {
      ring := ClosedAt(waits, path, next);
    } else {
      ExtendPath(waits, path, next);
      ExtendWithin(waits, left, n, path, next);
      ring := FindRing(waits, left, n, path + [next]);
    }
  }

  lemma NextBlocker(waits: (nat, nat) -> bool, left: set<nat>, n: nat, i: nat) returns (next: nat)
    requires EveryoneWaits(waits, left, n) && i in left
    ensures next in left && waits(i, next)
  {
    assert WaitsForOneOf(waits, i, left);
    next :| next in left && waits(i, next);
  }

  lemma ClosedAt(waits: (nat, nat) -> bool, path: seq<nat>, next: nat) returns (ring: seq<nat>)
    requires Path(waits, path) && next in path && waits(path[|path| - 1], next)
    ensures Ring(waits, ring) && Distinct(ring) && forall x :: x in ring ==> x in path
  {
    var start: nat :| start < |path| && path[start] == next;
    CloseRing(waits, path, start);
    ring := path[start..];
  }

  lemma RingFrom(waits: (nat, nat) -> bool, left: set<nat>, n: nat, start: nat) returns (ring: seq<nat>)
    requires start in left && EveryoneWaits(waits, left, n)
    ensures Ring(waits, ring) && Distinct(ring) && Within(ring, left)
  {
    ring := FindRing(waits, left, n, [start]);
  }

  lemma ExtendWithin(waits: (nat, nat) -> bool, left: set<nat>, n: nat, path: seq<nat>, next: nat)
    requires EveryoneWaits(waits, left, n) && Within(path, left) && next in left && Distinct(path + [next])
    ensures Within(path + [next], left) && |path| < n
  {
    DistinctBounded(path + [next], n);
  }

  lemma CloseRing(waits: (nat, nat) -> bool, path: seq<nat>, start: nat)
    requires Path(waits, path) && start < |path| && waits(path[|path| - 1], path[start])
    ensures Ring(waits, path[start..])
  {
    var ring := path[start..];
    forall k: nat | k < |ring| ensures Link(waits, ring, k) {
      if k + 1 < |ring| { assert Link(waits, path, start + k); }
    }
  }

  lemma ExtendPath(waits: (nat, nat) -> bool, path: seq<nat>, next: nat)
    requires Path(waits, path) && next !in path && waits(path[|path| - 1], next)
    ensures Path(waits, path + [next])
  {
    var longer := path + [next];
    forall k: nat | k < |longer| - 1 ensures Link(waits, longer, k) {
      if k < |path| - 1 { assert Link(waits, path, k); }
    }
  }

  /** Six members in a row, the second of them the k-th. */
  lemma RingAround(waits: (nat, nat) -> bool, ring: seq<nat>, k: nat) returns (h: nat, j: nat, m: nat, n: nat, o: nat)
    requires Ring(waits, ring) && k < |ring|
    ensures waits(h, ring[k]) && waits(ring[k], j) && waits(j, m) && waits(m, n) && waits(n, o)
    ensures j == ring[After(k, |ring|)]
  {
    var before := if k == 0 then |ring| - 1 else k - 1;
    var k1 := After(k, |ring|);
    var k2 := After(k1, |ring|);
    var k3 := After(k2, |ring|);
    assert Link(waits, ring, before) && Link(waits, ring, k) && Link(waits, ring, k1) && Link(waits, ring, k2) && Link(waits, ring, k3);
    h, j, m, n, o := ring[before], ring[k1], ring[k2], ring[k3], ring[After(k3, |ring|)];
  }

  /** Going round a ring only once: its members close a ring of different ones. */
  lemma Simplify(waits: (nat, nat) -> bool, ring: seq<nat>, n: nat) returns (once: seq<nat>)
    requires Ring(waits, ring) && forall k: nat :: k < |ring| ==> ring[k] < n
    ensures Ring(waits, once) && Distinct(once) && Within(once, Elements(ring))
  {
    forall i | i in Elements(ring) ensures i < n && WaitsForOneOf(waits, i, Elements(ring)) {
      var k: nat :| k < |ring| && ring[k] == i;
      assert Link(waits, ring, k);
    }
    once := RingFrom(waits, Elements(ring), n, ring[0]);
  }
}
