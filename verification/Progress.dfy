// Who can wait for whom: unfinished requests that cannot step contain a ring of
// conversions on one wallet whose from/to currencies chain back to the start.
module Progress {
  import opened WalletLedger
  import opened LockMachine
  import opened Serializability
  import opened Rings

  // ---------- Waiting ----------

  /** A request about to append its record waits at most for one that is about to commit. */
  lemma AppendWaitsForCommit(s: State, i: nat, j: nat)
    requires Inv(s) && WaitsFor(s, i, j) && s.procs[i].pc == Append
    ensures s.procs[j].pc == Commit && Wants(s.db, s.procs[j]) == {}
  {
  }

  /** A request about to write waits at most for one that has written. */
  lemma WriteWaitsForWritten(s: State, i: nat, j: nat)
    requires Inv(s) && WaitsFor(s, i, j) && s.procs[i].pc == Write
    ensures s.procs[j].pc in {Append, Commit}
  {
  }

  /** Nobody else holds rows of a wallet that is still uncommitted. */
  lemma NewWalletWaitsOnlyToAppend(s: State, i: nat, j: nat)
    requires Inv(s) && WaitsFor(s, i, j) && s.procs[i].newWallet
    ensures s.procs[i].pc == Append
  {
  }

  lemma WaiterWants(s: State, i: nat, j: nat)
    requires WaitsFor(s, i, j)
    ensures Wants(s.db, s.procs[i]) != {} && Held(s.procs[j]) != {} && s.procs[i].pc != Commit
  {
  }

  /** Whoever waits while others wait behind and ahead of it is not yet about to append. */
  lemma NotAtAppend(s: State, i: nat, j: nat, k: nat)
    requires Inv(s) && WaitsFor(s, i, j) && WaitsFor(s, j, k)
    ensures s.procs[i].pc != Append && s.procs[j].pc != Commit
  {
    WaiterWants(s, j, k);
    if s.procs[i].pc == Append { AppendWaitsForCommit(s, i, j); }
  }

  lemma NotAtWrite(s: State, i: nat, j: nat, k: nat, m: nat)
    requires Inv(s) && WaitsFor(s, i, j) && WaitsFor(s, j, k) && WaitsFor(s, k, m)
    ensures s.procs[i].pc != Write
  {
    NotAtAppend(s, j, k, m);
    if s.procs[i].pc == Write { WriteWaitsForWritten(s, i, j); }
  }

  lemma NotNewWallet(s: State, i: nat, j: nat, k: nat)
    requires Inv(s) && WaitsFor(s, i, j) && WaitsFor(s, j, k)
    ensures !s.procs[i].newWallet
  {
    NotAtAppend(s, i, j, k);
    if s.procs[i].newWallet { NewWalletWaitsOnlyToAppend(s, i, j); }
  }

  lemma EarlyHolderIsLocker(db: Ledger, p: Proc)
    requires ProcOk(db, p) && Held(p) != {} && Wants(db, p) != {} && !p.newWallet && p.pc !in {Write, Append}
    ensures p.req.Convert? && p.pc == LockTo && Held(p) == {RowLock(FirstKey(p))}
  {
  }

  /** Someone in the middle of a long enough chain of waiting is a conversion that wants its `to` row. */
  lemma MiddleOfChain(s: State, i: nat, j: nat, k: nat, m: nat, n: nat)
    requires Inv(s) && WaitsFor(s, i, j) && WaitsFor(s, j, k) && WaitsFor(s, k, m) && WaitsFor(s, m, n)
    ensures s.procs[j].req.Convert? && s.procs[j].pc == LockTo
    ensures Held(s.procs[j]) == {RowLock(FirstKey(s.procs[j]))}
  {
    NotAtAppend(s, j, k, m);
    NotAtWrite(s, j, k, m, n);
    NotNewWallet(s, j, k, m);
    WaiterWants(s, i, j);
    WaiterWants(s, j, k);
    EarlyHolderIsLocker(s.db, s.procs[j]);
  }

  // ---------- Deadlock ----------

  function Waiting(s: State): (nat, nat) -> bool {
    (i: nat, j: nat) => WaitsFor(s, i, j)
  }

  /** a wants the row b locked first, on the same wallet. */
  predicate Chained(a: Proc, b: Proc) {
    && a.req.Convert? && b.req.Convert? && a.pc == LockTo && b.pc == LockTo
    && a.wallet == b.wallet && a.req.user == b.req.user && a.req.to == b.req.from
  }

  lemma Follows(s: State, ring: seq<nat>, k: nat)
    requires Ring(Waiting(s), ring) && k < |ring|
    ensures WaitsFor(s, ring[k], ring[After(k, |ring|)])
  {
    assert Link(Waiting(s), ring, k);
  }

  /** Deadlocked requests are conversions of one wallet whose currencies close a ring; funding is never among them. */
  lemma RingShape(s: State, ring: seq<nat>, k: nat)
    requires Inv(s) && Ring(Waiting(s), ring) && k < |ring|
    ensures ring[k] < |s.procs| && ring[After(k, |ring|)] < |s.procs|
    ensures Chained(s.procs[ring[k]], s.procs[ring[After(k, |ring|)]])
  {
    var h, j, m, n, o := RingAround(Waiting(s), ring, k);
    RingPair(s, h, ring[k], j, m, n, o);
  }

  lemma RingPair(s: State, h: nat, i: nat, j: nat, k: nat, m: nat, n: nat)
    requires Inv(s) && WaitsFor(s, h, i) && WaitsFor(s, i, j) && WaitsFor(s, j, k) && WaitsFor(s, k, m) && WaitsFor(s, m, n)
    ensures i < |s.procs| && j < |s.procs| && Chained(s.procs[i], s.procs[j])
  {
    MiddleOfChain(s, h, i, j, k, m);
    MiddleOfChain(s, i, j, k, m, n);
    ChainedPair(s, i, j);
  }

  lemma ChainedPair(s: State, i: nat, j: nat)
    requires Inv(s) && WaitsFor(s, i, j)
    requires s.procs[i].req.Convert? && s.procs[i].pc == LockTo && s.procs[j].req.Convert? && s.procs[j].pc == LockTo
    requires Held(s.procs[j]) == {RowLock(FirstKey(s.procs[j]))}
    ensures Chained(s.procs[i], s.procs[j])
  {
    var x :| x in Wants(s.db, s.procs[i]) * Held(s.procs[j]);
    assert SecondKey(s.procs[i]) == FirstKey(s.procs[j]);
    SameWalletSameUser(s.db, s.procs[i], s.procs[j]);
  }

  lemma SameWalletSameUser(db: Ledger, p: Proc, q: Proc)
    requires Consistent(db) && ProcOk(db, p) && ProcOk(db, q) && p.wallet == q.wallet
    requires p.req.Convert? && p.pc == LockTo && q.req.Convert? && q.pc == LockTo
    ensures p.req.user == q.req.user
  {
  }

  /** Nobody in a ring can step. */
  lemma RingIsStuck(s: State, ring: seq<nat>, k: nat)
    requires Ring(Waiting(s), ring) && k < |ring|
    ensures !CanAdvance(s, ring[k])
  {
    Follows(s, ring, k);
  }

  ghost predicate NobodyCanAdvance(s: State) {
    forall j: nat :: !CanAdvance(s, j)
  }

  /** When unfinished requests remain, either one of them can step or some of them form a ring. */
  lemma DeadlockIsRing(s: State, i: nat) returns (ring: seq<nat>)
    requires i < |s.procs| && Active(s.procs[i]) && NobodyCanAdvance(s)
    ensures Ring(Waiting(s), ring)
  {
    AllUnfinishedBlocked(s);
    ring := RingFrom(Waiting(s), Unfinished(s), |s.procs|, i);
  }

  lemma AllUnfinishedBlocked(s: State)
    requires NobodyCanAdvance(s)
    ensures EveryoneWaits(Waiting(s), Unfinished(s), |s.procs|)
  {
    forall j | j in Unfinished(s) ensures WaitsForOneOf(Waiting(s), j, Unfinished(s)) {
      assert !CanAdvance(s, j);
      BlockerIsUnfinished(s, j);
    }
  }

  function Unfinished(s: State): set<nat> {
    set j: nat | j < |s.procs| && Active(s.procs[j])
  }

  lemma HolderIsActive(p: Proc)
    requires Held(p) != {}
    ensures Active(p)
  {
  }

  lemma WaitedForHolds(s: State, j: nat, k: nat)
    requires WaitsFor(s, j, k)
    ensures k < |s.procs| && Held(s.procs[k]) != {}
  {
  }

  lemma BlockerIsUnfinished(s: State, j: nat)
    requires Blocked(s, j)
    ensures WaitsForOneOf(Waiting(s), j, Unfinished(s))
  {
    var k: nat :| k < |s.procs| && WaitsFor(s, j, k);
    WaitedForHolds(s, j, k);
    HolderIsActive(s.procs[k]);
    OneOf(Waiting(s), j, k, Unfinished(s));
  }

  lemma OneOf(waits: (nat, nat) -> bool, j: nat, k: nat, left: set<nat>)
    requires k in left && waits(j, k)
    ensures WaitsForOneOf(waits, j, left)
  {
  }

  // ---------- Every run ends ----------

  function TotalRemaining(procs: seq<Proc>): nat {
    if procs == [] then 0 else TotalRemaining(procs[..|procs| - 1]) + Steps(procs[|procs| - 1])
  }

  lemma {:induction false} RemainingUpdate(procs: seq<Proc>, i: nat, p: Proc)
    requires i < |procs|
    ensures TotalRemaining(procs[i := p]) == TotalRemaining(procs) - Steps(procs[i]) + Steps(p)
  {
    var front := procs[..|procs| - 1];
    if i == |procs| - 1 {
      assert procs[i := p][..|procs| - 1] == front;
    } else {
      RemainingUpdate(front, i, p);
      assert procs[i := p][..|procs| - 1] == front[i := p];
    }
  }

  lemma OneDecreases(procs: seq<Proc>, i: nat, p: Proc)
    requires i < |procs| && Steps(p) < Steps(procs[i])
    ensures TotalRemaining(procs[i := p]) < TotalRemaining(procs)
  {
    RemainingUpdate(procs, i, p);
  }

  lemma StepDecreases(s: State, e: Event)
    requires Inv(s) && Step(s, e).Some?
    ensures TotalRemaining(Step(s, e).value.procs) < TotalRemaining(s.procs)
  {
    match e
    case Advance(i) =>
      NextDecreases(s.db, s.procs[i]);
      OneDecreases(s.procs, i, Next(s.db, s.procs[i]));
    case Abort(i) =>
      OneDecreases(s.procs, i, Fail(s.procs[i], Aborted));
  }

  /** No run of a batch is longer than its requests' remaining steps. */
  lemma {:induction false} RunsAreFinite(s: State, events: seq<Event>)
    requires Inv(s) && Run(s, events).Some?
    ensures |events| + TotalRemaining(Run(s, events).value.procs) <= TotalRemaining(s.procs)
  {
    if events != [] {
      RunsAreFinite(s, events[..|events| - 1]);
      RunKeepsInv(s, events[..|events| - 1]);
      StepDecreases(Run(s, events[..|events| - 1]).value, events[|events| - 1]);
    }
  }
}
