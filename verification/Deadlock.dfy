// When requests can deadlock: exactly when conversions of one user that pass their
// checks close a from/to cycle. Every other batch can always be carried to its end.
module Deadlock {
  import opened Wrappers
  import opened Currencies
  import opened WalletLedger
  import opened LockMachine
  import opened Reachability
  import opened Serializability
  import opened Rings
  import opened Progress

  // ---------- Cycles of requests ----------

  /** A conversion that passes its checks, for an amount some row can cover. */
  predicate Lockable(r: Request) {
    r.Convert? && Validate(Genesis({r.user}), r).None? && |r.from| <= CODE_LENGTH && r.amount <= MOST
  }

  /** One of a cycle's members: a conversion of the same user. */
  predicate Member(requests: seq<Request>, cycle: seq<nat>, k: nat)
    requires k < |cycle|
  {
    && cycle[k] < |requests| && cycle[0] < |requests|
    && Lockable(requests[cycle[k]]) && requests[cycle[k]].user == requests[cycle[0]].user
  }

  /** It converts into the currency the next one converts from. */
  predicate Feeds(requests: seq<Request>, cycle: seq<nat>, k: nat)
    requires k < |cycle| && cycle[k] < |requests| && requests[cycle[k]].Convert?
  {
    var next := cycle[After(k, |cycle|)];
    next < |requests| && requests[next].Convert? && requests[cycle[k]].to == requests[next].from
  }

  /** Conversions of one user out of different currencies, each into the currency the next one converts from. */
  ghost predicate Closes(requests: seq<Request>, cycle: seq<nat>) {
    && |cycle| > 0
    && (forall k: nat {:trigger cycle[k]} :: k < |cycle| ==> Member(requests, cycle, k))
    && (forall k: nat :: k < |cycle| ==> Feeds(requests, cycle, k))
    && (forall j: nat, k: nat :: j < k < |cycle| ==> requests[cycle[j]].from != requests[cycle[k]].from)
  }

  ghost predicate HasCycle(requests: seq<Request>) {
    exists cycle :: Closes(requests, cycle)
  }

  /** These steps take these requests into a ring. */
  ghost predicate DeadlockAt(db: Ledger, requests: seq<Request>, events: seq<Event>, ring: seq<nat>) {
    && Reachable(db) && Run(Initial(db, requests), events).Some?
    && Ring(Waiting(Run(Initial(db, requests), events).value), ring)
  }

  ghost predicate CanDeadlock(requests: seq<Request>) {
    exists db, events, ring :: DeadlockAt(db, requests, events, ring)
  }

  // ---------- A ring is a cycle ----------

  function Asked(s: State): seq<Request> {
    seq(|s.procs|, i requires 0 <= i < |s.procs| => s.procs[i].req)
  }

  lemma StepKeepsStorable(s: State, e: Event)
    requires Inv(s) && Storable(s.db) && Step(s, e).Some?
    ensures Storable(Step(s, e).value.db)
  {
    StepIsAtomic(s, e);
    if CommittedBy(s, e) != [] { ExecuteStorable(s.db, s.procs[e.i].req); }
  }

  lemma {:induction false} RunKeepsStorable(s: State, events: seq<Event>)
    requires Inv(s) && Storable(s.db) && Run(s, events).Some?
    ensures Storable(Run(s, events).value.db)
  {
    if events != [] {
      var front := events[..|events| - 1];
      RunKeepsStorable(s, front);
      RunKeepsInv(s, front);
      StepKeepsStorable(Run(s, front).value, events[|events| - 1]);
    }
  }

  /** A conversion that locked its `from` row passed its checks and found the amount there. */
  lemma LockerIsLockable(db: Ledger, p: Proc)
    requires ProcOk(db, p) && Storable(db) && p.req.Convert? && p.pc == LockTo
    ensures Lockable(p.req)
  {
    GridBelowMost(db.balances[FirstKey(p)]);
  }

  /** Two requests never hold a user's row in the same currency. */
  lemma LockersDiffer(s: State, i: nat, j: nat)
    requires Inv(s) && i < |s.procs| && j < |s.procs| && i != j
    requires var p, q := s.procs[i], s.procs[j];
             p.req.Convert? && q.req.Convert? && p.pc == LockTo && q.pc == LockTo && p.req.user == q.req.user
    ensures s.procs[i].req.from != s.procs[j].req.from
  {
    var p, q := s.procs[i], s.procs[j];
    assert RowLock(FirstKey(p)) in Held(p) && RowLock(FirstKey(q)) in Held(q);
  }

  lemma {:induction false} RingOfOneUser(s: State, ring: seq<nat>, k: nat)
    requires Inv(s) && Ring(Waiting(s), ring) && k < |ring|
    ensures ring[k] < |s.procs| && ring[0] < |s.procs|
    ensures s.procs[ring[k]].req.user == s.procs[ring[0]].req.user
  {
    RingShape(s, ring, k);
    if k > 0 {
      RingOfOneUser(s, ring, k - 1);
      RingShape(s, ring, k - 1);
    }
  }

  lemma RingMember(s: State, ring: seq<nat>, k: nat)
    requires Inv(s) && Storable(s.db) && Ring(Waiting(s), ring) && k < |ring|
    ensures ring[k] in Unfinished(s) && Member(Asked(s), ring, k) && Feeds(Asked(s), ring, k)
  {
    RingShape(s, ring, k);
    RingOfOneUser(s, ring, k);
    LockerIsLockable(s.db, s.procs[ring[k]]);
  }

  lemma RingMembersDiffer(s: State, ring: seq<nat>, j: nat, k: nat)
    requires Inv(s) && Ring(Waiting(s), ring) && Distinct(ring) && j < k < |ring|
    ensures ring[j] < |s.procs| && ring[k] < |s.procs|
    ensures s.procs[ring[j]].req.Convert? && s.procs[ring[k]].req.Convert?
    ensures s.procs[ring[j]].req.from != s.procs[ring[k]].req.from
  {
    RingShape(s, ring, j);
    RingShape(s, ring, k);
    RingOfOneUser(s, ring, j);
    RingOfOneUser(s, ring, k);
    LockersDiffer(s, ring[j], ring[k]);
  }

  /** The requests in a ring close a cycle. */
  lemma RingIsCycle(s: State, ring: seq<nat>)
    requires Inv(s) && Storable(s.db) && Ring(Waiting(s), ring) && Distinct(ring)
    ensures Closes(Asked(s), ring) && Within(ring, Unfinished(s))
  {
    forall k: nat | k < |ring|
      ensures ring[k] in Unfinished(s) && Member(Asked(s), ring, k) && Feeds(Asked(s), ring, k)
    {
      RingMember(s, ring, k);
    }
    forall j: nat, k: nat | j < k < |ring| ensures Asked(s)[ring[j]].from != Asked(s)[ring[k]].from {
      RingMembersDiffer(s, ring, j, k);
    }
  }

  lemma AnyRingIsCycle(s: State, ring: seq<nat>) returns (cycle: seq<nat>)
    requires Inv(s) && Storable(s.db) && Ring(Waiting(s), ring)
    ensures Closes(Asked(s), cycle) && Within(cycle, Unfinished(s))
  {
    forall k: nat | k < |ring| ensures ring[k] < |s.procs| { RingShape(s, ring, k); }
    cycle := Simplify(Waiting(s), ring, |s.procs|);
    RingIsCycle(s, cycle);
  }

  // ---------- A cycle becomes a ring ----------

  function Froms(requests: seq<Request>, cycle: seq<nat>): seq<Currency>
    requires Closes(requests, cycle)
  {
    seq(|cycle|, k requires 0 <= k < |cycle| => requests[cycle[k]].from)
  }

  /** The user of the cycle holds as much as fits of each of its currencies. */
  function Rich(requests: seq<Request>, cycle: seq<nat>): Ledger
    requires Closes(requests, cycle)
  {
    Pockets(requests[cycle[0]].user, Froms(requests, cycle), MOST, "")
  }

  lemma RichIsReachable(requests: seq<Request>, cycle: seq<nat>)
    requires Closes(requests, cycle)
    ensures Reachable(Rich(requests, cycle))
  {
    MostIsFundable();
    PocketsReachable(requests[cycle[0]].user, Froms(requests, cycle), MOST, "");
  }

  lemma RichRow(requests: seq<Request>, cycle: seq<nat>, k: nat)
    requires Closes(requests, cycle) && k < |cycle|
    ensures var db, r := Rich(requests, cycle), requests[cycle[k]];
            && r.user in db.users && r.user in db.wallets && db.wallets[r.user] == 0
            && Row(db, (0, r.from)) == Some(MOST)
  {
    assert Froms(requests, cycle)[k] == requests[cycle[k]].from;
    PocketRows(requests[cycle[0]].user, Froms(requests, cycle), MOST, "", (0, requests[cycle[k]].from));
  }

  function Finder(r: Request): Proc {
    Proc(r, LockFirst, 0, false, None, None)
  }

  function Locker(r: Request): Proc {
    Proc(r, LockTo, 0, false, Some(MOST), None)
  }

  /** The first two steps of a conversion that finds its wallet and its `from` row. */
  lemma TwoSteps(db: Ledger, r: Request)
    requires Lockable(r) && r.user in db.users && r.user in db.wallets && db.wallets[r.user] == 0
    requires Row(db, (0, r.from)) == Some(MOST)
    ensures Next(db, Begin(r)) == Finder(r) && Next(db, Finder(r)) == Locker(r)
    ensures Wants(db, Begin(r)) == {} && Wants(db, Finder(r)) == {RowLock((0, r.from))}
    ensures Held(Begin(r)) == Held(Finder(r)) == {} && Held(Locker(r)) == {RowLock((0, r.from))}
  {
  }

  lemma CycleSteps(requests: seq<Request>, cycle: seq<nat>, k: nat)
    requires Closes(requests, cycle) && k < |cycle|
    ensures var db, r := Rich(requests, cycle), requests[cycle[k]];
            && Next(db, Begin(r)) == Finder(r) && Next(db, Finder(r)) == Locker(r)
            && Wants(db, Begin(r)) == {} && Wants(db, Finder(r)) == {RowLock((0, r.from))}
            && Held(Begin(r)) == Held(Finder(r)) == {} && Held(Locker(r)) == {RowLock((0, r.from))}
  {
    RichRow(requests, cycle, k);
    TwoSteps(Rich(requests, cycle), requests[cycle[k]]);
  }

  /** The first m requests of the cycle hold their `from` rows; nobody else has started. */
  function Lined(requests: seq<Request>, cycle: seq<nat>, m: nat): State
    requires Closes(requests, cycle) && m <= |cycle|
  {
    State(Rich(requests, cycle),
          seq(|requests|, i requires 0 <= i < |requests| =>
            if i in cycle[..m] then Locker(requests[i]) else Begin(requests[i])))
  }

  /** One unblocked step of a request, the tables unchanged. */
  lemma QuietStep(s: State, i: nat, p: Proc)
    requires i < |s.procs| && Active(s.procs[i]) && s.procs[i].pc != Commit && Next(s.db, s.procs[i]) == p
    requires forall j :: 0 <= j < |s.procs| && j != i ==> Wants(s.db, s.procs[i]) * Held(s.procs[j]) == {}
    ensures Step(s, Advance(i)) == Some(State(s.db, s.procs[i := p]))
  {
    assert !Blocked(s, i);
  }

  /** Nobody in the line holds the row the next in line wants. */
  lemma NextRowIsFree(requests: seq<Request>, cycle: seq<nat>, m: nat, j: nat)
    requires Closes(requests, cycle) && m < |cycle| && j < |requests| && j != cycle[m]
    ensures Held(Lined(requests, cycle, m).procs[j]) * {RowLock((0, requests[cycle[m]].from))} == {}
  {
    if j in cycle[..m] {
      var k: nat :| k < m && cycle[k] == j;
      CycleSteps(requests, cycle, k);
    } else {
      assert Held(Begin(requests[j])) == {};
    }
  }

  lemma NotYetInLine(requests: seq<Request>, cycle: seq<nat>, m: nat)
    requires Closes(requests, cycle) && m < |cycle|
    ensures cycle[m] !in cycle[..m]
  {
  }

  /** The next request has found its wallet. */
  function Found(requests: seq<Request>, cycle: seq<nat>, m: nat): State
    requires Closes(requests, cycle) && m < |cycle|
  {
    var s := Lined(requests, cycle, m);
    s.(procs := s.procs[cycle[m] := Finder(requests[cycle[m]])])
  }

  lemma FindNext(requests: seq<Request>, cycle: seq<nat>, m: nat)
    requires Closes(requests, cycle) && m < |cycle|
    ensures Step(Lined(requests, cycle, m), Advance(cycle[m])) == Some(Found(requests, cycle, m))
  {
    CycleSteps(requests, cycle, m);
    NotYetInLine(requests, cycle, m);
    QuietStep(Lined(requests, cycle, m), cycle[m], Finder(requests[cycle[m]]));
  }

  lemma LockNext(requests: seq<Request>, cycle: seq<nat>, m: nat)
    requires Closes(requests, cycle) && m < |cycle|
    ensures Step(Found(requests, cycle, m), Advance(cycle[m])) == Some(Lined(requests, cycle, m + 1))
  {
    var s, i, r := Found(requests, cycle, m), cycle[m], requests[cycle[m]];
    CycleSteps(requests, cycle, m);
    forall j: nat | j < |s.procs| && j != i
      ensures Wants(s.db, s.procs[i]) * Held(s.procs[j]) == {}
    {
      NextRowIsFree(requests, cycle, m, j);
    }
    QuietStep(s, i, Locker(r));
    LineGrows(requests, cycle, m);
  }

  lemma LineGrows(requests: seq<Request>, cycle: seq<nat>, m: nat)
    requires Closes(requests, cycle) && m < |cycle|
    ensures Found(requests, cycle, m).procs[cycle[m] := Locker(requests[cycle[m]])] == Lined(requests, cycle, m + 1).procs
  {
    assert cycle[..m + 1] == cycle[..m] + [cycle[m]];
    var procs, longer := Found(requests, cycle, m).procs[cycle[m] := Locker(requests[cycle[m]])], Lined(requests, cycle, m + 1).procs;
    forall i | 0 <= i < |requests| ensures procs[i] == longer[i] {
      assert i in cycle[..m + 1] <==> i in cycle[..m] || i == cycle[m];
    }
  }

  /** Two steps for each request in turn. */
  function TwiceEach(order: seq<nat>): seq<Event> {
    if order == [] then []
    else TwiceEach(order[..|order| - 1]) + [Advance(order[|order| - 1])] + [Advance(order[|order| - 1])]
  }

  lemma RunOneMore(s: State, events: seq<Event>, e: Event)
    requires Run(s, events).Some?
    ensures Run(s, events + [e]) == Step(Run(s, events).value, e)
  {
    assert (events + [e])[..|events + [e]| - 1] == events;
  }

  lemma {:induction false} LineUp(requests: seq<Request>, cycle: seq<nat>, m: nat)
    requires Closes(requests, cycle) && m <= |cycle|
    ensures Run(Initial(Rich(requests, cycle), requests), TwiceEach(cycle[..m])) == Some(Lined(requests, cycle, m))
  {
    var s := Initial(Rich(requests, cycle), requests);
    if m == 0 {
      assert s == Lined(requests, cycle, 0);
    } else {
      LineUp(requests, cycle, m - 1);
      FindNext(requests, cycle, m - 1);
      LockNext(requests, cycle, m - 1);
      assert cycle[..m][..m - 1] == cycle[..m - 1];
      var before, e := TwiceEach(cycle[..m - 1]), Advance(cycle[m - 1]);
      RunOneMore(s, before, e);
      RunOneMore(s, before + [e], e);
    }
  }

  lemma LockerWants(db: Ledger, r: Request)
    requires r.Convert? && (0, r.to) in db.balances
    ensures RowLock((0, r.to)) in Wants(db, Locker(r))
  {
  }

  /** When all are in line, each wants the row the next one holds. */
  lemma LinedWaits(requests: seq<Request>, cycle: seq<nat>, k: nat)
    requires Closes(requests, cycle) && k < |cycle|
    ensures WaitsFor(Lined(requests, cycle, |cycle|), cycle[k], cycle[After(k, |cycle|)])
  {
    var s, next := Lined(requests, cycle, |cycle|), After(k, |cycle|);
    var p, q := requests[cycle[k]], requests[cycle[next]];
    assert cycle[..|cycle|] == cycle && Feeds(requests, cycle, k);
    CycleSteps(requests, cycle, next);
    RichRow(requests, cycle, next);
    LockerWants(s.db, p);
    assert RowLock((0, q.from)) in Held(Locker(q));
    assert s.procs[cycle[k]] == Locker(p) && s.procs[cycle[next]] == Locker(q);
  }

  lemma LinedIsRing(requests: seq<Request>, cycle: seq<nat>)
    requires Closes(requests, cycle)
    ensures Ring(Waiting(Lined(requests, cycle, |cycle|)), cycle)
  {
    forall k: nat | k < |cycle| ensures Link(Waiting(Lined(requests, cycle, |cycle|)), cycle, k) {
      LinedWaits(requests, cycle, k);
    }
  }

  /** Any cycle of conversions deadlocks: let each one, in turn, find its wallet and lock its `from` row. */
  lemma CycleDeadlocks(requests: seq<Request>, cycle: seq<nat>)
    requires Closes(requests, cycle)
    ensures DeadlockAt(Rich(requests, cycle), requests, TwiceEach(cycle), cycle)
  {
    RichIsReachable(requests, cycle);
    LineUp(requests, cycle, |cycle|);
    LinedIsRing(requests, cycle);
    assert cycle[..|cycle|] == cycle;
  }

  lemma AskedIsRequests(db: Ledger, requests: seq<Request>, events: seq<Event>)
    requires Run(Initial(db, requests), events).Some?
    ensures Asked(Run(Initial(db, requests), events).value) == requests
  {
    RequestsFixed(db, requests, events);
  }

  lemma SoundRun(db: Ledger, requests: seq<Request>, events: seq<Event>)
    requires Reachable(db) && Run(Initial(db, requests), events).Some?
    ensures Inv(Run(Initial(db, requests), events).value) && Storable(Run(Initial(db, requests), events).value.db)
  {
    ReachableIsSound(db);
    InitialInv(db, requests);
    RunKeepsInv(Initial(db, requests), events);
    RunKeepsStorable(Initial(db, requests), events);
  }

  /** Requests can deadlock, from some reachable ledger by some interleaving, exactly when they contain a cycle. */
  lemma DeadlockIff(requests: seq<Request>)
    ensures CanDeadlock(requests) <==> HasCycle(requests)
  {
    if db, events, ring :| DeadlockAt(db, requests, events, ring) {
      SoundRun(db, requests, events);
      AskedIsRequests(db, requests, events);
      var cycle := AnyRingIsCycle(Run(Initial(db, requests), events).value, ring);
    }
    if cycle :| Closes(requests, cycle) { CycleDeadlocks(requests, cycle); }
  }

  /** Two conversions between the same two currencies in opposite directions. */
  function Opposite(): seq<Request> {
    [Convert(1, "USD", "EUR", 1.0, 1.0, false, Draw(2, "A")), Convert(1, "EUR", "USD", 1.0, 1.0, false, Draw(3, "B"))]
  }

  lemma OppositeCloses()
    ensures Closes(Opposite(), [0, 1])
  {
    assert |"USD"| == 3 && |"EUR"| == 3 && "USD"[0] != "EUR"[0];
  }

  lemma TwiceEachOfTwo(i: nat, j: nat)
    ensures TwiceEach([i, j]) == [Advance(i), Advance(i), Advance(j), Advance(j)]
  {
    assert [i, j][..1] == [i] && [i][..0] == [];
    assert TwiceEach([i]) == [Advance(i), Advance(i)];
  }

  /** The from-then-to lock order does deadlock: these two reach a ring in four steps. */
  lemma OppositeConversionsDeadlock()
    ensures Closes(Opposite(), [0, 1])
    ensures DeadlockAt(Rich(Opposite(), [0, 1]), Opposite(), [Advance(0), Advance(0), Advance(1), Advance(1)], [0, 1])
  {
    OppositeCloses();
    CycleDeadlocks(Opposite(), [0, 1]);
    TwiceEachOfTwo(0, 1);
  }

  // ---------- Without a cycle every batch can end ----------

  /** No cycle among the requests still unfinished. */
  ghost predicate Acyclic(s: State) {
    forall cycle :: Closes(Asked(s), cycle) ==> !Within(cycle, Unfinished(s))
  }

  /** Without a cycle some unfinished request can always step. */
  lemma SomeoneCanAdvance(s: State, i: nat) returns (j: nat)
    requires Inv(s) && Storable(s.db) && Acyclic(s) && i < |s.procs| && Active(s.procs[i])
    ensures CanAdvance(s, j)
  {
    if NobodyCanAdvance(s) {
      var ring := DeadlockIsRing(s, i);
      var cycle := AnyRingIsCycle(s, ring);
      assert false;
    }
    j :| CanAdvance(s, j);
  }

  ghost predicate Finished(s: State) {
    forall i :: 0 <= i < |s.procs| ==> !Active(s.procs[i])
  }

  lemma StepKeepsAcyclic(s: State, e: Event)
    requires Acyclic(s) && Step(s, e).Some?
    ensures Acyclic(Step(s, e).value)
  {
    var s' := Step(s, e).value;
    assert Asked(s') == Asked(s);
    assert forall i: nat :: i < |s.procs| && Active(s'.procs[i]) ==> Active(s.procs[i]);
    assert Unfinished(s') <= Unfinished(s);
  }

  /** Without a cycle all requests can be carried to their end, aborting none. */
  lemma {:induction false} CanFinish(s: State) returns (events: seq<Event>)
    requires Inv(s) && Storable(s.db) && Acyclic(s)
    ensures Run(s, events).Some? && Finished(Run(s, events).value) && OnlyAdvances(events)
    decreases TotalRemaining(s.procs)
  {
    if i :| 0 <= i < |s.procs| && Active(s.procs[i]) {
      var j := SomeoneCanAdvance(s, i);
      var e := Advance(j);
      StepKeepsAcyclic(s, e);
      StepKeepsStorable(s, e);
      StepDecreases(s, e);
      StepKeepsInv(s, e);
      var rest := CanFinish(Step(s, e).value);
      events := [e] + rest;
      RunCons(s, e, rest);
    } else {
      events := [];
    }
  }

  /** Without a cycle, when nobody can step everyone has ended. */
  lemma StuckIsFinished(s: State)
    requires Inv(s) && Storable(s.db) && Acyclic(s) && NobodyCanAdvance(s)
    ensures Finished(s)
  {
    if i: nat :| i < |s.procs| && Active(s.procs[i]) {
      var j := SomeoneCanAdvance(s, i);
      assert false;
    }
  }

  // ---------- A ring lasts until something aborts ----------

  lemma PublishKeepsKeys(db: Ledger, p: Proc)
    ensures db.balances.Keys <= Publish(db, p).balances.Keys
  {
  }

  lemma LockerStillWants(db: Ledger, db': Ledger, p: Proc)
    requires p.pc == LockTo && db.balances.Keys <= db'.balances.Keys
    ensures Wants(db, p) <= Wants(db', p)
  {
  }

  /** Nobody in a ring moves, so everyone in it goes on waiting. */
  lemma StepKeepsLink(s: State, i: nat, ring: seq<nat>, k: nat)
    requires Inv(s) && Ring(Waiting(s), ring) && k < |ring| && Step(s, Advance(i)).Some?
    ensures Link(Waiting(Step(s, Advance(i)).value), ring, k)
  {
    var s', next := Step(s, Advance(i)).value, After(k, |ring|);
    RingShape(s, ring, k);
    RingIsStuck(s, ring, k);
    RingIsStuck(s, ring, next);
    Follows(s, ring, k);
    PublishKeepsKeys(s.db, s.procs[i]);
    LockerStillWants(s.db, s'.db, s.procs[ring[k]]);
    assert s'.procs[ring[k]] == s.procs[ring[k]] && s'.procs[ring[next]] == s.procs[ring[next]];
  }

  lemma {:induction false} RingLasts(s: State, ring: seq<nat>, events: seq<Event>)
    requires Inv(s) && Ring(Waiting(s), ring) && OnlyAdvances(events) && Run(s, events).Some?
    ensures Ring(Waiting(Run(s, events).value), ring)
  {
    if events != [] {
      var n := |events| - 1;
      RingLasts(s, ring, events[..n]);
      RunKeepsInv(s, events[..n]);
      forall k: nat | k < |ring| ensures Link(Waiting(Run(s, events).value), ring, k) {
        StepKeepsLink(Run(s, events[..n]).value, events[n].i, ring, k);
      }
    }
  }

  /** The database may abort any unfinished request at any step; the tables stay, and nobody waits for it any more. */
  lemma AbortFrees(s: State, i: nat)
    requires i < |s.procs| && Active(s.procs[i])
    ensures Step(s, Abort(i)).Some?
    ensures var s' := Step(s, Abort(i)).value;
            && s'.db == s.db && |s'.procs| == |s.procs| && s'.procs[i] == Fail(s.procs[i], Aborted)
            && (forall j :: 0 <= j < |s.procs| && j != i ==> s'.procs[j] == s.procs[j])
            && (forall j: nat :: !WaitsFor(s', j, i))
  {
    assert Held(Fail(s.procs[i], Aborted)) == {};
  }

  /** Aborting any one member breaks a ring. */
  lemma AbortBreaksRing(s: State, ring: seq<nat>, k: nat)
    requires Inv(s) && Ring(Waiting(s), ring) && k < |ring|
    ensures Step(s, Abort(ring[k])).Some? && !Ring(Waiting(Step(s, Abort(ring[k])).value), ring)
  {
    RingShape(s, ring, k);
    AbortFrees(s, ring[k]);
    var s', before := Step(s, Abort(ring[k])).value, if k == 0 then |ring| - 1 else k - 1;
    assert After(before, |ring|) == k;
    if Ring(Waiting(s'), ring) {
      Follows(s', ring, before);
      assert false;
    }
  }

  lemma RingIsUnfinished(s: State, ring: seq<nat>)
    requires Inv(s) && Ring(Waiting(s), ring)
    ensures !Finished(s)
  {
    RingShape(s, ring, 0);
  }

  /** All requests can still end by themselves. */
  ghost predicate Completable(s: State) {
    exists events :: OnlyAdvances(events) && Run(s, events).Some? && Finished(Run(s, events).value)
  }

  ghost predicate AlwaysCompletable(requests: seq<Request>) {
    forall db, events :: Reachable(db) && Run(Initial(db, requests), events).Some? ==>
      Completable(Run(Initial(db, requests), events).value)
  }

  /** Every run from every reachable ledger can be completed without aborting a request exactly when the requests have no cycle. */
  lemma CompletableIff(requests: seq<Request>)
    ensures AlwaysCompletable(requests) <==> !HasCycle(requests)
  {
    if cycle :| Closes(requests, cycle) {
      CycleDeadlocks(requests, cycle);
      StuckForGood(Rich(requests, cycle), requests, TwiceEach(cycle), cycle);
    } else {
      forall db, events | Reachable(db) && Run(Initial(db, requests), events).Some?
        ensures Completable(Run(Initial(db, requests), events).value)
      {
        SoundRun(db, requests, events);
        AskedIsRequests(db, requests, events);
        var rest := CanFinish(Run(Initial(db, requests), events).value);
      }
    }
  }

  lemma StuckForGood(db: Ledger, requests: seq<Request>, events: seq<Event>, ring: seq<nat>)
    requires DeadlockAt(db, requests, events, ring)
    ensures !Completable(Run(Initial(db, requests), events).value)
  {
    var s := Run(Initial(db, requests), events).value;
    SoundRun(db, requests, events);
    forall more | OnlyAdvances(more) && Run(s, more).Some? ensures !Finished(Run(s, more).value) {
      RingLasts(s, ring, more);
      RunKeepsInv(s, more);
      RingIsUnfinished(Run(s, more).value, ring);
    }
  }
}
