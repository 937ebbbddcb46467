// Rows and wallets that do not exist yet cannot be locked: which requests can lose a
// race for one, failing on a unique key though alone they would have gone through.
module Races {
  import opened Wrappers
  import opened Currencies
  import opened Decimal
  import opened Conversion
  import opened WalletLedger
  import opened WalletLaws
  import opened Reachability
  import opened LockMachine
  import opened Serializability
  import opened Deadlock

  // ---------- Rivals ----------

  /** The currency whose row a request may have to insert. */
  function Target(r: Request): Currency
    requires !r.EnsureWallet?
  {
    if r.Fund? then r.currency else r.to
  }

  /** It can commit its user's wallet: it goes through on empty tables. */
  predicate MakesWallet(r: Request) {
    Execute(Genesis({r.user}), r).Ok?
  }

  /** It can commit its target row: what it writes there from nothing fits. */
  predicate MakesRow(r: Request) {
    match r
    case Fund(_, _, _, _) => MakesWallet(r)
    case Convert(_, _, to, amount, rate, _, _) =>
      Lockable(r) && RowFits((0, to), Credited(0.0, Received(amount, rate))) && RecordFits(RecordOf(r, 0))
    case EnsureWallet(_, _) => false
  }

  /** Conversions out of one row take turns: the second finds the row the first has made. */
  predicate TakeTurns(a: Request, b: Request) {
    a.Convert? && b.Convert? && a.from == b.from
  }

  /** Requests of one user that can make the same wallet, or the same row without taking turns. */
  predicate Rivals(a: Request, b: Request) {
    && a.user == b.user
    && ((MakesWallet(a) && MakesWallet(b))
        || (MakesRow(a) && MakesRow(b) && Target(a) == Target(b) && !TakeTurns(a, b)))
  }

  ghost predicate HasRivals(requests: seq<Request>) {
    exists i, j :: 0 <= i < |requests| && 0 <= j < |requests| && i != j && Rivals(requests[i], requests[j])
  }

  /** Alone this request would go through, but in this run its next step fails on a wallet or row it found absent. */
  ghost predicate RaceAt(db: Ledger, requests: seq<Request>, events: seq<Event>, i: nat) {
    && Reachable(db) && i < |requests| && Execute(db, requests[i]).Ok? && Run(Initial(db, requests), events).Some?
    && LosesRace(Run(Initial(db, requests), events).value, i)
  }

  ghost predicate LosesRace(s: State, i: nat) {
    && CanAdvance(s, i) && Overtaken(s.db, s.procs[i])
    && Next(s.db, s.procs[i]).pc == Done(Failed(UniqueViolation))
  }

  ghost predicate CanRace(requests: seq<Request>) {
    exists db, events, i :: RaceAt(db, requests, events, i)
  }

  // ---------- A lost race has a rival ----------

  /** Wallets and rows are only ever added. */
  ghost predicate Since(before: Ledger, db: Ledger) {
    && (forall u :: u in before.wallets ==> u in db.wallets && db.wallets[u] == before.wallets[u])
    && before.balances.Keys <= db.balances.Keys
  }

  predicate WalletRival(q: Proc, r: Request) {
    q.pc == Done(Committed) && q.req.user == r.user && MakesWallet(q.req)
  }

  predicate RowRival(q: Proc, r: Request) {
    && q.pc == Done(Committed) && q.req.user == r.user && MakesRow(q.req)
    && !r.EnsureWallet? && Target(q.req) == Target(r) && !TakeTurns(q.req, r)
  }

  /** A wallet this request found absent was absent from the start, and if it is there now a rival committed it. */
  ghost predicate WalletExplained(before: Ledger, s: State, i: nat)
    requires i < |s.procs|
  {
    var p := s.procs[i];
    p.pc == InsertWallet ==>
      && p.req.user !in before.wallets
      && (p.req.user in s.db.wallets ==> exists j: nat :: j < |s.procs| && j != i && WalletRival(s.procs[j], p.req))
  }

  /** The same of the row it is about to insert. */
  ghost predicate RowExplained(before: Ledger, s: State, i: nat)
    requires i < |s.procs|
  {
    var p := s.procs[i];
    p.pc == Write ==> forall key :: key in Inserts(p) ==>
      && key !in before.balances
      && (key in s.db.balances ==> exists j: nat :: j < |s.procs| && j != i && RowRival(s.procs[j], p.req))
  }

  ghost predicate Explained(before: Ledger, s: State) {
    && Inv(s) && Storable(s.db) && Since(before, s.db)
    && forall i: nat :: i < |s.procs| ==> WalletExplained(before, s, i) && RowExplained(before, s, i)
  }

  lemma PublishAdds(db: Ledger, p: Proc)
    requires ProcOk(db, p) && p.pc == Commit
    ensures Since(db, Publish(db, p))
  {
  }

  /** Who commits a wallet can make one. */
  lemma CommitMakesWallet(db: Ledger, p: Proc)
    requires Consistent(db) && ProcOk(db, p) && p.pc == Commit && p.newWallet
    ensures MakesWallet(p.req)
  {
    if p.req.Fund? { assert Row(db, FirstKey(p)) == None; }
  }

  /** Who commits a row that was absent can make it. */
  lemma CommitMakesRow(db: Ledger, p: Proc, key: RowKey)
    requires ProcOk(db, p) && Storable(db) && p.pc == Commit && key !in db.balances && key in Publish(db, p).balances
    ensures !p.req.EnsureWallet? && key == (p.wallet, Target(p.req)) && MakesRow(p.req)
  {
    if p.req.Convert? { GridBelowMost(db.balances[FirstKey(p)]); }
  }

  /** Two requests that hold parts of one wallet belong to one user. */
  lemma OneWalletOneUser(db: Ledger, p: Proc, q: Proc)
    requires Consistent(db) && ProcOk(db, p) && ProcOk(db, q) && InTables(p) && InTables(q)
    requires Held(p) !! Held(q) && p.wallet == q.wallet
    ensures p.req.user == q.req.user
  {
    assert p.newWallet ==> WalletPk(p.wallet) in Held(p);
    assert q.newWallet ==> WalletPk(q.wallet) in Held(q);
  }

  /** A conversion about to insert its target row still holds its source row, so its rival converts from another. */
  lemma NoTurnTaken(p: Proc, q: Proc)
    requires ShapeOk(p) && ShapeOk(q) && p.pc == Write && q.pc == Commit && p.wallet == q.wallet && Held(p) !! Held(q)
    ensures !TakeTurns(q.req, p.req)
  {
    assert p.req.Convert? ==> RowLock(FirstKey(p)) in Held(p);
    assert q.req.Convert? ==> RowLock(FirstKey(q)) in Held(q);
  }

  lemma CommitExplainsWallet(before: Ledger, s: State, i: nat, k: nat)
    requires Explained(before, s) && CanAdvance(s, k) && s.procs[k].pc == Commit && i < |s.procs| && i != k
    ensures WalletExplained(before, Step(s, Advance(k)).value, i)
  {
    var s', p, q := Step(s, Advance(k)).value, s.procs[i], s.procs[k];
    assert WalletExplained(before, s, i);
    if p.pc == InsertWallet && p.req.user in s'.db.wallets {
      if p.req.user in s.db.wallets {
        var j: nat :| j < |s.procs| && j != i && WalletRival(s.procs[j], p.req);
        assert WalletRival(s'.procs[j], p.req);
      } else {
        CommitMakesWallet(s.db, q);
        assert WalletRival(s'.procs[k], p.req);
      }
    }
  }

  lemma CommitExplainsRow(before: Ledger, s: State, i: nat, k: nat)
    requires Explained(before, s) && CanAdvance(s, k) && s.procs[k].pc == Commit && i < |s.procs| && i != k
    ensures RowExplained(before, Step(s, Advance(k)).value, i)
  {
    var s', p := Step(s, Advance(k)).value, s.procs[i];
    assert RowExplained(before, s, i);
    if p.pc == Write {
      forall key | key in Inserts(p) && key in s'.db.balances
        ensures exists j: nat :: j < |s'.procs| && j != i && RowRival(s'.procs[j], p.req)
      {
        if key in s.db.balances {
          var j: nat :| j < |s.procs| && j != i && RowRival(s.procs[j], p.req);
          assert RowRival(s'.procs[j], p.req);
        } else {
          CommitterIsRival(s, i, k, key);
          assert RowRival(s'.procs[k], p.req);
        }
      }
    }
  }

  lemma CommitterIsRival(s: State, i: nat, k: nat, key: RowKey)
    requires Inv(s) && Storable(s.db) && i < |s.procs| && k < |s.procs| && i != k
    requires s.procs[i].pc == Write && key in Inserts(s.procs[i]) && s.procs[k].pc == Commit
    requires key !in s.db.balances && key in Publish(s.db, s.procs[k]).balances
    ensures RowRival(Next(s.db, s.procs[k]), s.procs[i].req)
  {
    var p, q := s.procs[i], s.procs[k];
    CommitMakesRow(s.db, q, key);
    assert !p.req.EnsureWallet? && key == (p.wallet, Target(p.req));
    OneWalletOneUser(s.db, p, q);
    NoTurnTaken(p, q);
  }

  /** While the tables stay as they are, what was explained stays explained. */
  lemma QuietExplains(before: Ledger, s: State, s': State, i: nat)
    requires Explained(before, s) && i < |s.procs| && s'.db == s.db && |s'.procs| == |s.procs| && s'.procs[i] == s.procs[i]
    requires forall j :: 0 <= j < |s.procs| && !Active(s.procs[j]) ==> s'.procs[j] == s.procs[j]
    ensures WalletExplained(before, s', i) && RowExplained(before, s', i)
  {
    var p := s.procs[i];
    assert WalletExplained(before, s, i) && RowExplained(before, s, i);
    if j: nat :| j < |s.procs| && j != i && WalletRival(s.procs[j], p.req) { assert WalletRival(s'.procs[j], p.req); }
    if j: nat :| j < |s.procs| && j != i && RowRival(s.procs[j], p.req) { assert RowRival(s'.procs[j], p.req); }
  }

  /** A request that has just looked saw the tables as they are. */
  lemma JustLooked(before: Ledger, db: Ledger, p: Proc)
    requires ProcOk(db, p) && Since(before, db) && Active(p)
    ensures Next(db, p).pc == InsertWallet ==> p.req.user !in before.wallets && p.req.user !in db.wallets
    ensures Next(db, p).pc == Write ==>
              forall key :: key in Inserts(Next(db, p)) ==> key !in before.balances && key !in db.balances
  {
  }

  lemma ExplainedAfter(before: Ledger, s: State, e: Event, i: nat)
    requires Explained(before, s) && Step(s, e).Some? && i < |s.procs|
    ensures |Step(s, e).value.procs| == |s.procs|
    ensures WalletExplained(before, Step(s, e).value, i) && RowExplained(before, Step(s, e).value, i)
  {
    if i == e.i {
      if e.Advance? { OwnStepExplains(before, s, i); }
    } else if e.Advance? && s.procs[e.i].pc == Commit {
      CommitExplainsWallet(before, s, i, e.i);
      CommitExplainsRow(before, s, i, e.i);
    } else {
      QuietExplains(before, s, Step(s, e).value, i);
    }
  }

  lemma OwnStepExplains(before: Ledger, s: State, i: nat)
    requires Explained(before, s) && CanAdvance(s, i)
    ensures WalletExplained(before, Step(s, Advance(i)).value, i) && RowExplained(before, Step(s, Advance(i)).value, i)
  {
    JustLooked(before, s.db, s.procs[i]);
  }

  lemma StepKeepsSince(before: Ledger, s: State, e: Event)
    requires Inv(s) && Since(before, s.db) && Step(s, e).Some?
    ensures Since(before, Step(s, e).value.db)
  {
    if e.Advance? && s.procs[e.i].pc == Commit { PublishAdds(s.db, s.procs[e.i]); }
  }

  lemma StepExplains(before: Ledger, s: State, e: Event)
    requires Explained(before, s) && Step(s, e).Some?
    ensures Explained(before, Step(s, e).value)
  {
    var s' := Step(s, e).value;
    StepKeepsInv(s, e);
    StepKeepsStorable(s, e);
    StepKeepsSince(before, s, e);
    forall i: nat | i < |s'.procs| ensures WalletExplained(before, s', i) && RowExplained(before, s', i) {
      ExplainedAfter(before, s, e, i);
    }
  }

  lemma {:induction false} RunExplains(db: Ledger, requests: seq<Request>, events: seq<Event>)
    requires Consistent(db) && Storable(db) && Run(Initial(db, requests), events).Some?
    ensures Explained(db, Run(Initial(db, requests), events).value)
  {
    if events == [] {
      InitialInv(db, requests);
    } else {
      var front, e := events[..|events| - 1], events[|events| - 1];
      RunExplains(db, requests, front);
      StepExplains(db, Run(Initial(db, requests), front).value, e);
    }
  }

  lemma AloneMakesWallet(db: Ledger, r: Request)
    requires Consistent(db) && Execute(db, r).Ok? && r.user !in db.wallets
    ensures MakesWallet(r)
  {
    if !r.EnsureWallet? {
      assert forall c: Currency :: (r.draw.walletId, c) !in db.balances;
    }
  }

  lemma AloneMakesRow(db: Ledger, r: Request)
    requires Consistent(db) && Storable(db) && Execute(db, r).Ok? && !r.EnsureWallet?
    requires r.user in db.wallets ==> (db.wallets[r.user], Target(r)) !in db.balances
    ensures MakesRow(r)
  {
    if r.user !in db.wallets {
      AloneMakesWallet(db, r);
    } else if r.Convert? {
      GridBelowMost(db.balances[(db.wallets[r.user], r.from)]);
    }
  }

  lemma LostWallet(before: Ledger, s: State, i: nat) returns (j: nat)
    requires Consistent(before) && Explained(before, s) && LosesRace(s, i) && s.procs[i].pc == InsertWallet
    requires Execute(before, s.procs[i].req).Ok?
    ensures j < |s.procs| && j != i && Rivals(s.procs[i].req, s.procs[j].req)
  {
    assert WalletExplained(before, s, i);
    j :| j < |s.procs| && j != i && WalletRival(s.procs[j], s.procs[i].req);
    AloneMakesWallet(before, s.procs[i].req);
  }

  lemma LostRow(before: Ledger, s: State, i: nat) returns (j: nat)
    requires Sound(before) && Explained(before, s) && LosesRace(s, i) && s.procs[i].pc == Write
    requires Execute(before, s.procs[i].req).Ok?
    ensures j < |s.procs| && j != i && Rivals(s.procs[i].req, s.procs[j].req)
  {
    var p := s.procs[i];
    assert RowExplained(before, s, i);
    var key :| key in Inserts(p) && key in s.db.balances;
    j :| j < |s.procs| && j != i && RowRival(s.procs[j], p.req);
    AbsentBefore(before, s.db, p, key);
    AloneMakesRow(before, p.req);
  }

  /** Behind every lost race there is a rival among the requests. */
  lemma RaceHasRival(db: Ledger, requests: seq<Request>, events: seq<Event>, i: nat) returns (j: nat)
    requires RaceAt(db, requests, events, i)
    ensures j < |requests| && j != i && Rivals(requests[i], requests[j])
  {
    var s := Run(Initial(db, requests), events).value;
    ReachableIsSound(db);
    RunExplains(db, requests, events);
    RequestsFixed(db, requests, events);
    if s.procs[i].pc == InsertWallet { j := LostWallet(db, s, i); } else { j := LostRow(db, s, i); }
  }

  lemma AbsentBefore(before: Ledger, db: Ledger, p: Proc, key: RowKey)
    requires Since(before, db) && ProcOk(db, p) && p.pc == Write && key in Inserts(p) && key !in before.balances
    ensures !p.req.EnsureWallet?
    ensures p.req.user in before.wallets ==> (before.wallets[p.req.user], Target(p.req)) !in before.balances
  {
  }

  // ---------- A request that nobody is in the way of ----------

  function WalletFor(db: Ledger, r: Request): WalletId {
    if r.user in db.wallets then db.wallets[r.user] else r.draw.walletId
  }

  /** Everything a request may wait for. */
  function Needs(r: Request, wallet: WalletId): set<Resource> {
    {WalletInsert(r.user), WalletPk(r.draw.walletId), ReferenceInsert(r.draw.reference)}
    + (if r.EnsureWallet? then {} else {RowLock((wallet, Target(r))), RowInsert((wallet, Target(r)))})
    + (if r.Convert? then {RowLock((wallet, r.from))} else {})
  }

  lemma WantsAreNeeds(db: Ledger, p: Proc)
    requires ProcOk(db, p)
    ensures Wants(db, p) <= Needs(p.req, WalletFor(db, p.req))
  {
  }

  ghost predicate OutOfTheWay(s: State, j: nat)
    requires j < |s.procs|
  {
    var r := s.procs[j].req;
    forall k :: 0 <= k < |s.procs| && k != j ==> Held(s.procs[k]) !! Needs(r, WalletFor(s.db, r))
  }

  lemma Unblocked(s: State, j: nat)
    requires Inv(s) && j < |s.procs| && Active(s.procs[j]) && OutOfTheWay(s, j)
    ensures CanAdvance(s, j)
  {
    WantsAreNeeds(s.db, s.procs[j]);
    forall k: nat | k < |s.procs| ensures !WaitsFor(s, j, k) {
    }
  }

  lemma LastStepIsExecute(db: Ledger, p: Proc)
    requires Consistent(db) && ProcOk(db, p) && Active(p) && Undisturbed(db, p) && !Active(Next(db, p))
    requires Execute(db, p.req).Ok?
    ensures Execute(db, p.req).value == if p.pc == Commit then Publish(db, p) else db
  {
    if p.pc == Commit {
      PublishIsExecute(db, p);
    } else if Next(db, p).pc.outcome.Failed? {
      StepFailure(db, p);
    }
  }

  /** Only this request has moved, and it has gone through. */
  ghost predicate WentThrough(s: State, s': State, j: nat)
    requires j < |s.procs|
  {
    && Execute(s.db, s.procs[j].req) == Ok(s'.db) && |s'.procs| == |s.procs| && !Active(s'.procs[j])
    && forall k :: 0 <= k < |s.procs| && k != j ==> s'.procs[k] == s.procs[k]
  }

  /** With the others out of the way a request that can go through does, step by step. */
  lemma {:induction false} GoesThrough(s: State, j: nat) returns (events: seq<Event>)
    requires Inv(s) && j < |s.procs| && Active(s.procs[j]) && Undisturbed(s.db, s.procs[j])
    requires OutOfTheWay(s, j) && Execute(s.db, s.procs[j].req).Ok?
    ensures Run(s, events).Some? && WentThrough(s, Run(s, events).value, j)
    decreases Steps(s.procs[j])
  {
    var p := s.procs[j];
    Unblocked(s, j);
    var s' := Step(s, Advance(j)).value;
    NextDecreases(s.db, p);
    if Active(s'.procs[j]) {
      StepKeepsInv(s, Advance(j));
      AloneStaysUndisturbed(s.db, p);
      var rest := GoesThrough(s', j);
      events := [Advance(j)] + rest;
      RunCons(s, Advance(j), rest);
    } else {
      LastStepIsExecute(s.db, p);
      events := [Advance(j)];
      assert events[..0] == [];
    }
  }

  // ---------- Rivals race ----------

  /** Nobody has started but request i, which is where p is. */
  function Only(db: Ledger, requests: seq<Request>, i: nat, p: Proc): State
    requires i < |requests|
  {
    var s := Initial(db, requests);
    s.(procs := s.procs[i := p])
  }

  lemma OnlyStep(db: Ledger, requests: seq<Request>, i: nat, p: Proc, events: seq<Event>)
    requires i < |requests| && Active(p) && p.pc != Commit
    requires Run(Initial(db, requests), events) == Some(Only(db, requests, i, p))
    ensures Run(Initial(db, requests), events + [Advance(i)]) == Some(Only(db, requests, i, Next(db, p)))
  {
    var s := Only(db, requests, i, p);
    assert forall j :: 0 <= j < |requests| && j != i ==> Held(s.procs[j]) == {};
    QuietStep(s, i, Next(db, p));
    assert s.procs[i := Next(db, p)] == Only(db, requests, i, Next(db, p)).procs;
    RunOneMore(Initial(db, requests), events, Advance(i));
  }

  lemma OnlyStarts(db: Ledger, requests: seq<Request>, i: nat)
    requires i < |requests|
    ensures Run(Initial(db, requests), []) == Some(Only(db, requests, i, Begin(requests[i])))
  {
    var s := Initial(db, requests);
    assert s.procs[i := Begin(requests[i])] == s.procs;
  }

  lemma {:induction false} RunConcat(s: State, first: seq<Event>, second: seq<Event>)
    requires Run(s, first).Some?
    ensures Run(s, first + second) == Run(Run(s, first).value, second)
  {
    if second == [] {
      assert first + second == first;
    } else {
      RunConcat(s, first, second[..|second| - 1]);
      assert (first + second)[..|first + second| - 1] == first + second[..|second| - 1];
    }
  }

  /** Request i stops at p; request j goes through; then i can step and sees the tables j has left. */
  lemma Interleave(db: Ledger, requests: seq<Request>, i: nat, j: nat, p: Proc, events: seq<Event>)
      returns (more: seq<Event>)
    requires Consistent(db) && i < |requests| && j < |requests| && i != j
    requires Run(Initial(db, requests), events) == Some(Only(db, requests, i, p)) && Active(p)
    requires Held(p) !! Needs(requests[j], WalletFor(db, requests[j])) && Execute(db, requests[j]).Ok?
    ensures Run(Initial(db, requests), more).Some?
    ensures var s := Run(Initial(db, requests), more).value;
            && i < |s.procs| && s.procs[i] == p && Execute(db, requests[j]) == Ok(s.db) && CanAdvance(s, i)
  {
    var s := Only(db, requests, i, p);
    InitialInv(db, requests);
    RunKeepsInv(Initial(db, requests), events);
    OthersIdle(db, requests, i, j, p);
    var rest := GoesThrough(s, j);
    more := events + rest;
    RunConcat(Initial(db, requests), events, rest);
    FreeToStep(db, requests, i, j, p, Run(s, rest).value);
  }

  lemma OthersIdle(db: Ledger, requests: seq<Request>, i: nat, j: nat, p: Proc)
    requires i < |requests| && j < |requests| && i != j
    requires Held(p) !! Needs(requests[j], WalletFor(db, requests[j]))
    ensures OutOfTheWay(Only(db, requests, i, p), j)
  {
    var s := Only(db, requests, i, p);
    forall k | 0 <= k < |s.procs| && k != j ensures Held(s.procs[k]) !! Needs(requests[j], WalletFor(db, requests[j])) {
      if k != i { NobodyElseHolds(s.procs[k]); }
    }
  }

  /** Once j has gone through, nobody else holds anything i could wait for. */
  lemma FreeToStep(db: Ledger, requests: seq<Request>, i: nat, j: nat, p: Proc, s: State)
    requires i < |requests| && j < |requests| && i != j && Active(p)
    requires WentThrough(Only(db, requests, i, p), s, j)
    ensures i < |s.procs| && s.procs[i] == p && Execute(db, requests[j]) == Ok(s.db) && CanAdvance(s, i)
  {
    forall k: nat | k < |s.procs| && k != i ensures Held(s.procs[k]) == {} {
      NobodyElseHolds(s.procs[k]);
    }
  }

  lemma NobodyElseHolds(p: Proc)
    requires !Active(p) || p == Begin(p.req)
    ensures Held(p) == {}
  {
  }

  lemma LooksForWallet(db: Ledger, requests: seq<Request>, i: nat)
    requires i < |requests| && db == Genesis({requests[i].user}) && MakesWallet(requests[i])
    ensures Run(Initial(db, requests), [Advance(i)]) == Some(Only(db, requests, i, Begin(requests[i]).(pc := InsertWallet)))
  {
    OnlyStarts(db, requests, i);
    OnlyStep(db, requests, i, Begin(requests[i]), []);
    assert [] + [Advance(i)] == [Advance(i)];
    assert Next(db, Begin(requests[i])) == Begin(requests[i]).(pc := InsertWallet);
  }

  /** Both look for the wallet; one makes it; the other fails to. */
  lemma WalletRivalsRace(requests: seq<Request>, i: nat, j: nat)
    requires i < |requests| && j < |requests| && i != j
    requires requests[i].user == requests[j].user && MakesWallet(requests[i]) && MakesWallet(requests[j])
    ensures CanRace(requests)
  {
    var db, p := Genesis({requests[i].user}), Begin(requests[i]).(pc := InsertWallet);
    GenesisReachable({requests[i].user});
    LooksForWallet(db, requests, i);
    var events := Interleave(db, requests, i, j, p, [Advance(i)]);
    MakerLeavesWallet(requests[j]);
    assert LosesRace(Run(Initial(db, requests), events).value, i);
    assert RaceAt(db, requests, events, i);
  }

  lemma MakerLeavesWallet(r: Request)
    requires MakesWallet(r)
    ensures r.user in Execute(Genesis({r.user}), r).value.wallets
  {
  }

  /** The currencies these two have to hold. */
  function Sources(a: Request, b: Request): seq<Currency> {
    (if a.Convert? then [a.from] else []) + (if b.Convert? then [b.from] else [])
  }

  /** Their user holds as much as fits of those, and no target row. */
  function Untargeted(a: Request, b: Request): Ledger {
    Pockets(a.user, Sources(a, b), MOST, a.draw.reference + b.draw.reference)
  }

  lemma UntargetedIsReachable(a: Request, b: Request)
    requires MakesRow(a) && MakesRow(b) && !TakeTurns(a, b)
    ensures Reachable(Untargeted(a, b)) && Sound(Untargeted(a, b))
  {
    MostIsFundable();
    PocketsReachable(a.user, Sources(a, b), MOST, a.draw.reference + b.draw.reference);
    ReachableIsSound(Untargeted(a, b));
  }

  /** What either of the two finds there. */
  lemma UntargetedRows(a: Request, b: Request, r: Request)
    requires MakesRow(a) && MakesRow(b) && Target(a) == Target(b) && a.user == b.user && (r == a || r == b)
    ensures var db := Untargeted(a, b);
            && r.user in db.users && r.user in db.wallets && db.wallets[r.user] == 0
            && (0, Target(r)) !in db.balances && !ReferenceUsed(db, r.draw.reference)
            && (r.Convert? ==> Row(db, (0, r.from)) == Some(MOST))
  {
    SourcesAre(a, b, r);
    PocketReferences(a.user, Sources(a, b), MOST, a.draw.reference + b.draw.reference, r.draw.reference);
    PocketRows(a.user, Sources(a, b), MOST, a.draw.reference + b.draw.reference, (0, Target(r)));
    if r.Convert? { PocketRows(a.user, Sources(a, b), MOST, a.draw.reference + b.draw.reference, (0, r.from)); }
  }

  lemma SourcesAre(a: Request, b: Request, r: Request)
    requires MakesRow(a) && MakesRow(b) && Target(a) == Target(b) && (r == a || r == b)
    ensures Target(r) !in Sources(a, b) && (r.Convert? ==> r.from in Sources(a, b))
  {
  }

  /** A request whose wallet and source row are there makes its target row. */
  lemma MakerExecutes(db: Ledger, r: Request)
    requires Consistent(db) && MakesRow(r) && r.user in db.users && r.user in db.wallets && db.wallets[r.user] == 0
    requires (0, Target(r)) !in db.balances && !ReferenceUsed(db, r.draw.reference)
    requires r.Convert? ==> Row(db, (0, r.from)) == Some(MOST)
    ensures Execute(db, r).Ok? && (0, Target(r)) in Execute(db, r).value.balances
  {
    if r.Convert? {
      MostIsFundable();
      DebitOfMost(r.amount);
      ConvertSucceedsIff(db, r);
    }
  }

  /** About to insert its target row. */
  function Writer(r: Request): Proc {
    Proc(r, Write, 0, false, if r.Convert? then Some(MOST) else None, None)
  }

  lemma WriterSteps(db: Ledger, r: Request)
    requires MakesRow(r) && r.user in db.users && r.user in db.wallets && db.wallets[r.user] == 0
    requires (0, Target(r)) !in db.balances && (r.Convert? ==> Row(db, (0, r.from)) == Some(MOST))
    ensures Next(db, Begin(r)) == Finder(r) && Next(db, Finder(r)) == (if r.Convert? then Locker(r) else Writer(r))
    ensures r.Convert? ==> Next(db, Locker(r)) == Writer(r)
  {
  }

  lemma ReachesWrite(db: Ledger, requests: seq<Request>, i: nat) returns (events: seq<Event>)
    requires i < |requests| && MakesRow(requests[i])
    requires var r := requests[i];
             && r.user in db.users && r.user in db.wallets && db.wallets[r.user] == 0 && (0, Target(r)) !in db.balances
             && (r.Convert? ==> Row(db, (0, r.from)) == Some(MOST))
    ensures Run(Initial(db, requests), events) == Some(Only(db, requests, i, Writer(requests[i])))
  {
    var r := requests[i];
    WriterSteps(db, r);
    OnlyStarts(db, requests, i);
    OnlyStep(db, requests, i, Begin(r), []);
    events := [] + [Advance(i)];
    OnlyStep(db, requests, i, Finder(r), events);
    events := events + [Advance(i)];
    if r.Convert? {
      OnlyStep(db, requests, i, Locker(r), events);
      events := events + [Advance(i)];
    }
  }

  /** Both find the row absent; one inserts it; the other fails to. */
  lemma RowRivalsRace(requests: seq<Request>, i: nat, j: nat)
    requires i < |requests| && j < |requests| && i != j
    requires var a, b := requests[i], requests[j];
             a.user == b.user && MakesRow(a) && MakesRow(b) && Target(a) == Target(b) && !TakeTurns(a, b)
    ensures CanRace(requests)
  {
    var a, b := requests[i], requests[j];
    var db := Untargeted(a, b);
    UntargetedIsReachable(a, b);
    UntargetedRows(a, b, a);
    UntargetedRows(a, b, b);
    MakerExecutes(db, a);
    MakerExecutes(db, b);
    var events := ReachesWrite(db, requests, i);
    WriterOutOfTheWay(db, a, b);
    var more := Interleave(db, requests, i, j, Writer(a), events);
    WriterLoses(Run(Initial(db, requests), more).value, i, a);
    assert RaceAt(db, requests, more, i);
  }

  lemma WriterLoses(s: State, i: nat, r: Request)
    requires CanAdvance(s, i) && MakesRow(r) && s.procs[i] == Writer(r) && (0, Target(r)) in s.db.balances
    ensures LosesRace(s, i)
  {
    assert (0, Target(r)) in Inserts(Writer(r));
    if r.Convert? {
      MostIsFundable();
      DebitOfMost(r.amount);
    }
  }

  lemma WriterOutOfTheWay(db: Ledger, a: Request, b: Request)
    requires MakesRow(a) && MakesRow(b) && Target(a) == Target(b) && !TakeTurns(a, b)
    requires a.user == b.user && b.user in db.wallets && db.wallets[b.user] == 0
    ensures Held(Writer(a)) !! Needs(b, WalletFor(db, b))
  {
  }

  /** Some request can lose a race, in some run from some reachable ledger, exactly when there are rivals among them. */
  lemma RaceIff(requests: seq<Request>)
    ensures CanRace(requests) <==> HasRivals(requests)
  {
    if db, events, i :| RaceAt(db, requests, events, i) {
      var j := RaceHasRival(db, requests, events, i);
    }
    if i: nat, j: nat :| i < |requests| && j < |requests| && i != j && Rivals(requests[i], requests[j]) {
      if MakesWallet(requests[i]) && MakesWallet(requests[j]) {
        WalletRivalsRace(requests, i, j);
      } else {
        RowRivalsRace(requests, i, j);
      }
    }
  }

  /** Two funds of a new user, or two in a new currency: one of them can fail though each alone goes through. */
  lemma TwoFundsRace()
    ensures CanRace([Fund(1, "USD", 1.0, Draw(2, "A")), Fund(1, "USD", 1.0, Draw(3, "B"))])
  {
    var a, b := Fund(1, "USD", 1.0, Draw(2, "A")), Fund(1, "USD", 1.0, Draw(3, "B"));
    OneOnGrid(1.0);
    assert MakesWallet(a) && MakesWallet(b);
    WalletRivalsRace([a, b], 0, 1);
  }
}
