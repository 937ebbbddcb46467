// Every interleaving leaves the tables exactly as running the committed requests
// alone, one after another, in commit order; so the laws of the ledger hold in
// every reachable state of every run.
module Serializability {
  import opened Wrappers
  import opened Currencies
  import opened Decimal
  import opened WalletLedger
  import opened WalletLaws
  import opened LockMachine

  // ---------- The invariant ----------

  predicate InTables(p: Proc) {
    p.pc in {LockFirst, LockTo, Write, Append, Commit}
  }

  /** Facts about a request's own fields. */
  ghost predicate ShapeOk(p: Proc) {
    && (p.pc in {Start, InsertWallet} ==> !p.newWallet && p.first.None? && p.second.None?)
    && (p.req.EnsureWallet? ==> p.pc !in {LockFirst, LockTo, Write, Append} && (p.pc == Commit ==> p.newWallet))
    && (p.req.Fund? ==> p.pc != LockTo)
    && (p.req.Convert? && p.pc in {LockTo, Write, Append, Commit} ==>
          !p.newWallet && p.first.Some? && p.first.value >= p.req.amount)
    && (p.pc in {Append, Commit} && !p.req.EnsureWallet? ==>
          RowFits(FirstKey(p), NewFirst(p)) && (p.req.Convert? ==> RowFits(SecondKey(p), NewSecond(p))))
    && (p.pc == Commit && !p.req.EnsureWallet? ==> RecordFits(RecordOf(p.req, p.wallet)))
  }

  /** Its checks still pass, and its wallet is the user's or still to be committed. */
  ghost predicate EntryOk(db: Ledger, p: Proc) {
    && (p.pc == InsertWallet || InTables(p) ==>
          p.req.user in db.users && (p.req.EnsureWallet? || Validate(db, p.req).None?))
    && (InTables(p) ==> WalletOk(db, p))
  }

  /** The rows it locked still hold what it read. */
  ghost predicate RowsOk(db: Ledger, p: Proc) {
    && (!p.req.EnsureWallet? && p.pc in {LockTo, Write, Append, Commit} && p.first.Some? ==>
          Row(db, FirstKey(p)) == p.first)
    && (p.req.Convert? && p.pc in {Write, Append, Commit} && p.second.Some? ==> Row(db, SecondKey(p)) == p.second)
  }

  /** The keys it is inserting are not committed by anyone else. */
  ghost predicate InsertsOk(db: Ledger, p: Proc) {
    && (p.pc in {Append, Commit} ==> forall key :: key in Inserts(p) ==> key !in db.balances)
    && (p.pc == Commit && !p.req.EnsureWallet? ==> !ReferenceUsed(db, p.req.draw.reference))
  }

  /** What a request remembers still agrees with the committed tables. */
  ghost predicate ProcOk(db: Ledger, p: Proc) {
    ShapeOk(p) && EntryOk(db, p) && RowsOk(db, p) && InsertsOk(db, p)
  }

  ghost predicate WalletOk(db: Ledger, p: Proc) {
    && p.req.user in db.users
    && (if p.newWallet then
          p.req.user !in db.wallets && p.wallet !in db.wallets.Values && p.wallet == p.req.draw.walletId
        else
          p.req.user in db.wallets && db.wallets[p.req.user] == p.wallet)
  }

  /** No two requests hold the same lock or uncommitted key. */
  ghost predicate Exclusive(procs: seq<Proc>) {
    forall i, j :: 0 <= i < |procs| && 0 <= j < |procs| && i != j ==> Held(procs[i]) !! Held(procs[j])
  }

  ghost predicate Inv(s: State) {
    && Consistent(s.db)
    && (forall i :: 0 <= i < |s.procs| ==> ProcOk(s.db, s.procs[i]))
    && Exclusive(s.procs)
  }

  // ---------- One step of one request ----------

  lemma LocksGrow(db: Ledger, p: Proc, key: RowKey)
    requires ProcOk(db, p) && key in Locks(Next(db, p))
    ensures key in Locks(p) || RowLock(key) in Wants(db, p)
  {
  }

  lemma InsertsGrow(db: Ledger, p: Proc, key: RowKey)
    requires ProcOk(db, p) && key in Inserted(Next(db, p))
    ensures key in Inserted(p) || RowInsert(key) in Wants(db, p)
  {
  }

  lemma WalletGrows(db: Ledger, p: Proc)
    requires ProcOk(db, p) && Next(db, p).newWallet && Active(Next(db, p))
    ensures (p.newWallet && Next(db, p).wallet == p.wallet) || Wants(db, p) == {WalletInsert(p.req.user), WalletPk(Next(db, p).wallet)}
    ensures Next(db, p).req == p.req && Active(p)
  {
  }

  lemma ReferenceGrows(db: Ledger, p: Proc)
    requires ProcOk(db, p) && Next(db, p).pc == Commit && !p.req.EnsureWallet?
    ensures Wants(db, p) == {ReferenceInsert(p.req.draw.reference)} && Next(db, p).req == p.req
  {
  }

  /** A step takes nothing beyond what it waited for. */
  lemma HeldGrows(db: Ledger, p: Proc)
    requires ProcOk(db, p)
    ensures Held(Next(db, p)) <= Held(p) + Wants(db, p)
  {
    var p' := Next(db, p);
    forall x | x in Held(p') ensures x in Held(p) + Wants(db, p) {
      match x
      case RowLock(key) => LocksGrow(db, p, key);
      case RowInsert(key) => InsertsGrow(db, p, key);
      case WalletInsert(_) => WalletGrows(db, p);
      case WalletPk(_) => WalletGrows(db, p);
      case ReferenceInsert(_) => ReferenceGrows(db, p);
    }
  }

  /** An uncommitted wallet has no committed rows, so a conversion that created one goes no further. */
  lemma NewWalletHasNoRow(db: Ledger, p: Proc)
    requires Consistent(db) && ProcOk(db, p) && p.pc == LockFirst && p.newWallet
    ensures Row(db, FirstKey(p)) == None
  {
    assert p.wallet !in db.wallets.Values;
  }

  lemma NextShapeOk(db: Ledger, p: Proc)
    requires Consistent(db) && ProcOk(db, p) && p.pc != Commit
    ensures ShapeOk(Next(db, p))
  {
    if p.pc == LockFirst && p.newWallet {
      NewWalletHasNoRow(db, p);
    } else {
      if p.pc in {Start, InsertWallet, LockFirst} { NextShapeEarly(db, p); } else { NextShapeLate(db, p); }
    }
  }

  lemma NextShapeEarly(db: Ledger, p: Proc)
    requires ShapeOk(p) && p.pc in {Start, InsertWallet, LockFirst} && !(p.pc == LockFirst && p.newWallet)
    ensures ShapeOk(Next(db, p))
  {
  }

  lemma NextShapeLate(db: Ledger, p: Proc)
    requires ShapeOk(p) && p.pc !in {Start, InsertWallet, LockFirst, Commit}
    ensures ShapeOk(Next(db, p))
  {
  }

  lemma NextEntryOk(db: Ledger, p: Proc)
    requires Consistent(db) && ProcOk(db, p) && p.pc != Commit
    ensures EntryOk(db, Next(db, p))
  {
    if p.pc in {Start, InsertWallet} { NextEntryEarly(db, p); } else { NextEntryLate(db, p); }
  }

  lemma NextEntryEarly(db: Ledger, p: Proc)
    requires EntryOk(db, p) && p.pc in {Start, InsertWallet} && !p.newWallet
    ensures EntryOk(db, Next(db, p))
  {
  }

  lemma NextEntryLate(db: Ledger, p: Proc)
    requires EntryOk(db, p) && p.pc !in {Start, InsertWallet, Commit}
    ensures EntryOk(db, Next(db, p))
  {
  }

  lemma NextRowsOk(db: Ledger, p: Proc)
    requires ProcOk(db, p) && p.pc != Commit
    ensures RowsOk(db, Next(db, p))
  {
  }

  lemma NextInsertsOk(db: Ledger, p: Proc)
    requires ProcOk(db, p) && p.pc != Commit
    ensures InsertsOk(db, Next(db, p))
  {
  }

  lemma NextOk(db: Ledger, p: Proc)
    requires Consistent(db) && ProcOk(db, p) && p.pc != Commit
    ensures ProcOk(db, Next(db, p))
  {
    NextShapeOk(db, p);
    NextEntryOk(db, p);
    NextRowsOk(db, p);
    NextInsertsOk(db, p);
  }

  /** Committing is running the request alone on the tables of that moment. */
  lemma PublishIsExecute(db: Ledger, p: Proc)
    requires Consistent(db) && ProcOk(db, p) && p.pc == Commit
    ensures Execute(db, p.req) == Ok(Publish(db, p))
  {
    match p.req
    case Fund(_, _, _, _) =>
      assert OrZero(Row(OpenWallet(db, p.req.user, p.req.draw).value, FirstKey(p))) == OrZero(p.first) by {
        if p.first.None? { assert FirstKey(p) in Inserts(p); }
      }
      assert ReferenceUsed(db, p.req.draw.reference) == ReferenceUsed(Publish(db, p).(records := db.records), p.req.draw.reference);
    case Convert(_, _, _, _, _, _, _) =>
      assert OrZero(Row(db, SecondKey(p))) == OrZero(p.second) by {
        if p.second.None? { assert SecondKey(p) in Inserts(p); }
      }
      assert ReferenceUsed(db, p.req.draw.reference) == ReferenceUsed(Publish(db, p).(records := db.records), p.req.draw.reference);
    case EnsureWallet(_, _) =>
  }

  /** The rows a commit writes are ones it locked or inserted. */
  lemma WritesAreHeld(db: Ledger, p: Proc, key: RowKey)
    requires ProcOk(db, p) && p.pc == Commit && Row(Publish(db, p), key) != Row(db, key)
    ensures if key in db.balances then RowLock(key) in Held(p) else RowInsert(key) in Held(p)
  {
  }

  lemma PublishKeepsEntry(db: Ledger, p: Proc, q: Proc)
    requires Consistent(db) && ProcOk(db, p) && p.pc == Commit && ProcOk(db, q) && Held(p) !! Held(q)
    ensures EntryOk(Publish(db, p), q)
  {
    if q.newWallet && InTables(q) {
      assert WalletInsert(q.req.user) in Held(q) && WalletPk(q.wallet) in Held(q);
      if p.newWallet { assert WalletInsert(p.req.user) in Held(p) && WalletPk(p.wallet) in Held(p); }
    }
  }

  lemma PublishKeepsRows(db: Ledger, p: Proc, q: Proc)
    requires ProcOk(db, p) && p.pc == Commit && ProcOk(db, q) && Held(p) !! Held(q)
    ensures RowsOk(Publish(db, p), q)
  {
    forall key | key in Locks(q) && key in db.balances
      ensures Row(Publish(db, p), key) == Row(db, key)
    {
      assert RowLock(key) in Held(q);
      if Row(Publish(db, p), key) != Row(db, key) {
        WritesAreHeld(db, p, key);
        assert false;
      }
    }
  }

  lemma PublishKeepsInserts(db: Ledger, p: Proc, q: Proc)
    requires ProcOk(db, p) && p.pc == Commit && ProcOk(db, q) && Held(p) !! Held(q)
    ensures InsertsOk(Publish(db, p), q)
  {
    var db' := Publish(db, p);
    forall key | q.pc in {Append, Commit} && key in Inserts(q)
      ensures key !in db'.balances
    {
      assert RowInsert(key) in Held(q);
      if key in db'.balances {
        WritesAreHeld(db, p, key);
        assert false;
      }
    }
    if q.pc == Commit && !q.req.EnsureWallet? {
      assert ReferenceInsert(q.req.draw.reference) in Held(q);
      if !p.req.EnsureWallet? { assert ReferenceInsert(p.req.draw.reference) in Held(p); }
    }
  }

  /** A commit invalidates nothing another request remembers. */
  lemma PublishKeepsOthers(db: Ledger, p: Proc, q: Proc)
    requires Consistent(db) && ProcOk(db, p) && p.pc == Commit
    requires ProcOk(db, q) && Held(p) !! Held(q)
    ensures ProcOk(Publish(db, p), q)
  {
    PublishKeepsEntry(db, p, q);
    PublishKeepsRows(db, p, q);
    PublishKeepsInserts(db, p, q);
  }

  // ---------- Every step keeps the invariant ----------

  lemma AdvanceKeepsInv(s: State, i: nat)
    requires Inv(s) && CanAdvance(s, i)
    ensures Inv(Step(s, Advance(i)).value)
  {
    var p := s.procs[i];
    var db' := if p.pc == Commit then Publish(s.db, p) else s.db;
    AdvanceKeepsExclusive(s, i);
    AdvancedOk(s.db, p);
    forall j | 0 <= j < |s.procs| && j != i
      ensures ProcOk(db', s.procs[j])
    {
      if p.pc == Commit { PublishKeepsOthers(s.db, p, s.procs[j]); }
    }
  }

  lemma AdvancedOk(db: Ledger, p: Proc)
    requires Consistent(db) && ProcOk(db, p)
    ensures var db' := if p.pc == Commit then Publish(db, p) else db;
            Consistent(db') && ProcOk(db', Next(db, p))
  {
    if p.pc == Commit {
      PublishIsExecute(db, p);
      ExecuteConsistent(db, p.req);
    } else {
      NextOk(db, p);
    }
  }

  lemma AdvanceKeepsExclusive(s: State, i: nat)
    requires Inv(s) && CanAdvance(s, i)
    ensures Exclusive(s.procs[i := Next(s.db, s.procs[i])])
  {
    var p, p' := s.procs[i], Next(s.db, s.procs[i]);
    HeldGrows(s.db, p);
    forall j: nat | j < |s.procs| && j != i
      ensures Held(p') !! Held(s.procs[j])
    {
      assert !WaitsFor(s, i, j);
    }
  }

  lemma AbortKeepsInv(s: State, i: nat)
    requires Inv(s) && i < |s.procs|
    ensures Inv(s.(procs := s.procs[i := Fail(s.procs[i], Aborted)]))
  {
    assert Held(Fail(s.procs[i], Aborted)) == {};
  }

  lemma StepKeepsInv(s: State, e: Event)
    requires Inv(s) && Step(s, e).Some?
    ensures Inv(Step(s, e).value)
  {
    match e
    case Advance(i) => AdvanceKeepsInv(s, i);
    case Abort(i) => AbortKeepsInv(s, i);
  }

  lemma InitialInv(db: Ledger, requests: seq<Request>)
    requires Consistent(db)
    ensures Inv(Initial(db, requests))
  {
    var s := Initial(db, requests);
    assert forall i :: 0 <= i < |s.procs| ==> Held(s.procs[i]) == {};
  }

  lemma {:induction false} RunKeepsInv(s: State, events: seq<Event>)
    requires Inv(s) && Run(s, events).Some?
    ensures Inv(Run(s, events).value)
  {
    if events != [] {
      RunKeepsInv(s, events[..|events| - 1]);
      StepKeepsInv(Run(s, events[..|events| - 1]).value, events[|events| - 1]);
    }
  }

  // ---------- All or nothing ----------

  /** A step either leaves the tables alone or commits one request as Execute would run it. */
  lemma StepIsAtomic(s: State, e: Event)
    requires Inv(s) && Step(s, e).Some?
    ensures var s' := Step(s, e).value;
            if CommittedBy(s, e) == [] then s'.db == s.db
            else e.Advance? && CommittedBy(s, e) == [s.procs[e.i].req] && Execute(s.db, s.procs[e.i].req) == Ok(s'.db)
  {
    if e.Advance? && s.procs[e.i].pc == Commit { PublishIsExecute(s.db, s.procs[e.i]); }
  }

  /** A key this request saw absent has been committed by another one since. */
  ghost predicate Overtaken(db: Ledger, p: Proc) {
    || (p.pc == InsertWallet && p.req.user in db.wallets)
    || (p.pc == Write && exists key :: key in Inserts(p) && key in db.balances)
  }

  /** A request fails by itself only where it would be refused running alone at that moment, with that error,
      or where another request committed the row or wallet it was about to insert. */
  lemma FailureIsRefusalOrRace(s: State, i: nat)
    requires Inv(s) && CanAdvance(s, i)
    requires Next(s.db, s.procs[i]).pc.Done? && Next(s.db, s.procs[i]).pc.outcome.Failed?
    ensures Execute(s.db, s.procs[i].req) == Err(Next(s.db, s.procs[i]).pc.outcome.error) || Overtaken(s.db, s.procs[i])
  {
    if !Overtaken(s.db, s.procs[i]) { StepFailure(s.db, s.procs[i]); }
  }

  lemma StepFailure(db: Ledger, p: Proc)
    requires Consistent(db) && ProcOk(db, p) && Active(p) && !Overtaken(db, p)
    requires Next(db, p).pc.Done? && Next(db, p).pc.outcome.Failed?
    ensures Execute(db, p.req) == Err(Next(db, p).pc.outcome.error)
  {
    if p.pc == LockFirst {
      if p.newWallet { assert FirstKey(p) !in db.balances; }
    } else if p.pc in {Write, Append} {
      RowsAreCurrent(db, p);
      if p.req.Fund? { LateFundFailure(db, p); } else { LateConvertFailure(db, p); }
    }
  }

  /** What a request is about to write from is what the tables still hold. */
  lemma RowsAreCurrent(db: Ledger, p: Proc)
    requires Consistent(db) && ProcOk(db, p) && p.pc in {Write, Append} && !Overtaken(db, p)
    ensures OpenWallet(db, p.req.user, p.req.draw).Ok?
    ensures var l := OpenWallet(db, p.req.user, p.req.draw).value;
            l.wallets[p.req.user] == p.wallet && Row(l, FirstKey(p)) == p.first
            && (p.req.Convert? ==> Row(l, SecondKey(p)) == p.second)
  {
    if p.req.Fund? && p.first.None? { assert FirstKey(p) in Inserts(p); }
    if p.req.Convert? && p.second.None? { assert SecondKey(p) in Inserts(p); }
  }

  lemma LateFundFailure(db: Ledger, p: Proc)
    requires Consistent(db) && ProcOk(db, p) && p.pc in {Write, Append} && p.req.Fund? && !Overtaken(db, p)
    requires OpenWallet(db, p.req.user, p.req.draw).Ok?
    requires OpenWallet(db, p.req.user, p.req.draw).value.wallets[p.req.user] == p.wallet
    requires Row(db, FirstKey(p)) == p.first
    requires Next(db, p).pc.Done? && Next(db, p).pc.outcome.Failed?
    ensures Execute(db, p.req) == Err(Next(db, p).pc.outcome.error)
  {
    assert forall l: Ledger :: l.records == db.records ==> ReferenceUsed(l, p.req.draw.reference) == ReferenceUsed(db, p.req.draw.reference);
  }

  lemma LateConvertFailure(db: Ledger, p: Proc)
    requires Consistent(db) && ProcOk(db, p) && p.pc in {Write, Append} && p.req.Convert? && !Overtaken(db, p)
    requires Row(db, FirstKey(p)) == p.first && Row(db, SecondKey(p)) == p.second
    requires Next(db, p).pc.Done? && Next(db, p).pc.outcome.Failed?
    ensures Execute(db, p.req) == Err(Next(db, p).pc.outcome.error)
  {
    assert forall l: Ledger :: l.records == db.records ==> ReferenceUsed(l, p.req.draw.reference) == ReferenceUsed(db, p.req.draw.reference);
  }

  // ---------- A request alone ----------

  /** Nothing it read has changed, absent rows included. */
  ghost predicate Undisturbed(db: Ledger, p: Proc) {
    && !Overtaken(db, p)
    && (p.req.Fund? && p.pc == Write ==> Row(db, FirstKey(p)) == p.first)
    && (p.req.Convert? && p.pc == Write ==> Row(db, SecondKey(p)) == p.second)
  }

  predicate EndsAs(s: State, db: Ledger, run: Result<Ledger, Error>) {
    && |s.procs| == 1
    && match run
       case Ok(l) => s.db == l && s.procs[0].pc in {Done(Committed), Done(Unchanged)}
       case Err(e) => s.db == db && s.procs[0].pc == Done(Failed(e))
  }

  lemma AloneStep(db: Ledger, p: Proc)
    requires Active(p)
    ensures Step(State(db, [p]), Advance(0)) == Some(State(if p.pc == Commit then Publish(db, p) else db, [Next(db, p)]))
  {
    assert !Blocked(State(db, [p]), 0);
    assert [p][0 := Next(db, p)] == [Next(db, p)];
  }

  lemma AloneStaysUndisturbed(db: Ledger, p: Proc)
    requires ProcOk(db, p) && p.pc != Commit && Undisturbed(db, p)
    ensures Undisturbed(db, Next(db, p))
  {
  }

  lemma AloneLastStep(db: Ledger, p: Proc)
    requires Inv(State(db, [p])) && Active(p) && Undisturbed(db, p) && !Active(Next(db, p))
    ensures EndsAs(Step(State(db, [p]), Advance(0)).value, db, Execute(db, p.req))
  {
    AloneStep(db, p);
    if p.pc == Commit { PublishIsExecute(db, p); } else if Next(db, p).pc.outcome.Failed? { StepFailure(db, p); }
  }

  /** Where a lone request is: still seeing what it saw, or ended as Execute does. */
  ghost predicate AloneOk(s: State, db: Ledger, r: Request) {
    && Inv(s) && |s.procs| == 1 && s.procs[0].req == r
    && if Active(s.procs[0]) then s.db == db && Undisturbed(db, s.procs[0]) else EndsAs(s, db, Execute(db, r))
  }

  lemma AloneStepOk(s: State, db: Ledger, r: Request, e: Event)
    requires AloneOk(s, db, r) && e.Advance? && Step(s, e).Some?
    ensures AloneOk(Step(s, e).value, db, r)
  {
    var p := s.procs[0];
    assert s == State(db, [p]);
    StepKeepsInv(s, e);
    AloneStep(db, p);
    NextDecreases(db, p);
    if Active(Next(db, p)) { AloneStaysUndisturbed(db, p); } else { AloneLastStep(db, p); }
  }

  lemma {:induction false} AloneRunOk(db: Ledger, r: Request, events: seq<Event>)
    requires Consistent(db) && Run(Initial(db, [r]), events).Some? && OnlyAdvances(events)
    ensures AloneOk(Run(Initial(db, [r]), events).value, db, r)
  {
    if events == [] {
      InitialInv(db, [r]);
    } else {
      var front, e := events[..|events| - 1], events[|events| - 1];
      AloneRunOk(db, r, front);
      AloneStepOk(Run(Initial(db, [r]), front).value, db, r, e);
    }
  }

  predicate OnlyAdvances(events: seq<Event>) {
    forall k :: 0 <= k < |events| ==> events[k].Advance?
  }

  /** With no other request about, every run that aborts nothing and ends the request ends it as Execute does. */
  lemma AloneIsExecute(db: Ledger, r: Request, events: seq<Event>)
    requires Consistent(db) && Run(Initial(db, [r]), events).Some? && OnlyAdvances(events)
    requires !Active(Run(Initial(db, [r]), events).value.procs[0])
    ensures EndsAs(Run(Initial(db, [r]), events).value, db, Execute(db, r))
  {
    AloneRunOk(db, r, events);
  }

  function Steps(p: Proc): nat {
    match p.pc
    case Start => 7
    case InsertWallet => 6
    case LockFirst => 5
    case LockTo => 4
    case Write => 3
    case Append => 2
    case Commit => 1
    case Done(_) => 0
  }

  lemma NextDecreases(db: Ledger, p: Proc)
    requires ProcOk(db, p) && Active(p)
    ensures Steps(Next(db, p)) < Steps(p) && Next(db, p).req == p.req
  {
  }

  lemma {:induction false} RunCons(s: State, e: Event, rest: seq<Event>)
    requires Step(s, e).Some?
    ensures Run(s, [e] + rest) == Run(Step(s, e).value, rest)
  {
    var events := [e] + rest;
    if rest == [] {
      assert events[..0] == [];
    } else {
      RunCons(s, e, rest[..|rest| - 1]);
      assert events[..|events| - 1] == [e] + rest[..|rest| - 1];
    }
  }

  // ---------- Unique keys ----------

  /** A commit inserts only keys nobody committed, and updates only rows that still hold what was read. */
  lemma CommitNeverOverwrites(db: Ledger, requests: seq<Request>, events: seq<Event>, i: nat)
    requires Consistent(db) && Run(Initial(db, requests), events).Some?
    requires var s := Run(Initial(db, requests), events).value; i < |s.procs| && s.procs[i].pc == Commit
    ensures var s := Run(Initial(db, requests), events).value;
            var p := s.procs[i];
            && (p.newWallet ==> p.req.user !in s.db.wallets && p.wallet !in s.db.wallets.Values)
            && (!p.req.EnsureWallet? ==> Row(s.db, FirstKey(p)) == p.first)
            && (p.req.Convert? ==> Row(s.db, SecondKey(p)) == p.second)
  {
    InitialInv(db, requests);
    RunKeepsInv(Initial(db, requests), events);
    var p := Run(Initial(db, requests), events).value.procs[i];
    if p.req.Fund? && p.first.None? { assert FirstKey(p) in Inserts(p); }
    if p.req.Convert? && p.second.None? { assert SecondKey(p) in Inserts(p); }
  }

  // ---------- Serializability ----------

  /** The tables are what the committed requests leave when run alone in commit order. */
  lemma {:induction false} Serializable(db: Ledger, requests: seq<Request>, events: seq<Event>)
    requires Consistent(db) && Run(Initial(db, requests), events).Some?
    ensures ExecuteAll(db, CommitLog(Initial(db, requests), events)) == Ok(Run(Initial(db, requests), events).value.db)
  {
    var s := Initial(db, requests);
    if events != [] {
      var front, e := events[..|events| - 1], events[|events| - 1];
      var before := Run(s, front).value;
      Serializable(db, requests, front);
      InitialInv(db, requests);
      RunKeepsInv(s, front);
      StepIsAtomic(before, e);
      var log, more := CommitLog(s, front), CommittedBy(before, e);
      assert CommitLog(s, events) == log + more;
      if more == [] {
        assert log + more == log;
      } else {
        ExecuteOneMore(db, log, more[0]);
      }
    }
  }

  lemma ExecuteOneMore(db: Ledger, log: seq<Request>, r: Request)
    requires ExecuteAll(db, log).Ok?
    ensures ExecuteAll(db, log + [r]) == Execute(ExecuteAll(db, log).value, r)
  {
    assert (log + [r])[..|log + [r]| - 1] == log;
  }

  /** Requests do not change while they run, so a run commits only what was asked. */
  lemma {:induction false} RequestsFixed(db: Ledger, requests: seq<Request>, events: seq<Event>)
    requires Run(Initial(db, requests), events).Some?
    ensures var s := Run(Initial(db, requests), events).value;
            |s.procs| == |requests| && forall i :: 0 <= i < |requests| ==> s.procs[i].req == requests[i]
  {
    if events != [] {
      RequestsFixed(db, requests, events[..|events| - 1]);
      StepKeepsRequests(Run(Initial(db, requests), events[..|events| - 1]).value, events[|events| - 1]);
    }
  }

  lemma StepKeepsRequests(s: State, e: Event)
    requires Step(s, e).Some?
    ensures var s' := Step(s, e).value;
            |s'.procs| == |s.procs| && forall i :: 0 <= i < |s.procs| ==> s'.procs[i].req == s.procs[i].req
  {
  }

  /** The step after a prefix of a run is one of this request's and changes the tables. */
  ghost predicate ChangesTables(s: State, events: seq<Event>, k: nat, i: nat)
    requires k < |events|
  {
    && events[k] == Advance(i) && Run(s, events[..k]).Some? && Run(s, events[..k + 1]).Some?
    && Run(s, events[..k + 1]).value.db != Run(s, events[..k]).value.db
  }

  lemma {:induction false} PrefixRuns(s: State, events: seq<Event>, k: nat)
    requires Run(s, events).Some? && k <= |events|
    ensures Run(s, events[..k]).Some?
  {
    assert events[..|events|] == events;
    if k < |events| {
      PrefixRuns(s, events[..|events| - 1], k);
      assert events[..|events| - 1][..k] == events[..k];
    }
  }

  /** How a request ended does not change, and a step of its own was the last. */
  lemma {:induction false} DoneStays(s: State, events: seq<Event>, k: nat, i: nat)
    requires Run(s, events).Some? && k <= |events| && i < |s.procs|
    ensures Run(s, events[..k]).Some? && |Run(s, events[..k]).value.procs| == |Run(s, events).value.procs| == |s.procs|
    ensures !Active(Run(s, events[..k]).value.procs[i]) ==> Run(s, events).value.procs[i] == Run(s, events[..k]).value.procs[i]
  {
    assert events[..|events|] == events;
    if events != [] {
      var front := events[..|events| - 1];
      if k < |events| {
        DoneStays(s, front, k, i);
        assert front[..k] == events[..k];
      } else {
        DoneStays(s, front, |front|, i);
      }
    }
  }

  /** All or nothing: a step of a request changes the tables only by committing it whole, and then it has ended Committed. */
  lemma AllOrNothing(s: State, events: seq<Event>, k: nat, i: nat)
    requires Inv(s) && Run(s, events).Some? && k < |events| && i < |s.procs| && ChangesTables(s, events, k, i)
    ensures |Run(s, events).value.procs| == |Run(s, events[..k]).value.procs| == |s.procs|
    ensures Run(s, events).value.procs[i].pc == Done(Committed)
    ensures var before := Run(s, events[..k]).value;
            Execute(before.db, before.procs[i].req) == Ok(Run(s, events[..k + 1]).value.db)
    ensures forall j: nat :: j < |events| && j != k ==> !ChangesTables(s, events, j, i)
  {
    CommitsAt(s, events, k, i);
    DoneStays(s, events, k + 1, i);
    forall j: nat | j < |events| && j != k ensures !ChangesTables(s, events, j, i) {
      if ChangesTables(s, events, j, i) {
        CommitsAt(s, events, j, i);
        if j < k { NoStepAfterDone(s, events, j, k, i); } else { NoStepAfterDone(s, events, k, j, i); }
      }
    }
  }

  lemma CommitsAt(s: State, events: seq<Event>, k: nat, i: nat)
    requires Inv(s) && Run(s, events).Some? && k < |events| && i < |s.procs| && ChangesTables(s, events, k, i)
    ensures var before, after := Run(s, events[..k]).value, Run(s, events[..k + 1]).value;
            && |before.procs| == |after.procs| == |s.procs|
            && Active(before.procs[i]) && after.procs[i].pc == Done(Committed)
            && Execute(before.db, before.procs[i].req) == Ok(after.db)
  {
    assert events[..k + 1][..k] == events[..k];
    PrefixRuns(s, events, k);
    RunKeepsInv(s, events[..k]);
    StepIsAtomic(Run(s, events[..k]).value, events[k]);
    DoneStays(s, events, k, i);
    DoneStays(s, events, k + 1, i);
  }

  lemma NoStepAfterDone(s: State, events: seq<Event>, j: nat, k: nat, i: nat)
    requires Run(s, events).Some? && j < k < |events| && i < |s.procs|
    requires Run(s, events[..j + 1]).Some? && |Run(s, events[..j + 1]).value.procs| == |s.procs|
    requires Run(s, events[..k]).Some? && |Run(s, events[..k]).value.procs| == |s.procs|
    requires !Active(Run(s, events[..j + 1]).value.procs[i])
    ensures !Active(Run(s, events[..k]).value.procs[i])
  {
    assert events[..k][..j + 1] == events[..j + 1];
    DoneStays(s, events[..k], j + 1, i);
  }

  /** A run commits each request at most once: exactly those that ended Committed. */
  function CommittedCount(procs: seq<Proc>, r: Request): nat {
    if procs == [] then 0
    else CommittedCount(procs[..|procs| - 1], r) +
         (if procs[|procs| - 1].req == r && procs[|procs| - 1].pc == Done(Committed) then 1 else 0)
  }

  lemma {:induction false} CountUpdate(procs: seq<Proc>, i: nat, p: Proc, r: Request)
    requires i < |procs|
    ensures CommittedCount(procs[i := p], r)
         == CommittedCount(procs, r)
            - (if procs[i].req == r && procs[i].pc == Done(Committed) then 1 else 0)
            + (if p.req == r && p.pc == Done(Committed) then 1 else 0)
  {
    var front := procs[..|procs| - 1];
    if i == |procs| - 1 {
      assert procs[i := p][..|procs| - 1] == front;
    } else {
      CountUpdate(front, i, p, r);
      assert procs[i := p][..|procs| - 1] == front[i := p];
    }
  }

  lemma {:induction false} CountInitially(procs: seq<Proc>, r: Request)
    requires forall i :: 0 <= i < |procs| ==> Active(procs[i])
    ensures CommittedCount(procs, r) == 0
  {
    if procs != [] { CountInitially(procs[..|procs| - 1], r); }
  }

  /** The commit log holds exactly the requests that ended Committed, each as often as it was asked and committed. */
  lemma {:induction false} LogIsCommitted(db: Ledger, requests: seq<Request>, events: seq<Event>, r: Request)
    requires Run(Initial(db, requests), events).Some?
    ensures multiset(CommitLog(Initial(db, requests), events))[r]
         == CommittedCount(Run(Initial(db, requests), events).value.procs, r)
  {
    var s := Initial(db, requests);
    if events == [] {
      CountInitially(s.procs, r);
    } else {
      var front, e := events[..|events| - 1], events[|events| - 1];
      var before := Run(s, front).value;
      LogIsCommitted(db, requests, front, r);
      StepCounts(before, e, r);
      assert CommitLog(s, events) == CommitLog(s, front) + CommittedBy(before, e);
    }
  }

  lemma StepCounts(s: State, e: Event, r: Request)
    requires Step(s, e).Some?
    ensures CommittedCount(Step(s, e).value.procs, r) == CommittedCount(s.procs, r) + multiset(CommittedBy(s, e))[r]
  {
    var p' := if e.Advance? then Next(s.db, s.procs[e.i]) else Fail(s.procs[e.i], Aborted);
    NextCommits(s.db, s.procs[e.i]);
    CountUpdate(s.procs, e.i, p', r);
    assert Step(s, e).value.procs == s.procs[e.i := p'];
  }

  lemma NextCommits(db: Ledger, p: Proc)
    requires Active(p)
    ensures Next(db, p).req == p.req && (Next(db, p).pc == Done(Committed) <==> p.pc == Commit)
  {
  }

  lemma {:induction false} LogIsSane(db: Ledger, requests: seq<Request>, events: seq<Event>)
    requires SaneLog(requests) && Run(Initial(db, requests), events).Some?
    ensures SaneLog(CommitLog(Initial(db, requests), events))
  {
    if events != [] {
      LogIsSane(db, requests, events[..|events| - 1]);
      RequestsFixed(db, requests, events[..|events| - 1]);
    }
  }

  // ---------- The laws in every reachable state ----------

  /** Safety in every interleaving: consistent keys, and every balance a non-negative multiple of 0.0001. */
  lemma AlwaysSafe(db: Ledger, requests: seq<Request>, events: seq<Event>)
    requires Consistent(db) && Solvent(db) && SaneLog(requests) && Run(Initial(db, requests), events).Some?
    ensures var s := Run(Initial(db, requests), events).value; Consistent(s.db) && Solvent(s.db)
  {
    var log := CommitLog(Initial(db, requests), events);
    Serializable(db, requests, events);
    LogIsSane(db, requests, events);
    LogConsistent(db, log);
    LogSolvent(db, log);
  }

  /** Reconciliation in every interleaving, to the last digit but for ties paid out. */
  lemma AlwaysReconciles(users: set<UserId>, requests: seq<Request>, events: seq<Event>, user: UserId, currency: Currency)
    requires SaneLog(requests) && Run(Initial(Genesis(users), requests), events).Some?
    ensures var db := Run(Initial(Genesis(users), requests), events).value.db;
            var ties := Ties(CommitLog(Initial(Genesis(users), requests), events), user, currency);
            UserBalance(db, user, currency) == RecordedNet(db.records, user, currency) + 0.0001 * ties as real
  {
    GenesisConsistent(users);
    Serializable(Genesis(users), requests, events);
    LogIsSane(Genesis(users), requests, events);
    Reconciles(users, CommitLog(Initial(Genesis(users), requests), events), user, currency);
  }

  lemma {:induction false} LogFromRequests(db: Ledger, requests: seq<Request>, events: seq<Event>, k: nat)
    requires Run(Initial(db, requests), events).Some? && k < |CommitLog(Initial(db, requests), events)|
    ensures CommitLog(Initial(db, requests), events)[k] in requests
  {
    var s := Initial(db, requests);
    var front := events[..|events| - 1];
    RequestsFixed(db, requests, front);
    if k < |CommitLog(s, front)| {
      LogFromRequests(db, requests, front, k);
    } else {
      var p := Run(s, front).value.procs[events[|events| - 1].i];
      assert p.req in requests;
    }
  }

  /** Every record of every interleaving was left by one of the requests and meets the audit bounds. */
  lemma AlwaysAuditable(users: set<UserId>, requests: seq<Request>, events: seq<Event>)
    requires SaneLog(requests) && Run(Initial(Genesis(users), requests), events).Some?
    ensures forall rec :: rec in Run(Initial(Genesis(users), requests), events).value.db.records ==> Audited(rec, requests)
  {
    var log := CommitLog(Initial(Genesis(users), requests), events);
    GenesisConsistent(users);
    Serializable(Genesis(users), requests, events);
    LogIsSane(Genesis(users), requests, events);
    LogAuditable(users, log);
    forall rec | rec in Run(Initial(Genesis(users), requests), events).value.db.records ensures Audited(rec, requests) {
      forall i | 0 <= i < |log| ensures log[i] in requests { LogFromRequests(Genesis(users), requests, events, i); }
      MoreRequests(rec, log, requests);
    }
  }

  /** With amounts of at most four decimals no record of any interleaving needs a term for its amount's rounding. */
  lemma AlwaysAuditableOnGrid(users: set<UserId>, requests: seq<Request>, events: seq<Event>)
    requires SaneLog(requests) && Run(Initial(Genesis(users), requests), events).Some?
    requires forall i :: 0 <= i < |requests| && !requests[i].EnsureWallet? ==> OnGrid(requests[i].amount)
    ensures forall rec :: rec in Run(Initial(Genesis(users), requests), events).value.db.records ==>
              Near(rec.toAmount, Times(rec.fromAmount, rec.rateUsed), 0.00005 + 0.000000005 * rec.fromAmount)
  {
    AlwaysAuditable(users, requests, events);
    forall rec | rec in Run(Initial(Genesis(users), requests), events).value.db.records
      ensures Near(rec.toAmount, Times(rec.fromAmount, rec.rateUsed), 0.00005 + 0.000000005 * rec.fromAmount)
    {
      GridAuditable(rec, requests);
    }
  }

  /** Conservation of value in every interleaving. */
  lemma AlwaysConserved(users: set<UserId>, requests: seq<Request>, events: seq<Event>, user: UserId,
                        price: Currency -> real, currencies: seq<Currency>)
    requires SaneLog(requests) && Run(Initial(Genesis(users), requests), events).Some?
    requires Distinct(currencies) && forall c :: price(c) > 0.0
    requires forall r :: r in requests ==> Priced(r, price) && forall c :: c in Touched(r) ==> c in currencies
    ensures var log := CommitLog(Initial(Genesis(users), requests), events);
            var db := Run(Initial(Genesis(users), requests), events).value.db;
            Near(Value(db, user, price, currencies), Funded(log, user, price), TotalSlack(log, user, price))
  {
    var log := CommitLog(Initial(Genesis(users), requests), events);
    GenesisConsistent(users);
    Serializable(Genesis(users), requests, events);
    LogIsSane(Genesis(users), requests, events);
    forall i | 0 <= i < |log|
      ensures Priced(log[i], price) && forall c :: c in Touched(log[i]) ==> c in currencies
    {
      LogFromRequests(Genesis(users), requests, events, i);
    }
    ValueConserved(users, log, user, price, currencies);
  }
}
