// Any number of wallet requests in flight at once. Every database round trip of
// `fund`, `convert` and `ensureWallet` is one step; steps of different requests
// interleave freely and wait for each other's row locks and uncommitted inserts.
module LockMachine {
  import opened Wrappers
  import opened Conversion
  import opened WalletLedger

  datatype Outcome = Committed | Unchanged | Failed(error: Error)

  /** The next step of a request. */
  datatype Pc =
    | Start          // checks, user lookup and wallet lookup
    | InsertWallet   // the lookup found nothing
    | LockFirst      // the funded row, or the `from` row
    | LockTo
    | Write          // save the balance rows
    | Append         // save the record
    | Commit
    | Done(outcome: Outcome)

  datatype Proc = Proc(
    req: Request, pc: Pc, wallet: WalletId, newWallet: bool,
    first: Option<real>, second: Option<real>)   // the two rows as read; None when absent

  datatype State = State(db: Ledger, procs: seq<Proc>)

  datatype Event = Advance(i: nat) | Abort(i: nat)

  /** Something only one request can hold: a locked row, or a key of an uncommitted insert. */
  datatype Resource =
    | RowLock(key: RowKey) | RowInsert(key: RowKey)
    | WalletInsert(user: UserId) | WalletPk(id: WalletId) | ReferenceInsert(reference: string)

  // ---------- One request ----------

  predicate Active(p: Proc) {
    !p.pc.Done?
  }

  function FirstKey(p: Proc): RowKey
    requires !p.req.EnsureWallet?
  {
    (p.wallet, if p.req.Fund? then p.req.currency else p.req.from)
  }

  function SecondKey(p: Proc): RowKey
    requires p.req.Convert?
  {
    (p.wallet, p.req.to)
  }

  function NewFirst(p: Proc): real
    requires !p.req.EnsureWallet?
  {
    if p.req.Fund? then Credited(OrZero(p.first), p.req.amount) else Debited(OrZero(p.first), p.req.amount)
  }

  function NewSecond(p: Proc): real
    requires p.req.Convert?
  {
    Credited(OrZero(p.second), Received(p.req.amount, p.req.rate))
  }

  /** The rows a request has to insert rather than update. */
  function Inserts(p: Proc): set<RowKey> {
    match p.req
    case Fund(_, _, _, _) => if p.first.None? then {FirstKey(p)} else {}
    case Convert(_, _, _, _, _, _, _) => if p.second.None? then {SecondKey(p)} else {}
    case EnsureWallet(_, _) => {}
  }

  /** The rows a request locked: it read them with `pessimistic_write` and they existed. */
  function Locks(p: Proc): set<RowKey> {
    if p.req.EnsureWallet? then {}
    else
      (if p.pc in {LockTo, Write, Append, Commit} && p.first.Some? then {FirstKey(p)} else {}) +
      (if p.req.Convert? && p.pc in {Write, Append, Commit} && p.second.Some? then {SecondKey(p)} else {})
  }

  /** The row keys a request has inserted and not yet committed. */
  function Inserted(p: Proc): set<RowKey> {
    if p.pc in {Append, Commit} then Inserts(p) else {}
  }

  function Held(p: Proc): set<Resource> {
    (set key | key in Locks(p) :: RowLock(key)) +
    (set key | key in Inserted(p) :: RowInsert(key)) +
    (if p.newWallet && Active(p) then {WalletInsert(p.req.user), WalletPk(p.wallet)} else {}) +
    (if p.pc == Commit && !p.req.EnsureWallet? then {ReferenceInsert(p.req.draw.reference)} else {})
  }

  /** What the next step has to be alone with; it waits while another request holds any of it. */
  function Wants(db: Ledger, p: Proc): set<Resource> {
    match p.pc
    case InsertWallet => {WalletInsert(p.req.user), WalletPk(p.req.draw.walletId)}
    case LockFirst =>
      if !p.req.EnsureWallet? && FirstKey(p) in db.balances then {RowLock(FirstKey(p))} else {}
    case LockTo =>
      if p.req.Convert? && SecondKey(p) in db.balances then {RowLock(SecondKey(p))} else {}
    case Write => set key | key in Inserts(p) :: RowInsert(key)
    case Append => {ReferenceInsert(p.req.draw.reference)}
    case _ => {}
  }

  function Fail(p: Proc, error: Error): Proc {
    p.(pc := Done(Failed(error)))
  }

  /** One step of a request that is not blocked, seeing the committed tables. */
  function Next(db: Ledger, p: Proc): Proc {
    var r := p.req;
    match p.pc
    case Start =>
      var refusal := Validate(db, r);
      if refusal.Some? then Fail(p, refusal.value)
      else if r.user !in db.wallets then p.(pc := InsertWallet)
      else if r.EnsureWallet? then p.(pc := Done(Unchanged))
      else p.(pc := LockFirst, wallet := db.wallets[r.user])
    case InsertWallet =>
      if r.user in db.wallets || r.draw.walletId in db.wallets.Values then Fail(p, UniqueViolation)
      else p.(pc := if r.EnsureWallet? then Commit else LockFirst, wallet := r.draw.walletId, newWallet := true)
    case LockFirst =>
      if r.EnsureWallet? then p
      else
        var row := Row(db, FirstKey(p));
        if r.Convert? && (row.None? || row.value < r.amount) then Fail(p, InsufficientBalance)
        else p.(pc := if r.Convert? then LockTo else Write, first := row)
    case LockTo =>
      if !r.Convert? then p else p.(pc := Write, second := Row(db, SecondKey(p)))
    case Write =>
      if r.EnsureWallet? then p
      else if !RowFits(FirstKey(p), NewFirst(p)) || (r.Convert? && !RowFits(SecondKey(p), NewSecond(p))) then Fail(p, ColumnOverflow)
      else if exists key :: key in Inserts(p) && key in db.balances then Fail(p, UniqueViolation)
      else p.(pc := Append)
    case Append =>
      if r.EnsureWallet? then p
      else if !RecordFits(RecordOf(r, p.wallet)) then Fail(p, ColumnOverflow)
      else if ReferenceUsed(db, r.draw.reference) then Fail(p, UniqueViolation)
      else p.(pc := Commit)
    case Commit => p.(pc := Done(Committed))
    case Done(_) => p
  }

  /** The tables once a request at Commit has made its writes visible. */
  function Publish(db: Ledger, p: Proc): Ledger {
    var wallets := if p.newWallet then db.wallets[p.req.user := p.wallet] else db.wallets;
    match p.req
    case EnsureWallet(_, _) => db.(wallets := wallets)
    case Fund(_, _, _, _) =>
      Ledger(db.users, wallets, db.balances[FirstKey(p) := NewFirst(p)], db.records + [RecordOf(p.req, p.wallet)])
    case Convert(_, _, _, _, _, _, _) =>
      Ledger(db.users, wallets, db.balances[FirstKey(p) := NewFirst(p)][SecondKey(p) := NewSecond(p)],
             db.records + [RecordOf(p.req, p.wallet)])
  }

  // ---------- All requests ----------

  /** Request i cannot step until request j commits or fails. */
  predicate WaitsFor(s: State, i: nat, j: nat) {
    i < |s.procs| && j < |s.procs| && i != j && Wants(s.db, s.procs[i]) * Held(s.procs[j]) != {}
  }

  predicate Blocked(s: State, i: nat) {
    exists j: nat :: j < |s.procs| && WaitsFor(s, i, j)
  }

  predicate CanAdvance(s: State, i: nat) {
    i < |s.procs| && Active(s.procs[i]) && !Blocked(s, i)
  }

  function Step(s: State, e: Event): Option<State> {
    match e
    case Advance(i) =>
      if !CanAdvance(s, i) then None
      else
        var p := s.procs[i];
        Some(State(if p.pc == Commit then Publish(s.db, p) else s.db, s.procs[i := Next(s.db, p)]))
    case Abort(i) =>   // a deadlock victim, a lost connection, a crash
      if i < |s.procs| && Active(s.procs[i]) then Some(s.(procs := s.procs[i := Fail(s.procs[i], Aborted)])) else None
  }

  function Begin(r: Request): Proc {
    Proc(r, Start, 0, false, None, None)
  }

  /** Requests against an existing ledger, none of them started. */
  function Initial(db: Ledger, requests: seq<Request>): State {
    State(db, seq(|requests|, i requires 0 <= i < |requests| => Begin(requests[i])))
  }

  function Run(s: State, events: seq<Event>): Option<State> {
    if events == [] then Some(s)
    else
      match Run(s, events[..|events| - 1])
      case None => None
      case Some(before) => Step(before, events[|events| - 1])
  }

  /** The requests a run committed, in commit order. */
  function CommitLog(s: State, events: seq<Event>): seq<Request> {
    if events == [] then []
    else
      CommitLog(s, events[..|events| - 1]) +
      match Run(s, events[..|events| - 1])
      case None => []
      case Some(before) => CommittedBy(before, events[|events| - 1])
  }

  function CommittedBy(s: State, e: Event): seq<Request> {
    if e.Advance? && CanAdvance(s, e.i) && s.procs[e.i].pc == Commit then [s.procs[e.i].req] else []
  }
}
