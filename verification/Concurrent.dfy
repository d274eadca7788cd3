/**
 Any number of ledger requests running at once over the shared tables.

 A request is a small-step process.  Its unlocked reads see the newest
 committed tables; a row lock is held from the locking statement to the end of
 the transaction and waits while another process holds the row; an INSERT of an
 idempotency key waits while another process holds an uncommitted row with that
 key; writes stay in a private write set until COMMIT publishes them at once.
 A process is named by the UUID its INSERT would draw.

 `history` keeps every committed state, newest last, and `commits` the request
 behind each of them.  No step reads anything but the newest state.
 */
module Concurrent {
  import opened Wrappers
  import opened Ledger

  datatype WriteSet = WriteSet(transaction: Transaction, balances: map<Id, int>, entries: seq<Entry>)

  datatype Pc =
    | Arrived                                     // nothing done yet
    | Begun                                       // the unlocked check found nothing
    | Locking(asked: nat, rows: seq<Id>, seen: map<Id, Wallet>)
                                                  // inside SELECT .. ORDER BY id FOR UPDATE, issued at state `asked`
    | Checking(asked: nat, seen: map<Id, Wallet>) // the locked rows were returned
    | Inserting(seen: map<Id, Wallet>, plan: Plan)  // about to insert the key, or waiting to
    | Refetching(seen: map<Id, Wallet>)           // the insert returned no row
    | Writing(seen: map<Id, Wallet>, plan: Plan, done: nat, writes: WriteSet)
    | Finished(answer: Answer, at: nat, ended: nat) // answered as of state `at`; over at state `ended`
    | Aborted                                     // connection lost, timeout, shutdown: rolled back

  // A request, the states it arrived at and its unlocked check read, and where it is.
  datatype Proc = Proc(request: Request, begun: nat, read: nat, pc: Pc)

  datatype System = System(history: seq<Tables>, commits: seq<Call>, procs: map<Id, Proc>)

  datatype Action = Spawn(id: Id, request: Request) | Advance(id: Id) | Abort(id: Id)

  const START := System([EMPTY], [], map[])

  function Now(s: System): Tables
    requires s.history != []
  {
    s.history[|s.history| - 1]
  }

  // ---------- locks ----------

  function Seen(pc: Pc): map<Id, Wallet> {
    match pc
    case Locking(_, _, seen) => seen
    case Checking(_, seen) => seen
    case Inserting(seen, _) => seen
    case Refetching(seen) => seen
    case Writing(seen, _, _, _) => seen
    case _ => map[]
  }

  predicate HoldsRow(q: Proc, row: Id) {
    row in Seen(q.pc)
  }

  predicate HoldsKey(q: Proc, key: string) {
    q.pc.Writing? && !q.request.CreateWallet? && q.request.key == key
  }

  predicate Over(q: Proc) {
    q.pc.Finished? || q.pc.Aborted?
  }

  // p waits for q: for a row it is about to lock, or for a key it is about to insert.
  predicate WaitsFor(p: Proc, q: Proc) {
    match p.pc
    case Locking(_, rows, _) => rows != [] && HoldsRow(q, rows[0])
    case Inserting(_, _) => !p.request.CreateWallet? && p.request.amount <= MAX_BIGINT && HoldsKey(q, p.request.key)
    case _ => false
  }

  predicate Blocked(s: System, id: Id)
    requires id in s.procs
  {
    exists q :: q in s.procs && q != id && WaitsFor(s.procs[id], s.procs[q])
  }

  predicate Enabled(s: System, a: Action) {
    match a
    case Spawn(id, r) => id !in s.procs && WellFormed(r)
    case Advance(id) => id in s.procs && !Over(s.procs[id]) && !Blocked(s, id)
    case Abort(id) => id in s.procs && !Over(s.procs[id])
  }

  // ---------- steps ----------

  // The rows a locking SELECT finds in its snapshot, ascending by id.
  function LockOrder(r: Request, t: Tables): seq<Id>
    requires !r.CreateWallet?
  {
    if r.Transfer? then
      var low := if r.from < r.to then r.from else r.to;
      var high := if r.from < r.to then r.to else r.from;
      (if low in t.wallets then [low] else []) + (if high in t.wallets then [high] else [])
    else if r.wallet in t.wallets then [r.wallet] else []
  }

  function Moved(s: System, id: Id, pc: Pc): System
    requires id in s.procs
  {
    s.(procs := s.procs[id := s.procs[id].(pc := pc)])
  }

  function Answered(s: System, id: Id, answer: Answer, at: nat): System
    requires id in s.procs && s.history != []
  {
    Moved(s, id, Finished(answer, at, |s.history| - 1))
  }

  // The unlocked check reads the newest committed state.
  function Reading(s: System, id: Id): System
    requires id in s.procs && s.history != []
  {
    s.(procs := s.procs[id := s.procs[id].(read := |s.history| - 1)])
  }

  // COMMIT: the new tables become the newest state and every lock is released.
  function Published(s: System, id: Id, t: Tables, answer: Answer): System
    requires id in s.procs && s.history != []
  {
    var q := s.procs[id];
    System(s.history + [t], s.commits + [Call(id, q.request)],
           s.procs[id := q.(pc := Finished(answer, |s.history| - 1, |s.history|))])
  }

  function Overwrite(t: Tables, w: WriteSet, row: AuditRow): Tables {
    Tables(Overlay(t.wallets, w.balances), t.transactions + [w.transaction],
           t.entries + w.entries, t.audit + [row])
  }

  function AdvanceOpening(s: System, id: Id): System
    requires id in s.procs && s.history != [] && s.procs[id].request.CreateWallet?
  {
    var r := s.procs[id].request;
    var top := |s.history| - 1;
    match s.procs[id].pc
    case Arrived =>
      if HasWallet(Now(s), r.user, r.currency) then
        Answered(Reading(s, id), id, Refused(WalletAlreadyExists(r.currency)), top)
      else Moved(Reading(s, id), id, Begun)
    case Begun =>
      if HasWallet(Now(s), r.user, r.currency) || Taken(Now(s), id) then
        Answered(s, id, Refused(UniqueViolation), top)
      else Published(s, id, OpenWallet(Now(s), r, id), Opened(id))
    case _ => s
  }

  function AdvanceMovement(s: System, id: Id): System
    requires id in s.procs && s.history != [] && !s.procs[id].request.CreateWallet?
  {
    var r := s.procs[id].request;
    var now := Now(s);
    var top := |s.history| - 1;
    match s.procs[id].pc
    case Arrived =>
      if r.Transfer? && r.from == r.to then Answered(Reading(s, id), id, Refused(SameWalletTransfer), top)
      else (match Lookup(now.transactions, r.key)
            case Some(tx) => Answered(Reading(s, id), id, Recorded(tx), top)
            case None => Moved(Reading(s, id), id, Begun))
    case Begun => Moved(s, id, Locking(top, LockOrder(r, now), map[]))
    case Locking(asked, rows, seen) =>
      if rows == [] then Moved(s, id, Checking(asked, seen))
      else if rows[0] in now.wallets then
        Moved(s, id, Locking(asked, rows[1..], seen[rows[0] := now.wallets[rows[0]]]))
      else Moved(s, id, Locking(asked, rows[1..], seen))
    case Checking(asked, seen) =>
      (match Decide(r, seen)
       case Refuse(why) => Answered(s, id, Refused(why), if why.WalletNotFound? then asked else top)
       case Post(plan) => Moved(s, id, Inserting(seen, plan)))
    case Inserting(seen, plan) =>
      if r.amount > MAX_BIGINT then Answered(s, id, Refused(OutOfRange), top)
      else if HasKey(now, r.key) then Moved(s, id, Refetching(seen))
      else if Taken(now, id) then Answered(s, id, Refused(UniqueViolation), top)
      else Moved(s, id, Writing(seen, plan, 0, WriteSet(RowOf(id, r, plan), map[], [])))
    case Refetching(_) =>
      (match Lookup(now.transactions, r.key)
       case Some(tx) => Answered(s, id, Recorded(tx), top)
       case None => Answered(s, id, NoRecord, top))
    case Writing(seen, plan, done, writes) =>
      if done < |plan.postings| then
        var p := plan.postings[done];
        if !Fits(p.balanceAfter) then Answered(s, id, Refused(OutOfRange), top)
        else Moved(s, id, Writing(seen, plan, done + 1,
                    writes.(balances := writes.balances[p.wallet := p.balanceAfter],
                            entries := writes.entries + [EntryOf(id, p)])))
      else Published(s, id, Overwrite(now, writes, AuditRow(r.user, EventOf(r, plan))), Recorded(writes.transaction))
    case _ => s
  }

  function Next(s: System, a: Action): System
    requires s.history != [] && Enabled(s, a)
  {
    match a
    case Spawn(id, r) => s.(procs := s.procs[id := Proc(r, |s.history| - 1, |s.history| - 1, Arrived)])
    case Advance(id) =>
      if s.procs[id].request.CreateWallet? then AdvanceOpening(s, id) else AdvanceMovement(s, id)
    case Abort(id) => Moved(s, id, Aborted)
  }

  // `run` is an interleaving that leads from `from` to `to`.
  ghost predicate Leads(from: System, run: seq<Action>, to: System)
    decreases |run|
  {
    if run == [] then from == to
    else from.history != [] && Enabled(from, run[0]) && Leads(Next(from, run[0]), run[1..], to)
  }

  ghost predicate Reachable(s: System) {
    exists run :: Leads(START, run, s)
  }
}
