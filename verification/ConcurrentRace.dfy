/**
 A racing retry, step by step: two withdrawals with one idempotency key both
 pass the unlocked check, one commits, and the other is refused for funds the
 first has just taken.  Its key is committed by then, so the atomic ledger would
 have answered with the record.
 */
module ConcurrentRace {
  import opened Wrappers
  import opened Ledger
  import opened Concurrent
  import opened ConcurrentInvariant
  import opened ConcurrentSteps

  lemma {:induction false} LeadsOn(from: System, run: seq<Action>, s: System, a: Action)
    requires Leads(from, run, s) && s.history != [] && Enabled(s, a)
    ensures Leads(from, run + [a], Next(s, a))
    decreases |run|
  {
    if run == [] {
      assert (run + [a])[1..] == [];
    } else {
      LeadsOn(Next(from, run[0]), run[1..], s, a);
      assert (run + [a])[1..] == run[1..] + [a];
    }
  }

  lemma ReachableNext(s: System, a: Action)
    requires Reachable(s) && s.history != [] && Enabled(s, a)
    ensures Reachable(Next(s, a))
  {
    var run :| Leads(START, run, s);
    LeadsOn(START, run, s, a);
  }

  // Nobody but `id` holds a row or an uncommitted key.
  predicate Undisturbed(s: System, id: Id) {
    forall i :: i in s.procs && i != id ==> Seen(s.procs[i].pc) == map[] && !s.procs[i].pc.Writing?
  }

  function At(s: System, id: Id, r: Request, begun: nat, pc: Pc): System {
    s.(procs := s.procs[id := Proc(r, begun, begun, pc)])
  }

  lemma Moves(s: System, id: Id, r: Request, begun: nat, pc: Pc, s': System)
    requires s.history != [] && Undisturbed(s, id) && !r.CreateWallet? && !pc.Finished? && !pc.Aborted?
    requires Reachable(At(s, id, r, begun, pc)) && s' == AdvanceMovement(At(s, id, r, begun, pc), id)
    ensures Reachable(s')
  {
    var now := At(s, id, r, begun, pc);
    assert !Blocked(now, id);
    ReachableNext(now, Advance(id));
  }

  // A new request passes its unlocked check.
  lemma Starts(s: System, id: Id, r: Request)
    requires Reachable(s) && s.history != [] && id !in s.procs && Undisturbed(s, id)
    requires (r.Deposit? || r.Withdraw?) && r.amount > 0 && !HasKey(Now(s), r.key)
    ensures Reachable(At(s, id, r, |s.history| - 1, Begun))
  {
    var begun := |s.history| - 1;
    ReachableNext(s, Spawn(id, r));
    Moves(s, id, r, begun, Arrived, At(s, id, r, begun, Begun));
  }

  // A deposit or withdrawal that the tables as they are would let through.
  predicate Pays(t: Tables, r: Request) {
    && (r.Deposit? || r.Withdraw?)
    && 0 < r.amount <= MAX_BIGINT
    && r.wallet in t.wallets && t.wallets[r.wallet].user == r.user
    && (r.Withdraw? ==> r.amount <= t.wallets[r.wallet].balance)
    && Fits(BalanceAfter(t, r))
  }

  function BalanceAfter(t: Tables, r: Request): int
    requires (r.Deposit? || r.Withdraw?) && r.wallet in t.wallets
  {
    t.wallets[r.wallet].balance + if r.Deposit? then r.amount else -r.amount
  }

  // A withdrawal from a wallet that covers it, but not twice.
  predicate CoversOnce(t: Tables, r: Request) {
    r.Withdraw? && Pays(t, r) && t.wallets[r.wallet].balance < 2 * r.amount
  }

  lemma Asks(s: System, id: Id, r: Request, begun: nat)
    requires s.history != [] && Undisturbed(s, id) && (r.Deposit? || r.Withdraw?) && r.wallet in Now(s).wallets
    requires Reachable(At(s, id, r, begun, Begun))
    ensures Reachable(At(s, id, r, begun, Locking(|s.history| - 1, [r.wallet], map[])))
  {
    Moves(s, id, r, begun, Begun, At(s, id, r, begun, Locking(|s.history| - 1, [r.wallet], map[])));
  }

  lemma Locked(s: System, id: Id, r: Request, begun: nat)
    requires s.history != [] && Undisturbed(s, id) && (r.Deposit? || r.Withdraw?) && r.wallet in Now(s).wallets
    requires Reachable(At(s, id, r, begun, Begun))
    ensures Reachable(At(s, id, r, begun, Checking(|s.history| - 1, map[r.wallet := Now(s).wallets[r.wallet]])))
  {
    var top, row := |s.history| - 1, Now(s).wallets[r.wallet];
    Asks(s, id, r, begun);
    assert [r.wallet][1..] == [];
    assert map[][r.wallet := row] == map[r.wallet := row];
    Moves(s, id, r, begun, Locking(top, [r.wallet], map[]), At(s, id, r, begun, Locking(top, [], map[r.wallet := row])));
    Moves(s, id, r, begun, Locking(top, [], map[r.wallet := row]), At(s, id, r, begun, Checking(top, map[r.wallet := row])));
  }

  function PlanOf(t: Tables, r: Request): Plan
    requires Pays(t, r)
  {
    Decide(r, t.wallets).plan
  }

  lemma Inserted(s: System, id: Id, r: Request, begun: nat, asked: nat)
    requires s.history != [] && Undisturbed(s, id) && Pays(Now(s), r)
    requires !HasKey(Now(s), r.key) && !Taken(Now(s), id)
    requires Reachable(At(s, id, r, begun, Checking(asked, map[r.wallet := Now(s).wallets[r.wallet]])))
    ensures var plan := PlanOf(Now(s), r);
            Reachable(At(s, id, r, begun, Writing(map[r.wallet := Now(s).wallets[r.wallet]], plan, 0,
                                                   WriteSet(RowOf(id, r, plan), map[], []))))
  {
    var seen, plan := map[r.wallet := Now(s).wallets[r.wallet]], PlanOf(Now(s), r);
    Moves(s, id, r, begun, Checking(asked, seen), At(s, id, r, begun, Inserting(seen, plan)));
    Moves(s, id, r, begun, Inserting(seen, plan),
          At(s, id, r, begun, Writing(seen, plan, 0, WriteSet(RowOf(id, r, plan), map[], []))));
  }

  function Written(t: Tables, id: Id, r: Request): WriteSet
    requires Pays(t, r)
  {
    var plan := PlanOf(t, r);
    var p := plan.postings[0];
    WriteSet(RowOf(id, r, plan), map[p.wallet := p.balanceAfter], [EntryOf(id, p)])
  }

  // The tables after the movement.
  function Paid(t: Tables, id: Id, r: Request): Tables
    requires Pays(t, r)
  {
    Overwrite(t, Written(t, id, r), AuditRow(r.user, EventOf(r, PlanOf(t, r))))
  }

  lemma Writes(s: System, id: Id, r: Request, begun: nat)
    requires s.history != [] && Undisturbed(s, id) && Pays(Now(s), r)
    requires var plan := PlanOf(Now(s), r);
             Reachable(At(s, id, r, begun, Writing(map[r.wallet := Now(s).wallets[r.wallet]], plan, 0,
                                                    WriteSet(RowOf(id, r, plan), map[], []))))
    ensures Reachable(At(s, id, r, begun, Writing(map[r.wallet := Now(s).wallets[r.wallet]], PlanOf(Now(s), r), 1,
                                                   Written(Now(s), id, r))))
  {
    var seen, plan := map[r.wallet := Now(s).wallets[r.wallet]], PlanOf(Now(s), r);
    var p := plan.postings[0];
    var before := WriteSet(RowOf(id, r, plan), map[], []);
    assert before.(balances := before.balances[p.wallet := p.balanceAfter], entries := before.entries + [EntryOf(id, p)])
        == Written(Now(s), id, r);
    Moves(s, id, r, begun, Writing(seen, plan, 0, before), At(s, id, r, begun, Writing(seen, plan, 1, Written(Now(s), id, r))));
  }

  // The system after the request has committed.
  function Settles(s: System, id: Id, r: Request, begun: nat): System
    requires s.history != [] && Pays(Now(s), r)
  {
    Published(At(s, id, r, begun, Begun), id, Paid(Now(s), id, r), Recorded(RowOf(id, r, PlanOf(Now(s), r))))
  }

  lemma Publishes(s: System, id: Id, r: Request, begun: nat)
    requires s.history != [] && Undisturbed(s, id) && Pays(Now(s), r)
    requires Reachable(At(s, id, r, begun, Writing(map[r.wallet := Now(s).wallets[r.wallet]], PlanOf(Now(s), r), 1,
                                                    Written(Now(s), id, r))))
    ensures Reachable(Settles(s, id, r, begun))
  {
    Moves(s, id, r, begun, Writing(map[r.wallet := Now(s).wallets[r.wallet]], PlanOf(Now(s), r), 1, Written(Now(s), id, r)),
          Settles(s, id, r, begun));
  }

  /** A deposit or withdrawal past its unlocked check, left alone, goes through. */
  lemma Commits(s: System, id: Id, r: Request, begun: nat)
    requires s.history != [] && Undisturbed(s, id) && Pays(Now(s), r)
    requires !HasKey(Now(s), r.key) && !Taken(Now(s), id)
    requires Reachable(At(s, id, r, begun, Begun))
    ensures Reachable(Settles(s, id, r, begun))
  {
    Locked(s, id, r, begun);
    Inserted(s, id, r, begun, |s.history| - 1);
    Writes(s, id, r, begun);
    Publishes(s, id, r, begun);
  }

  lemma PaidMoves(t: Tables, id: Id, r: Request)
    requires Pays(t, r)
    ensures var t' := Paid(t, id, r);
            && r.wallet in t'.wallets
            && t'.wallets[r.wallet] == t.wallets[r.wallet].(balance := BalanceAfter(t, r))
            && Lookup(t'.transactions, r.key) == Some(RowOf(id, r, PlanOf(t, r)))
  {
  }

  // Both requests are inside their transactions, past the unlocked check.
  function BothBegun(s: System, p: Id, q: Id, r: Request): System
    requires s.history != []
  {
    var begun := |s.history| - 1;
    s.(procs := s.procs[p := Proc(r, begun, begun, Begun)][q := Proc(r, begun, begun, Begun)])
  }

  lemma BothBegin(s: System, p: Id, q: Id, r: Request)
    requires Reachable(s) && s.history != [] && p !in s.procs && q !in s.procs && p != q
    requires Undisturbed(s, p) && r.Withdraw? && r.amount > 0 && !HasKey(Now(s), r.key)
    ensures Reachable(BothBegun(s, p, q, r))
  {
    Starts(s, p, r);
    Starts(At(s, p, r, |s.history| - 1, Begun), q, r);
  }

  lemma RunsToRefusal(s: System, id: Id, r: Request, begun: nat)
    requires s.history != [] && Undisturbed(s, id) && r.Withdraw?
    requires r.wallet in Now(s).wallets && Now(s).wallets[r.wallet].user == r.user
    requires Now(s).wallets[r.wallet].balance < r.amount
    requires Reachable(At(s, id, r, begun, Begun))
    ensures Reachable(At(s, id, r, begun,
              Finished(Refused(InsufficientFunds(Now(s).wallets[r.wallet].balance, r.amount)), |s.history| - 1, |s.history| - 1)))
  {
    var top, seen := |s.history| - 1, map[r.wallet := Now(s).wallets[r.wallet]];
    Locked(s, id, r, begun);
    Moves(s, id, r, begun, Checking(top, seen), At(s, id, r, begun,
      Finished(Refused(InsufficientFunds(Now(s).wallets[r.wallet].balance, r.amount)), top, top)));
  }

  // The first request runs to its commit, and leaves too little for the second.
  lemma FirstCommits(s: System, p: Id, q: Id, r: Request) returns (paid: System)
    requires s.history != [] && Reachable(BothBegun(s, p, q, r)) && p != q
    requires Undisturbed(s, p) && CoversOnce(Now(s), r) && !HasKey(Now(s), r.key) && !Taken(Now(s), p)
    ensures Reachable(paid) && paid.history != [] && Now(paid) == Paid(Now(s), p, r)
    ensures q in paid.procs && paid.procs[q] == Proc(r, |s.history| - 1, |s.history| - 1, Begun)
    ensures p in paid.procs && paid.procs[p].pc.Finished? && paid.procs[p].request == r
    ensures paid.procs[p].pc.answer == Recorded(RowOf(p, r, PlanOf(Now(s), r)))
    ensures Undisturbed(paid, q)
  {
    var begun := |s.history| - 1;
    var both := BothBegun(s, p, q, r);
    assert At(both, p, r, begun, Begun) == both;
    assert Undisturbed(both, p);
    Commits(both, p, r, begun);
    paid := Settles(both, p, r, begun);
  }

  lemma IdIsUnused(s: System, id: Id)
    requires Reachable(s) && id !in s.procs
    ensures s.history != [] && !Taken(Now(s), id)
  {
    ReachableInv(s);
  }

  lemma ReplayAnswers(t: Tables, id: Id, r: Request, tx: Transaction)
    requires (r.Deposit? || r.Withdraw?) && Lookup(t.transactions, r.key) == Some(tx)
    ensures Serve(t, r, id).answer == Recorded(tx)
  {
  }

  // The retry, whose key is now recorded, runs to its refusal.
  lemma RetryIsRefused(paid: System, p: Id, q: Id, r: Request, begun: nat, t: Tables) returns (s': System)
    requires CoversOnce(t, r) && paid.history != [] && Now(paid) == Paid(t, p, r)
    requires Reachable(paid) && q in paid.procs && paid.procs[q] == Proc(r, begun, begun, Begun) && Undisturbed(paid, q)
    ensures Reachable(s') && s'.history == paid.history && s'.procs.Keys == paid.procs.Keys
    ensures forall i :: i in paid.procs && i != q ==> s'.procs[i] == paid.procs[i]
    ensures s'.procs[q].request == r && s'.procs[q].pc.Finished?
    ensures s'.procs[q].pc.answer == Refused(InsufficientFunds(t.wallets[r.wallet].balance - r.amount, r.amount))
    ensures Serve(Now(s'), r, q).answer == Recorded(RowOf(p, r, PlanOf(t, r)))
  {
    PaidMoves(t, p, r);
    ReplayAnswers(Now(paid), q, r, RowOf(p, r, PlanOf(t, r)));
    assert At(paid, q, r, begun, Begun) == paid;
    RunsToRefusal(paid, q, r, begun);
    s' := At(paid, q, r, begun,
             Finished(Refused(InsufficientFunds(BalanceAfter(t, r), r.amount)), |paid.history| - 1, |paid.history| - 1));
  }

  /**
   From any reachable state in which nobody is mid-write, a wallet that covers a
   withdrawal only once makes its racing retry fail: the first commits, the
   retry is refused although its key is already recorded.
   */
  lemma RacingRetryIsRefused(s: System, p: Id, q: Id, r: Request) returns (s': System)
    requires Reachable(s) && p !in s.procs && q !in s.procs && p != q
    requires s.history != [] && Undisturbed(s, p) && CoversOnce(Now(s), r) && !HasKey(Now(s), r.key)
    ensures Reachable(s') && p in s'.procs && q in s'.procs
    ensures s'.procs[p].request == r && s'.procs[q].request == r
    ensures s'.procs[p].pc.Finished? && s'.procs[p].pc.answer.Recorded?
    ensures s'.procs[q].pc.Finished?
    ensures s'.procs[q].pc.answer == Refused(InsufficientFunds(Now(s).wallets[r.wallet].balance - r.amount, r.amount))
    ensures s'.history != [] && Serve(Now(s'), r, q).answer == s'.procs[p].pc.answer
  {
    IdIsUnused(s, p);
    BothBegin(s, p, q, r);
    var paid := FirstCommits(s, p, q, r);
    s' := RetryIsRefused(paid, p, q, r, |s.history| - 1, Now(s));
  }

  // ---------- from empty tables ----------

  // A new wallet, and then its first deposit.
  lemma Opens(user: Id, currency: string) returns (s: System)
    ensures Reachable(s) && s.procs.Keys == {0} && Undisturbed(s, 1) && s.history != []
    ensures Now(s) == OpenWallet(EMPTY, CreateWallet(user, currency), 0)
  {
    assert Leads(START, [], START);
    var spawned := Next(START, Spawn(0, CreateWallet(user, currency)));
    ReachableNext(START, Spawn(0, CreateWallet(user, currency)));
    var begun := Next(spawned, Advance(0));
    ReachableNext(spawned, Advance(0));
    s := Next(begun, Advance(0));
    ReachableNext(begun, Advance(0));
  }

  lemma Funds(s: System, id: Id, r: Request) returns (s': System)
    requires Reachable(s) && s.history != [] && id !in s.procs && Undisturbed(s, id)
    requires Pays(Now(s), r) && !HasKey(Now(s), r.key)
    ensures Reachable(s') && s'.procs.Keys == s.procs.Keys + {id} && s'.history == s.history + [Paid(Now(s), id, r)]
    ensures forall i :: i !in s'.procs ==> Undisturbed(s', i)
  {
    var begun := |s.history| - 1;
    IdIsUnused(s, id);
    Starts(s, id, r);
    Commits(s, id, r, begun);
    s' := Settles(s, id, r, begun);
  }

  // A wallet with 100 in it.
  lemma Funded() returns (s: System)
    ensures Reachable(s) && s.procs.Keys == {0, 1} && s.history != [] && Undisturbed(s, 2)
    ensures Now(s).wallets == map[0 := Wallet(7, "EUR", 100)]
    ensures |Now(s).transactions| == 1 && Now(s).transactions[0].key == "d"
  {
    var start := Opens(7, "EUR");
    var deposit := Deposit(0, 7, 100, "d");
    s := Funds(start, 1, deposit);
    PaidMoves(Now(start), 1, deposit);
    assert Now(s).transactions == Now(start).transactions + [RowOf(1, deposit, PlanOf(Now(start), deposit))];
  }

  lemma OtherKey(txs: seq<Transaction>)
    requires |txs| == 1 && txs[0].key == "d"
    ensures Lookup(txs, "w").None?
  {
    assert "d"[0] != "w"[0];
  }

  /** Such a race is reachable: 100 deposited, two requests to withdraw 60 under one key. */
  lemma ARaceExists() returns (s: System)
    ensures Reachable(s) && 2 in s.procs && 3 in s.procs
    ensures s.procs[2].request == Withdraw(0, 7, 60, "w") == s.procs[3].request
    ensures s.procs[2].pc.Finished? && s.procs[2].pc.answer.Recorded?
    ensures s.procs[3].pc.Finished? && s.procs[3].pc.answer == Refused(InsufficientFunds(40, 60))
  {
    var funded := Funded();
    OtherKey(Now(funded).transactions);
    s := RacingRetryIsRefused(funded, 2, 3, Withdraw(0, 7, 60, "w"));
  }
}
