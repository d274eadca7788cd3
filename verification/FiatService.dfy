/**
 The wallet, deposit, withdrawal and transfer services, statement by statement,
 over one connection to the tables.  Each method is proved to do exactly what
 the atomic ledger's `Serve` does; the rollback on every raise is what makes
 that true after the first write.
 */
module FiatService {
  import opened Wrappers
  import opened Ledger

  // What a service returns for the row a SELECT found, or for None.
  function AnswerFrom(tx: Option<Transaction>): Answer {
    match tx
    case Some(row) => Recorded(row)
    case None => NoRecord
  }

  class Connection {
    var wallets: map<Id, Wallet>
    var transactions: seq<Transaction>
    var entries: seq<Entry>
    var audit: seq<AuditRow>
    var saved: Tables         // the tables as they were at BEGIN

    ghost function State(): Tables
      reads this
    {
      Tables(wallets, transactions, entries, audit)
    }

    constructor ()
      ensures State() == EMPTY
    {
      wallets, transactions, entries, audit := map[], [], [], [];
      saved := EMPTY;
    }

    // ---------- transaction block ----------

    method Begin()
      modifies this`saved
      ensures saved == State()
    {
      saved := Tables(wallets, transactions, entries, audit);
    }

    // An exception leaves the block.
    method Rollback()
      modifies this
      ensures State() == old(saved) && saved == old(saved)
    {
      wallets, transactions, entries, audit := saved.wallets, saved.transactions, saved.entries, saved.audit;
    }

    // ---------- repositories ----------

    method GetAndLock(wallet: Id) returns (row: Option<Wallet>)
      ensures row.Some? <==> wallet in wallets
      ensures row.Some? ==> row.value == wallets[wallet]
    {
      row := if wallet in wallets then Some(wallets[wallet]) else None;
    }

    method GetAndLockMultiple(ids: set<Id>) returns (rows: map<Id, Wallet>)
      ensures rows.Keys == ids * wallets.Keys
      ensures forall w :: w in rows ==> rows[w] == wallets[w]
    {
      rows := map w | w in ids && w in wallets :: wallets[w];
    }

    method UpdateBalance(wallet: Id, newBalance: int) returns (raised: bool)
      requires wallet in wallets
      modifies this`wallets
      ensures raised <==> !Fits(newBalance)
      ensures wallets == if raised then old(wallets)
                         else old(wallets)[wallet := old(wallets)[wallet].(balance := newBalance)]
    {
      raised := !(0 <= newBalance <= MAX_BIGINT);
      if !raised {
        wallets := wallets[wallet := wallets[wallet].(balance := newBalance)];
      }
    }

    method GetByIdempotencyKey(key: string) returns (tx: Option<Transaction>)
      ensures tx.Some? ==> tx.value in transactions && tx.value.key == key
      ensures tx.None? ==> forall row :: row in transactions ==> row.key != key
      ensures tx == Lookup(transactions, key)
    {
      tx := Lookup(transactions, key);
    }

    // INSERT .. ON CONFLICT (idempotency_key) DO NOTHING RETURNING *
    method CreateTransaction(row: Transaction) returns (raised: Option<Refusal>, tx: Option<Transaction>)
      modifies this`transactions
      ensures raised == if row.amount > MAX_BIGINT then Some(OutOfRange)
                        else if Lookup(old(transactions), row.key).None? && Taken(old(State()), row.id)
                        then Some(UniqueViolation) else None
      ensures raised.Some? || Lookup(old(transactions), row.key).Some? ==> tx == None && transactions == old(transactions)
      ensures raised.None? && Lookup(old(transactions), row.key).None? ==>
                tx == Some(row) && transactions == old(transactions) + [row]
    {
      raised, tx := None, None;
      if row.amount > MAX_BIGINT {
        raised := Some(OutOfRange);
      } else {
        var existing := Lookup(transactions, row.key);
        if existing.None? {
          if row.id in wallets || exists t :: t in transactions && t.id == row.id {
            raised := Some(UniqueViolation);
          } else {
            transactions := transactions + [row];
            tx := Some(row);
          }
        }
      }
    }

    method CreateEntry(entry: Entry)
      modifies this`entries
      ensures entries == old(entries) + [entry]
    {
      entries := entries + [entry];
    }

    method LogAuditEvent(user: Id, event: AuditEvent)
      modifies this`audit
      ensures audit == old(audit) + [AuditRow(user, event)]
    {
      audit := audit + [AuditRow(user, event)];
    }

    // ---------- services ----------

    /** WalletService.create_wallet; `id` is the UUID the INSERT draws, `upper` is str.upper. */
    method CreateWallet(user: Id, requested: string, upper: string -> string, id: Id) returns (answer: Answer)
      modifies this
      ensures Served(State(), answer) == Serve(old(State()), Request.CreateWallet(user, upper(requested)), id)
    {
      var currency := upper(requested);
      if exists w :: w in wallets && wallets[w].user == user && wallets[w].currency == currency {
        return Refused(WalletAlreadyExists(currency));
      }
      Begin();
      if id in wallets || exists t :: t in transactions && t.id == id {
        Rollback();
        return Refused(UniqueViolation);
      }
      wallets := wallets[id := Wallet(user, currency, 0)];
      LogAuditEvent(user, WalletCreated(id, currency));
      return Opened(id);
    }

    /** DepositService.deposit */
    method Deposit(wallet: Id, user: Id, amount: int, key: string, id: Id) returns (answer: Answer)
      requires amount > 0
      modifies this
      ensures Served(State(), answer) == Serve(old(State()), Request.Deposit(wallet, user, amount, key), id)
    {
      var existing := GetByIdempotencyKey(key);
      if existing.Some? {
        return Recorded(existing.value);
      }
      Begin();
      var row := GetAndLock(wallet);
      if row.None? || row.value.user != user {
        Rollback();
        return Refused(WalletNotFound);
      }
      var newBalance := row.value.balance + amount;
      var raised, tx := CreateTransaction(Transaction(id, key, DepositTx, amount, row.value.currency));
      if raised.Some? {
        Rollback();
        return Refused(raised.value);
      }
      if tx.None? {
        tx := GetByIdempotencyKey(key);
        return AnswerFrom(tx);
      }
      var failed := UpdateBalance(wallet, newBalance);
      if failed {
        Rollback();
        return Refused(OutOfRange);
      }
      CreateEntry(Entry(tx.value.id, wallet, amount, Credit, newBalance));
      LogAuditEvent(user, WalletDeposit(wallet, amount, row.value.currency, key));
      answer := Recorded(tx.value);
      OnePosting(old(State()), Request.Deposit(wallet, user, amount, key), id);
    }

    /** WithdrawalService.withdraw */
    method Withdraw(wallet: Id, user: Id, amount: int, key: string, id: Id) returns (answer: Answer)
      requires amount > 0
      modifies this
      ensures Served(State(), answer) == Serve(old(State()), Request.Withdraw(wallet, user, amount, key), id)
    {
      var existing := GetByIdempotencyKey(key);
      if existing.Some? {
        return Recorded(existing.value);
      }
      Begin();
      var row := GetAndLock(wallet);
      if row.None? || row.value.user != user {
        Rollback();
        return Refused(WalletNotFound);
      }
      if row.value.balance < amount {
        Rollback();
        return Refused(InsufficientFunds(row.value.balance, amount));
      }
      var newBalance := row.value.balance - amount;
      var raised, tx := CreateTransaction(Transaction(id, key, WithdrawalTx, amount, row.value.currency));
      if raised.Some? {
        Rollback();
        return Refused(raised.value);
      }
      if tx.None? {
        tx := GetByIdempotencyKey(key);
        return AnswerFrom(tx);
      }
      var failed := UpdateBalance(wallet, newBalance);
      if failed {
        Rollback();
        return Refused(OutOfRange);
      }
      CreateEntry(Entry(tx.value.id, wallet, -amount, Debit, newBalance));
      LogAuditEvent(user, WalletWithdrawal(wallet, amount, row.value.currency, key));
      answer := Recorded(tx.value);
      OnePosting(old(State()), Request.Withdraw(wallet, user, amount, key), id);
    }

    /** TransferService.transfer */
    method Transfer(from: Id, to: Id, user: Id, amount: int, key: string, id: Id) returns (answer: Answer)
      requires amount > 0
      modifies this
      ensures Served(State(), answer) == Serve(old(State()), Request.Transfer(from, to, user, amount, key), id)
    {
      if from == to {
        return Refused(SameWalletTransfer);
      }
      var existing := GetByIdempotencyKey(key);
      if existing.Some? {
        return Recorded(existing.value);
      }
      Begin();
      var rows := GetAndLockMultiple({from, to});
      if from !in rows || to !in rows {
        Rollback();
        return Refused(WalletNotFound);
      }
      var sender, receiver := rows[from], rows[to];
      if sender.user != user {
        Rollback();
        return Refused(WalletNotFound);
      }
      if sender.currency != receiver.currency {
        Rollback();
        return Refused(CurrencyMismatch(sender.currency, receiver.currency));
      }
      if sender.balance < amount {
        Rollback();
        return Refused(InsufficientFunds(sender.balance, amount));
      }
      ghost var start, r := State(), Request.Transfer(from, to, user, amount, key);
      var senderNew, receiverNew := sender.balance - amount, receiver.balance + amount;
      var raised, tx := CreateTransaction(Transaction(id, key, TransferTx(from, to), amount, sender.currency));
      if raised.Some? {
        Rollback();
        return Refused(raised.value);
      }
      if tx.None? {
        tx := GetByIdempotencyKey(key);
        return AnswerFrom(tx);
      }
      TwoPostings(start, r, id);
      var failed := UpdateBalance(from, senderNew);
      if failed {
        Rollback();
        return Refused(OutOfRange);
      }
      CreateEntry(Entry(tx.value.id, from, -amount, Debit, senderNew));
      failed := UpdateBalance(to, receiverNew);
      if failed {
        Rollback();
        return Refused(OutOfRange);
      }
      CreateEntry(Entry(tx.value.id, to, amount, Credit, receiverNew));
      LogAuditEvent(user, WalletTransfer(from, to, amount, sender.currency, key));
      answer := Recorded(tx.value);
    }
  }

  // What `Record` comes to, written as the row updates and inserts of the services.
  lemma OnePosting(t: Tables, r: Request, id: Id)
    requires r.Deposit? || r.Withdraw?
    requires Decide(r, t.wallets).Post?
    ensures var plan := Decide(r, t.wallets).plan;
            var p := plan.postings[0];
            Record(t, r, id, plan) == Tables(
              t.wallets[p.wallet := t.wallets[p.wallet].(balance := p.balanceAfter)],
              t.transactions + [RowOf(id, r, plan)],
              t.entries + [EntryOf(id, p)],
              t.audit + [AuditRow(r.user, EventOf(r, plan))])
  {
    var plan := Decide(r, t.wallets).plan;
    assert plan.postings[..0] == [];
    assert Balances(plan.postings) == map[plan.postings[0].wallet := plan.postings[0].balanceAfter];
    assert EntriesFor(id, plan.postings) == [EntryOf(id, plan.postings[0])];
  }

  lemma TwoPostings(t: Tables, r: Request, id: Id)
    requires r.Transfer? && r.from != r.to
    requires Decide(r, t.wallets).Post?
    ensures var plan := Decide(r, t.wallets).plan;
            var p, q := plan.postings[0], plan.postings[1];
            Judge(t, r, id) ==
              if r.amount > MAX_BIGINT then Served(t, Refused(OutOfRange))
              else if Taken(t, id) then Served(t, Refused(UniqueViolation))
              else if !Fits(p.balanceAfter) || !Fits(q.balanceAfter) then Served(t, Refused(OutOfRange))
              else Served(Tables(
                t.wallets[p.wallet := t.wallets[p.wallet].(balance := p.balanceAfter)]
                         [q.wallet := t.wallets[q.wallet].(balance := q.balanceAfter)],
                t.transactions + [RowOf(id, r, plan)],
                t.entries + [EntryOf(id, p)] + [EntryOf(id, q)],
                t.audit + [AuditRow(r.user, EventOf(r, plan))]), Recorded(RowOf(id, r, plan)))
  {
    var plan := Decide(r, t.wallets).plan;
    var ps := plan.postings;
    assert ps[..1] == [ps[0]] && ps[..1][..0] == [];
    assert Balances(ps[..1]) == map[ps[0].wallet := ps[0].balanceAfter];
    assert Balances(ps) == Balances(ps[..1])[ps[1].wallet := ps[1].balanceAfter];
    assert t.entries + EntriesFor(id, ps) == t.entries + [EntryOf(id, ps[0])] + [EntryOf(id, ps[1])];
  }
}
