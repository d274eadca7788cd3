/**
 What each ledger request is for, written out on the rows: when it is served,
 why it is refused, whose money it moves, and every row it leaves behind.
 */
module LedgerMeaning {
  import opened Wrappers
  import opened Ledger
  import opened LedgerInvariants

  // ---------- written out ----------

  predicate KeyIsNew(t: Tables, key: string) {
    forall tx :: tx in t.transactions ==> tx.key != key
  }

  predicate IdIsNew(t: Tables, id: Id) {
    id !in t.wallets && forall tx :: tx in t.transactions ==> tx.id != id
  }

  predicate Bigint(x: int) {
    0 <= x <= 9223372036854775807
  }

  // The user holds this wallet.
  predicate Holds(t: Tables, user: Id, wallet: Id) {
    wallet in t.wallets && t.wallets[wallet].user == user
  }

  // ---------- wallets ----------

  /** A wallet is opened exactly when the user has none in that currency; it starts empty. */
  lemma WalletOpensIff(t: Tables, user: Id, currency: string, id: Id)
    ensures var s := Serve(t, CreateWallet(user, currency), id);
            var has := exists w :: w in t.wallets && t.wallets[w].user == user && t.wallets[w].currency == currency;
      && (s.answer == Refused(WalletAlreadyExists(currency)) <==> has)
      && (s.answer == Opened(id) <==> !has && IdIsNew(t, id))
      && (s.answer == Opened(id) ==>
            s.tables == Tables(t.wallets[id := Wallet(user, currency, 0)], t.transactions, t.entries,
                               t.audit + [AuditRow(user, WalletCreated(id, currency))]))
      && (s.answer != Opened(id) ==> s.tables == t)
  {
  }

  // ---------- deposits ----------

  /** A deposit under a new key is recorded exactly when its own user holds the wallet and the numbers fit. */
  lemma DepositRecordedIff(t: Tables, wallet: Id, user: Id, amount: int, key: string, id: Id)
    requires amount > 0 && KeyIsNew(t, key)
    ensures var answer := Serve(t, Deposit(wallet, user, amount, key), id).answer;
      && (answer == Refused(WalletNotFound) <==> !Holds(t, user, wallet))
      && (answer.Recorded? <==>
            Holds(t, user, wallet) && Bigint(amount) && Bigint(t.wallets[wallet].balance + amount) && IdIsNew(t, id))
  {
    if Holds(t, user, wallet) {
      SingleRange(t, Deposit(wallet, user, amount, key));
    }
  }

  /** What a recorded deposit leaves: the higher balance, one row, one credit, one audit row, and nothing else. */
  lemma DepositRecords(t: Tables, wallet: Id, user: Id, amount: int, key: string, id: Id)
    requires amount > 0 && KeyIsNew(t, key) && Serve(t, Deposit(wallet, user, amount, key), id).answer.Recorded?
    ensures wallet in t.wallets
    ensures var row := t.wallets[wallet];
            var tx := Transaction(id, key, DepositTx, amount, row.currency);
            Serve(t, Deposit(wallet, user, amount, key), id) == Served(
              Tables(t.wallets[wallet := Wallet(row.user, row.currency, row.balance + amount)],
                     t.transactions + [tx],
                     t.entries + [Entry(id, wallet, amount, Credit, row.balance + amount)],
                     t.audit + [AuditRow(user, WalletDeposit(wallet, amount, row.currency, key))]),
              Recorded(tx))
  {
    var r := Deposit(wallet, user, amount, key);
    RecordBooks(t, r, id, Decide(r, t.wallets).plan);
  }

  // ---------- withdrawals ----------

  /** A withdrawal under a new key is recorded exactly when its own user holds the wallet and it is covered. */
  lemma WithdrawalRecordedIff(t: Tables, wallet: Id, user: Id, amount: int, key: string, id: Id)
    requires amount > 0 && KeyIsNew(t, key)
    ensures var answer := Serve(t, Withdraw(wallet, user, amount, key), id).answer;
      && (answer == Refused(WalletNotFound) <==> !Holds(t, user, wallet))
      && (answer.Refused? && answer.why.InsufficientFunds? <==>
            Holds(t, user, wallet) && t.wallets[wallet].balance < amount)
      && (answer.Refused? && answer.why.InsufficientFunds? ==>
            answer.why == InsufficientFunds(t.wallets[wallet].balance, amount))
      && (answer.Recorded? <==>
            Holds(t, user, wallet) && amount <= t.wallets[wallet].balance && Bigint(amount)
            && Bigint(t.wallets[wallet].balance - amount) && IdIsNew(t, id))
  {
    if Holds(t, user, wallet) && amount <= t.wallets[wallet].balance {
      SingleRange(t, Withdraw(wallet, user, amount, key));
    }
  }

  lemma WithdrawalRecords(t: Tables, wallet: Id, user: Id, amount: int, key: string, id: Id)
    requires amount > 0 && KeyIsNew(t, key) && Serve(t, Withdraw(wallet, user, amount, key), id).answer.Recorded?
    ensures wallet in t.wallets
    ensures var row := t.wallets[wallet];
            var tx := Transaction(id, key, WithdrawalTx, amount, row.currency);
            Serve(t, Withdraw(wallet, user, amount, key), id) == Served(
              Tables(t.wallets[wallet := Wallet(row.user, row.currency, row.balance - amount)],
                     t.transactions + [tx],
                     t.entries + [Entry(id, wallet, -amount, Debit, row.balance - amount)],
                     t.audit + [AuditRow(user, WalletWithdrawal(wallet, amount, row.currency, key))]),
              Recorded(tx))
  {
    var r := Withdraw(wallet, user, amount, key);
    RecordBooks(t, r, id, Decide(r, t.wallets).plan);
  }

  lemma SingleRange(t: Tables, r: Request)
    requires (r.Deposit? || r.Withdraw?) && Decide(r, t.wallets).Post?
    ensures var ps := Decide(r, t.wallets).plan.postings;
            InRange(ps) <==> Fits(ps[0].balanceAfter)
  {
  }

  // ---------- transfers ----------

  // The sender's own wallet, and a different open one in the same currency.
  predicate Routed(t: Tables, user: Id, from: Id, to: Id) {
    from != to && Holds(t, user, from) && to in t.wallets && t.wallets[from].currency == t.wallets[to].currency
  }

  /** A transfer under a new key is recorded exactly when its own user holds the sender, and every refusal has its one reason. */
  lemma TransferRecordedIff(t: Tables, from: Id, to: Id, user: Id, amount: int, key: string, id: Id)
    requires amount > 0 && KeyIsNew(t, key)
    ensures var answer := Serve(t, Transfer(from, to, user, amount, key), id).answer;
      && (answer == Refused(SameWalletTransfer) <==> from == to)
      && (answer == Refused(WalletNotFound) <==> from != to && !(Holds(t, user, from) && to in t.wallets))
      && (answer.Refused? && answer.why.CurrencyMismatch? <==>
            from != to && Holds(t, user, from) && to in t.wallets && t.wallets[from].currency != t.wallets[to].currency)
      && (answer.Refused? && answer.why.InsufficientFunds? <==>
            Routed(t, user, from, to) && t.wallets[from].balance < amount)
      && (answer.Recorded? <==>
            Routed(t, user, from, to) && amount <= t.wallets[from].balance && Bigint(amount) && IdIsNew(t, id)
            && Bigint(t.wallets[from].balance - amount) && Bigint(t.wallets[to].balance + amount))
  {
    if Routed(t, user, from, to) && amount <= t.wallets[from].balance {
      DoubleRange(t, Transfer(from, to, user, amount, key));
    }
  }

  /** The figures a refused transfer reports are the sender's. */
  lemma TransferRefusalTells(t: Tables, from: Id, to: Id, user: Id, amount: int, key: string, id: Id)
    requires amount > 0 && KeyIsNew(t, key) && Serve(t, Transfer(from, to, user, amount, key), id).answer.Refused?
    ensures var why := Serve(t, Transfer(from, to, user, amount, key), id).answer.why;
      && (why.InsufficientFunds? ==> from in t.wallets && why == InsufficientFunds(t.wallets[from].balance, amount))
      && (why.CurrencyMismatch? ==>
            from in t.wallets && to in t.wallets
            && why == CurrencyMismatch(t.wallets[from].currency, t.wallets[to].currency))
  {
  }

  lemma DoubleRange(t: Tables, r: Request)
    requires r.Transfer? && Decide(r, t.wallets).Post?
    ensures var ps := Decide(r, t.wallets).plan.postings;
            InRange(ps) <==> Fits(ps[0].balanceAfter) && Fits(ps[1].balanceAfter)
  {
  }

  lemma TransferRecords(t: Tables, from: Id, to: Id, user: Id, amount: int, key: string, id: Id)
    requires amount > 0 && KeyIsNew(t, key) && Serve(t, Transfer(from, to, user, amount, key), id).answer.Recorded?
    ensures from in t.wallets && to in t.wallets
    ensures var sender, receiver := t.wallets[from], t.wallets[to];
            var tx := Transaction(id, key, TransferTx(from, to), amount, sender.currency);
            Serve(t, Transfer(from, to, user, amount, key), id) == Served(
              Tables(t.wallets[from := Wallet(sender.user, sender.currency, sender.balance - amount)]
                              [to := Wallet(receiver.user, receiver.currency, receiver.balance + amount)],
                     t.transactions + [tx],
                     t.entries + [Entry(id, from, -amount, Debit, sender.balance - amount)]
                               + [Entry(id, to, amount, Credit, receiver.balance + amount)],
                     t.audit + [AuditRow(user, WalletTransfer(from, to, amount, sender.currency, key))]),
              Recorded(tx))
  {
    var r := Transfer(from, to, user, amount, key);
    RecordBooks(t, r, id, Decide(r, t.wallets).plan);
  }

  // ---------- any movement ----------

  /** Known keys replay: the stored row comes back, whatever the parameters, and nothing changes. */
  lemma KnownKeyReplays(t: Tables, r: Request, id: Id, tx: Transaction)
    requires UniqueRows(t) && !r.CreateWallet? && (r.Transfer? ==> r.from != r.to)
    requires tx in t.transactions && tx.key == r.key
    ensures Serve(t, r, id) == Served(t, Recorded(tx))
  {
    var found := Lookup(t.transactions, r.key).value;
    var i :| 0 <= i < |t.transactions| && t.transactions[i] == tx;
    var j :| 0 <= j < |t.transactions| && t.transactions[j] == found;
  }

  /** Only the owner of the wallet that is paid into, drawn from or sent from moves money with it. */
  lemma OnlyTheOwnerMoves(t: Tables, r: Request, id: Id)
    requires WellFormed(r) && Serve(t, r, id).tables != t
    ensures match r
            case CreateWallet(_, _) => true
            case Deposit(wallet, user, _, _) => Holds(t, user, wallet)
            case Withdraw(wallet, user, _, _) => Holds(t, user, wallet)
            case Transfer(from, to, user, _, _) => Routed(t, user, from, to)
  {
  }

  /** A balance falls only by its owner's withdrawal or transfer, and by exactly that amount. */
  lemma OnlyTheOwnerPays(t: Tables, r: Request, id: Id, wallet: Id)
    requires WellFormed(r) && wallet in t.wallets && wallet in Serve(t, r, id).tables.wallets
    requires Serve(t, r, id).tables.wallets[wallet].balance < t.wallets[wallet].balance
    ensures t.wallets[wallet].user == r.user
    ensures (r.Withdraw? && r.wallet == wallet) || (r.Transfer? && r.from == wallet)
    ensures Serve(t, r, id).tables.wallets[wallet].balance == t.wallets[wallet].balance - r.amount
  {
    if !r.CreateWallet? {
      OnlyTheOwnerMoves(t, r, id);
      RecordMovesExactly(t, r, id, wallet);
    }
  }
}
