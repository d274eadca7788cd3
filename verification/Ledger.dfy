/**
 The fiat ledger as one atomic machine: what each request does when it runs
 alone.  The service code (FiatService) and every interleaving of concurrent
 requests (Concurrent) are measured against `Serve`.
 */
module Ledger {
  import opened Wrappers

  // UUIDs: only their order and their uniqueness matter.
  type Id = nat

  // The largest value of a BIGINT column.
  const MAX_BIGINT: int := 0x7fff_ffff_ffff_ffff

  datatype Wallet = Wallet(user: Id, currency: string, balance: int)

  datatype Kind = DepositTx | WithdrawalTx | TransferTx(from: Id, to: Id)

  datatype Transaction = Transaction(id: Id, key: string, kind: Kind, amount: int, currency: string)

  datatype Direction = Credit | Debit

  datatype Entry = Entry(transaction: Id, wallet: Id, amount: int, direction: Direction, balanceAfter: int)

  datatype AuditEvent =
    | WalletCreated(wallet: Id, currency: string)
    | WalletDeposit(wallet: Id, amount: int, currency: string, key: string)
    | WalletWithdrawal(wallet: Id, amount: int, currency: string, key: string)
    | WalletTransfer(from: Id, to: Id, amount: int, currency: string, key: string)

  datatype AuditRow = AuditRow(user: Id, event: AuditEvent)

  // The committed tables; rows that are only ever inserted are in append order.
  datatype Tables = Tables(wallets: map<Id, Wallet>, transactions: seq<Transaction>,
                           entries: seq<Entry>, audit: seq<AuditRow>)

  datatype Request =
    | CreateWallet(user: Id, currency: string)
    | Deposit(wallet: Id, user: Id, amount: int, key: string)
    | Withdraw(wallet: Id, user: Id, amount: int, key: string)
    | Transfer(from: Id, to: Id, user: Id, amount: int, key: string)

  datatype Refusal =
    | WalletNotFound
    | WalletAlreadyExists(currency: string)
    | InsufficientFunds(available: int, requested: int)
    | CurrencyMismatch(fromCurrency: string, toCurrency: string)
    | SameWalletTransfer
    | OutOfRange            // a value does not fit its BIGINT column
    | UniqueViolation       // a primary key or UNIQUE constraint refused a row

  datatype Answer =
    | Opened(wallet: Id)
    | Recorded(transaction: Transaction)
    | Refused(why: Refusal)
    | NoRecord              // the service's "return tx" with tx = None

  datatype Served = Served(tables: Tables, answer: Answer)

  const EMPTY := Tables(map[], [], [], [])

  // What the request schemas let through.
  predicate WellFormed(r: Request) {
    r.CreateWallet? || r.amount > 0
  }

  function Lookup(txs: seq<Transaction>, key: string): (r: Option<Transaction>)
    ensures r.Some? ==> r.value in txs && r.value.key == key
    ensures r.None? <==> forall tx :: tx in txs ==> tx.key != key
  {
    if txs == [] then None
    else if txs[|txs| - 1].key == key then Some(txs[|txs| - 1])
    else Lookup(txs[..|txs| - 1], key)
  }

  predicate HasKey(t: Tables, key: string) {
    Lookup(t.transactions, key).Some?
  }

  predicate HasWallet(t: Tables, user: Id, currency: string) {
    exists w :: w in t.wallets && t.wallets[w].user == user && t.wallets[w].currency == currency
  }

  // The primary keys already in use.
  predicate Taken(t: Tables, id: Id) {
    id in t.wallets || exists tx :: tx in t.transactions && tx.id == id
  }

  // ---------- business checks ----------

  datatype Posting = Posting(wallet: Id, amount: int, direction: Direction, balanceAfter: int)

  datatype Plan = Plan(kind: Kind, currency: string, postings: seq<Posting>)

  datatype Decision = Refuse(why: Refusal) | Post(plan: Plan)

  function Touches(r: Request): set<Id> {
    match r
    case CreateWallet(_, _) => {}
    case Deposit(w, _, _, _) => {w}
    case Withdraw(w, _, _, _) => {w}
    case Transfer(f, t, _, _, _) => {f, t}
  }

  /** The checks each service makes on the wallet rows it has read. */
  function Decide(r: Request, rows: map<Id, Wallet>): Decision
    requires !r.CreateWallet?
  {
    match r
    case Deposit(w, user, amount, _) =>
      if w !in rows || rows[w].user != user then Refuse(WalletNotFound)
      else Post(Plan(DepositTx, rows[w].currency,
                     [Posting(w, amount, Credit, rows[w].balance + amount)]))
    case Withdraw(w, user, amount, _) =>
      if w !in rows || rows[w].user != user then Refuse(WalletNotFound)
      else if rows[w].balance < amount then Refuse(InsufficientFunds(rows[w].balance, amount))
      else Post(Plan(WithdrawalTx, rows[w].currency,
                     [Posting(w, -amount, Debit, rows[w].balance - amount)]))
    case Transfer(from, to, user, amount, _) =>
      if from !in rows || to !in rows then Refuse(WalletNotFound)
      else if rows[from].user != user then Refuse(WalletNotFound)
      else if rows[from].currency != rows[to].currency then
        Refuse(CurrencyMismatch(rows[from].currency, rows[to].currency))
      else if rows[from].balance < amount then Refuse(InsufficientFunds(rows[from].balance, amount))
      else Post(Plan(TransferTx(from, to), rows[from].currency,
                     [Posting(from, -amount, Debit, rows[from].balance - amount),
                      Posting(to, amount, Credit, rows[to].balance + amount)]))
  }

  // ---------- writes ----------

  predicate Fits(x: int) {
    0 <= x <= MAX_BIGINT
  }

  predicate InRange(postings: seq<Posting>) {
    forall i :: 0 <= i < |postings| ==> Fits(postings[i].balanceAfter)
  }

  function RowOf(id: Id, r: Request, plan: Plan): Transaction
    requires !r.CreateWallet?
  {
    Transaction(id, r.key, plan.kind, r.amount, plan.currency)
  }

  function EntryOf(id: Id, p: Posting): Entry {
    Entry(id, p.wallet, p.amount, p.direction, p.balanceAfter)
  }

  function EntriesFor(id: Id, postings: seq<Posting>): seq<Entry> {
    seq(|postings|, i requires 0 <= i < |postings| => EntryOf(id, postings[i]))
  }

  function Balances(postings: seq<Posting>): map<Id, int> {
    if postings == [] then map[]
    else
      var last := postings[|postings| - 1];
      Balances(postings[..|postings| - 1])[last.wallet := last.balanceAfter]
  }

  function Overlay(wallets: map<Id, Wallet>, balances: map<Id, int>): map<Id, Wallet> {
    map w | w in wallets :: if w in balances then wallets[w].(balance := balances[w]) else wallets[w]
  }

  function EventOf(r: Request, plan: Plan): AuditEvent
    requires !r.CreateWallet?
  {
    match r
    case Deposit(w, _, amount, key) => WalletDeposit(w, amount, plan.currency, key)
    case Withdraw(w, _, amount, key) => WalletWithdrawal(w, amount, plan.currency, key)
    case Transfer(from, to, _, amount, key) => WalletTransfer(from, to, amount, plan.currency, key)
  }

  function Record(t: Tables, r: Request, id: Id, plan: Plan): Tables
    requires !r.CreateWallet?
  {
    Tables(Overlay(t.wallets, Balances(plan.postings)),
           t.transactions + [RowOf(id, r, plan)],
           t.entries + EntriesFor(id, plan.postings),
           t.audit + [AuditRow(r.user, EventOf(r, plan))])
  }

  function OpenWallet(t: Tables, r: Request, id: Id): Tables
    requires r.CreateWallet?
  {
    t.(wallets := t.wallets[id := Wallet(r.user, r.currency, 0)],
       audit := t.audit + [AuditRow(r.user, WalletCreated(id, r.currency))])
  }

  // ---------- one request, alone ----------

  /** The answer and effect of a request whose idempotency key is not yet known. */
  function Judge(t: Tables, r: Request, id: Id): Served
    requires !r.CreateWallet?
  {
    match Decide(r, t.wallets)
    case Refuse(why) => Served(t, Refused(why))
    case Post(plan) =>
      if r.amount > MAX_BIGINT then Served(t, Refused(OutOfRange))
      else if Taken(t, id) then Served(t, Refused(UniqueViolation))
      else if !InRange(plan.postings) then Served(t, Refused(OutOfRange))
      else Served(Record(t, r, id, plan), Recorded(RowOf(id, r, plan)))
  }

  /** A whole request run alone; `id` is the UUID its INSERT would draw. */
  function Serve(t: Tables, r: Request, id: Id): Served {
    if r.CreateWallet? then
      if HasWallet(t, r.user, r.currency) then Served(t, Refused(WalletAlreadyExists(r.currency)))
      else if Taken(t, id) then Served(t, Refused(UniqueViolation))
      else Served(OpenWallet(t, r, id), Opened(id))
    else if r.Transfer? && r.from == r.to then Served(t, Refused(SameWalletTransfer))
    else match Lookup(t.transactions, r.key)
      case Some(tx) => Served(t, Recorded(tx))
      case None => Judge(t, r, id)
  }

  datatype Call = Call(id: Id, request: Request)

  function Run(t: Tables, calls: seq<Call>): Tables {
    if calls == [] then t
    else Serve(Run(t, calls[..|calls| - 1]), calls[|calls| - 1].request, calls[|calls| - 1].id).tables
  }
}
