/**
 What every request keeps true of the committed tables: the ledger explains
 every balance, money is conserved per currency, entries group into
 transactions, and history is only ever extended.
 */
module LedgerInvariants {
  import opened Wrappers
  import opened Totals
  import opened Ledger

  // ---------- the invariant ----------

  /** The reconciliation query: the sum of a wallet's entries. */
  function SumFor(entries: seq<Entry>, wallet: Id): int {
    if entries == [] then 0
    else
      var last := entries[|entries| - 1];
      SumFor(entries[..|entries| - 1], wallet) + if last.wallet == wallet then last.amount else 0
  }

  // Every balance is the sum of its entries and fits its column.
  ghost predicate Explained(wallets: map<Id, Wallet>, entries: seq<Entry>) {
    && (forall w :: w in wallets ==> wallets[w].balance == SumFor(entries, w) && Fits(wallets[w].balance))
    && (forall i :: 0 <= i < |entries| ==> entries[i].wallet in wallets)
  }

  // In append order every balance_after is the running sum of its wallet.
  ghost predicate Running(entries: seq<Entry>) {
    forall n :: 0 <= n < |entries| ==>
      && entries[n].balanceAfter == SumFor(entries[..n + 1], entries[n].wallet)
      && Fits(entries[n].balanceAfter)
  }

  ghost predicate UniqueRows(t: Tables) {
    && (forall i, j :: 0 <= i < j < |t.transactions| ==>
          t.transactions[i].key != t.transactions[j].key && t.transactions[i].id != t.transactions[j].id)
    && (forall v, w :: v in t.wallets && w in t.wallets && v != w ==>
          t.wallets[v].user != t.wallets[w].user || t.wallets[v].currency != t.wallets[w].currency)
  }

  // The entries the last transaction of a journal must have made.
  ghost predicate Booked(tx: Transaction, tail: seq<Entry>) {
    && tx.amount > 0
    && (forall i :: 0 <= i < |tail| ==> tail[i].transaction == tx.id)
    && match tx.kind
       case DepositTx => |tail| == 1 && tail[0].direction == Credit && tail[0].amount == tx.amount
       case WithdrawalTx => |tail| == 1 && tail[0].direction == Debit && tail[0].amount == -tx.amount
       case TransferTx(from, to) =>
         && from != to && |tail| == 2
         && tail[0].wallet == from && tail[0].direction == Debit && tail[0].amount == -tx.amount
         && tail[1].wallet == to && tail[1].direction == Credit && tail[1].amount == tx.amount
  }

  function Arity(kind: Kind): nat {
    if kind.TransferTx? then 2 else 1
  }

  // The entries are exactly those of the transactions, in the same order.
  ghost predicate Journal(txs: seq<Transaction>, entries: seq<Entry>) {
    if txs == [] then entries == []
    else
      var tx := txs[|txs| - 1];
      var cut := |entries| - Arity(tx.kind);
      cut >= 0 && Booked(tx, entries[cut..]) && Journal(txs[..|txs| - 1], entries[..cut])
  }

  predicate Describes(event: AuditEvent, tx: Transaction) {
    match tx.kind
    case DepositTx => event.WalletDeposit? && event.amount == tx.amount
                      && event.currency == tx.currency && event.key == tx.key
    case WithdrawalTx => event.WalletWithdrawal? && event.amount == tx.amount
                         && event.currency == tx.currency && event.key == tx.key
    case TransferTx(from, to) => event == WalletTransfer(from, to, tx.amount, tx.currency, tx.key)
  }

  // Movement audit rows match the transactions one to one, in order.
  ghost predicate Audited(txs: seq<Transaction>, audit: seq<AuditRow>) {
    if audit == [] then txs == []
    else
      var event := audit[|audit| - 1].event;
      if event.WalletCreated? then Audited(txs, audit[..|audit| - 1])
      else
        && txs != []
        && Describes(event, txs[|txs| - 1])
        && Audited(txs[..|txs| - 1], audit[..|audit| - 1])
  }

  function BalanceIn(currency: string): Wallet -> int {
    (w: Wallet) => if w.currency == currency then w.balance else 0
  }

  ghost function TotalIn(wallets: map<Id, Wallet>, currency: string): int {
    Sum(wallets, BalanceIn(currency))
  }

  function Deposits(txs: seq<Transaction>, currency: string): int {
    if txs == [] then 0
    else
      var tx := txs[|txs| - 1];
      Deposits(txs[..|txs| - 1], currency)
      + if tx.kind.DepositTx? && tx.currency == currency then tx.amount else 0
  }

  function Withdrawals(txs: seq<Transaction>, currency: string): int {
    if txs == [] then 0
    else
      var tx := txs[|txs| - 1];
      Withdrawals(txs[..|txs| - 1], currency)
      + if tx.kind.WithdrawalTx? && tx.currency == currency then tx.amount else 0
  }

  ghost predicate Conserved(t: Tables) {
    forall c: string :: TotalIn(t.wallets, c) == Deposits(t.transactions, c) - Withdrawals(t.transactions, c)
  }

  // Transfers stay within one currency.
  ghost predicate Domestic(t: Tables) {
    forall i :: 0 <= i < |t.transactions| && t.transactions[i].kind.TransferTx? ==>
      var tx := t.transactions[i];
      && tx.kind.from in t.wallets && tx.kind.to in t.wallets
      && t.wallets[tx.kind.from].currency == tx.currency == t.wallets[tx.kind.to].currency
  }

  ghost predicate Valid(t: Tables) {
    && Explained(t.wallets, t.entries)
    && Running(t.entries)
    && UniqueRows(t)
    && Journal(t.transactions, t.entries)
    && Audited(t.transactions, t.audit)
    && Conserved(t)
    && Domestic(t)
  }

  predicate SameOwner(w: Wallet, w': Wallet) {
    w.user == w'.user && w.currency == w'.currency
  }

  // Later tables only ever extend earlier ones.
  ghost predicate Extends(t: Tables, t': Tables) {
    && t.transactions <= t'.transactions
    && t.entries <= t'.entries
    && t.audit <= t'.audit
    && (forall w :: w in t.wallets ==> w in t'.wallets && SameOwner(t.wallets[w], t'.wallets[w]))
  }

  // ---------- one posting ----------

  function Booking(wallets: map<Id, Wallet>, p: Posting): map<Id, Wallet>
    requires p.wallet in wallets
  {
    wallets[p.wallet := wallets[p.wallet].(balance := p.balanceAfter)]
  }

  lemma SumForAppend(entries: seq<Entry>, e: Entry, wallet: Id)
    ensures SumFor(entries + [e], wallet) == SumFor(entries, wallet) + if e.wallet == wallet then e.amount else 0
  {
    assert (entries + [e])[..|entries|] == entries;
  }

  lemma BookingExplained(wallets: map<Id, Wallet>, entries: seq<Entry>, p: Posting, id: Id)
    requires Explained(wallets, entries) && Running(entries)
    requires p.wallet in wallets && p.balanceAfter == wallets[p.wallet].balance + p.amount
    requires Fits(p.balanceAfter)
    ensures Explained(Booking(wallets, p), entries + [EntryOf(id, p)])
    ensures Running(entries + [EntryOf(id, p)])
  {
    var e := EntryOf(id, p);
    var entries' := entries + [e];
    forall w | w in wallets
      ensures SumFor(entries', w) == SumFor(entries, w) + if e.wallet == w then e.amount else 0
    {
      SumForAppend(entries, e, w);
    }
    forall n | 0 <= n < |entries'|
      ensures entries'[n].balanceAfter == SumFor(entries'[..n + 1], entries'[n].wallet) && Fits(entries'[n].balanceAfter)
    {
      if n < |entries| {
        assert entries'[..n + 1] == entries[..n + 1];
      } else {
        assert entries'[..n + 1] == entries';
      }
    }
  }

  lemma BookingTotal(wallets: map<Id, Wallet>, p: Posting, currency: string)
    requires p.wallet in wallets && p.balanceAfter == wallets[p.wallet].balance + p.amount
    ensures TotalIn(Booking(wallets, p), currency)
         == TotalIn(wallets, currency) + if wallets[p.wallet].currency == currency then p.amount else 0
  {
    SumUpdate(wallets, BalanceIn(currency), p.wallet, wallets[p.wallet].(balance := p.balanceAfter));
  }

  // ---------- one recorded transaction ----------

  ghost predicate Recordable(t: Tables, r: Request, id: Id, plan: Plan) {
    && !r.CreateWallet? && WellFormed(r)
    && (r.Transfer? ==> r.from != r.to)
    && !HasKey(t, r.key)
    && Decide(r, t.wallets) == Post(plan)
    && !Taken(t, id)
    && InRange(plan.postings)
  }

  // A plan's postings, booked one after the other.
  lemma RecordBooks(t: Tables, r: Request, id: Id, plan: Plan)
    requires Recordable(t, r, id, plan)
    ensures var t' := Record(t, r, id, plan);
            var ps := plan.postings;
            && |ps| == Arity(plan.kind)
            && ps[0].wallet in t.wallets
            && (|ps| == 1 ==> t'.wallets == Booking(t.wallets, ps[0])
                              && t'.entries == t.entries + [EntryOf(id, ps[0])])
            && (|ps| == 2 ==> ps[1].wallet in t.wallets && ps[0].wallet != ps[1].wallet
                              && t'.wallets == Booking(Booking(t.wallets, ps[0]), ps[1])
                              && t'.entries == t.entries + [EntryOf(id, ps[0])] + [EntryOf(id, ps[1])])
  {
    var ps := plan.postings;
    var first := [ps[0]];
    assert first[..0] == [];
    assert Balances(first) == map[ps[0].wallet := ps[0].balanceAfter];
    if |ps| == 1 {
      assert ps == first;
    } else {
      assert ps[..1] == first;
      assert Balances(ps) == Balances(first)[ps[1].wallet := ps[1].balanceAfter];
      assert t.entries + EntriesFor(id, ps) == t.entries + [EntryOf(id, ps[0])] + [EntryOf(id, ps[1])];
    }
  }

  lemma RecordExplained(t: Tables, r: Request, id: Id, plan: Plan)
    requires Recordable(t, r, id, plan)
    requires Explained(t.wallets, t.entries) && Running(t.entries)
    ensures Explained(Record(t, r, id, plan).wallets, Record(t, r, id, plan).entries)
    ensures Running(Record(t, r, id, plan).entries)
  {
    RecordBooks(t, r, id, plan);
    var ps := plan.postings;
    BookingExplained(t.wallets, t.entries, ps[0], id);
    if |ps| == 2 {
      BookingExplained(Booking(t.wallets, ps[0]), t.entries + [EntryOf(id, ps[0])], ps[1], id);
    }
  }

  lemma RecordConserved(t: Tables, r: Request, id: Id, plan: Plan)
    requires Recordable(t, r, id, plan) && Conserved(t)
    ensures Conserved(Record(t, r, id, plan))
  {
    RecordBooks(t, r, id, plan);
    var t' := Record(t, r, id, plan);
    var ps := plan.postings;
    assert t'.transactions[..|t.transactions|] == t.transactions;
    forall c: string
      ensures TotalIn(t'.wallets, c) == Deposits(t'.transactions, c) - Withdrawals(t'.transactions, c)
    {
      BookingTotal(t.wallets, ps[0], c);
      if |ps| == 2 {
        BookingTotal(Booking(t.wallets, ps[0]), ps[1], c);
      }
    }
  }

  lemma RecordJournal(t: Tables, r: Request, id: Id, plan: Plan)
    requires Recordable(t, r, id, plan) && Journal(t.transactions, t.entries)
    ensures Journal(Record(t, r, id, plan).transactions, Record(t, r, id, plan).entries)
  {
    RecordBooks(t, r, id, plan);
    var t' := Record(t, r, id, plan);
    assert t'.transactions[..|t.transactions|] == t.transactions;
    assert t'.entries[..|t.entries|] == t.entries;
    assert t'.entries[|t.entries|..] == EntriesFor(id, plan.postings);
  }

  lemma RecordAudited(t: Tables, r: Request, id: Id, plan: Plan)
    requires Recordable(t, r, id, plan) && Audited(t.transactions, t.audit)
    ensures Audited(Record(t, r, id, plan).transactions, Record(t, r, id, plan).audit)
  {
    var t' := Record(t, r, id, plan);
    assert t'.transactions[..|t.transactions|] == t.transactions;
    assert t'.audit[..|t.audit|] == t.audit;
  }

  lemma RecordExtends(t: Tables, r: Request, id: Id, plan: Plan)
    requires Recordable(t, r, id, plan)
    ensures Extends(t, Record(t, r, id, plan))
    ensures Record(t, r, id, plan).wallets.Keys == t.wallets.Keys
  {
  }

  lemma RecordUnique(t: Tables, r: Request, id: Id, plan: Plan)
    requires Recordable(t, r, id, plan) && UniqueRows(t)
    ensures UniqueRows(Record(t, r, id, plan))
  {
    RecordExtends(t, r, id, plan);
    var t' := Record(t, r, id, plan);
    forall i | 0 <= i < |t.transactions|
      ensures t.transactions[i].key != r.key && t.transactions[i].id != id
    {
      assert t.transactions[i] in t.transactions;
    }
    forall v, w | v in t'.wallets && w in t'.wallets && v != w
      ensures t'.wallets[v].user != t'.wallets[w].user || t'.wallets[v].currency != t'.wallets[w].currency
    {
      assert SameOwner(t.wallets[v], t'.wallets[v]) && SameOwner(t.wallets[w], t'.wallets[w]);
    }
  }

  lemma RecordDomestic(t: Tables, r: Request, id: Id, plan: Plan)
    requires Recordable(t, r, id, plan) && Domestic(t)
    ensures Domestic(Record(t, r, id, plan))
  {
    RecordExtends(t, r, id, plan);
    var t' := Record(t, r, id, plan);
    forall i | 0 <= i < |t'.transactions| && t'.transactions[i].kind.TransferTx?
      ensures var tx := t'.transactions[i];
              && tx.kind.from in t'.wallets && tx.kind.to in t'.wallets
              && t'.wallets[tx.kind.from].currency == tx.currency == t'.wallets[tx.kind.to].currency
    {
      var tx := t'.transactions[i];
      if i < |t.transactions| {
        assert t.transactions[i] == tx;
      }
      assert SameOwner(t.wallets[tx.kind.from], t'.wallets[tx.kind.from]);
      assert SameOwner(t.wallets[tx.kind.to], t'.wallets[tx.kind.to]);
    }
  }

  lemma RecordKeepsValid(t: Tables, r: Request, id: Id, plan: Plan)
    requires Recordable(t, r, id, plan) && Valid(t)
    ensures Valid(Record(t, r, id, plan)) && Extends(t, Record(t, r, id, plan))
  {
    RecordExplained(t, r, id, plan);
    RecordConserved(t, r, id, plan);
    RecordJournal(t, r, id, plan);
    RecordAudited(t, r, id, plan);
    RecordExtends(t, r, id, plan);
    RecordUnique(t, r, id, plan);
    RecordDomestic(t, r, id, plan);
  }

  lemma OpenExplained(t: Tables, r: Request, id: Id)
    requires r.CreateWallet? && !Taken(t, id) && Explained(t.wallets, t.entries)
    ensures Explained(OpenWallet(t, r, id).wallets, t.entries)
  {
    NoEntries(t.entries, id);
  }

  lemma OpenConserved(t: Tables, r: Request, id: Id)
    requires r.CreateWallet? && !Taken(t, id) && Conserved(t)
    ensures Conserved(OpenWallet(t, r, id))
  {
    var t' := OpenWallet(t, r, id);
    forall c: string
      ensures TotalIn(t'.wallets, c) == TotalIn(t.wallets, c)
    {
      SumUpdate(t.wallets, BalanceIn(c), id, Wallet(r.user, r.currency, 0));
    }
  }

  lemma OpenExtends(t: Tables, r: Request, id: Id)
    requires r.CreateWallet? && !Taken(t, id) && !HasWallet(t, r.user, r.currency)
    requires UniqueRows(t) && Domestic(t) && Audited(t.transactions, t.audit)
    ensures var t' := OpenWallet(t, r, id);
            UniqueRows(t') && Domestic(t') && Audited(t'.transactions, t'.audit) && Extends(t, t')
  {
    assert OpenWallet(t, r, id).audit[..|t.audit|] == t.audit;
  }

  lemma OpenKeepsValid(t: Tables, r: Request, id: Id)
    requires r.CreateWallet? && Valid(t) && !HasWallet(t, r.user, r.currency) && !Taken(t, id)
    ensures Valid(OpenWallet(t, r, id)) && Extends(t, OpenWallet(t, r, id))
  {
    OpenExplained(t, r, id);
    OpenConserved(t, r, id);
    OpenExtends(t, r, id);
  }

  lemma {:induction false} NoEntries(entries: seq<Entry>, wallet: Id)
    requires forall i :: 0 <= i < |entries| ==> entries[i].wallet != wallet
    ensures SumFor(entries, wallet) == 0
  {
    if entries != [] {
      NoEntries(entries[..|entries| - 1], wallet);
    }
  }

  // ---------- any request, any run ----------

  /** Every request keeps the ledger valid and only extends it. */
  lemma ServeKeepsValid(t: Tables, r: Request, id: Id)
    requires Valid(t) && WellFormed(r)
    ensures Valid(Serve(t, r, id).tables) && Extends(t, Serve(t, r, id).tables)
  {
    var t' := Serve(t, r, id).tables;
    if t' != t {
      if r.CreateWallet? {
        OpenKeepsValid(t, r, id);
      } else {
        RecordKeepsValid(t, r, id, Decide(r, t.wallets).plan);
      }
    }
  }

  lemma {:induction false} RunKeepsValid(t: Tables, calls: seq<Call>)
    requires Valid(t)
    requires forall i :: 0 <= i < |calls| ==> WellFormed(calls[i].request)
    ensures Valid(Run(t, calls)) && Extends(t, Run(t, calls))
  {
    if calls != [] {
      var last := calls[|calls| - 1];
      RunKeepsValid(t, calls[..|calls| - 1]);
      ServeKeepsValid(Run(t, calls[..|calls| - 1]), last.request, last.id);
    }
  }

  /** An answer that is not this request's own new row comes with no effect at all. */
  lemma AllOrNothing(t: Tables, r: Request, id: Id)
    ensures var s := Serve(t, r, id);
      (s.answer.Refused? ==> s.tables == t)
      && (s.answer.Recorded? ==>
            if s.tables == t then s.answer == Recorded(Lookup(t.transactions, r.key).value) && HasKey(t, r.key)
            else !HasKey(t, r.key) && s.tables.transactions == t.transactions + [s.answer.transaction]
                 && s.answer.transaction.id == id && s.answer.transaction.key == r.key)
  {
  }

  // What a recorded request is meant to do to one wallet.
  function Moves(r: Request, wallet: Id): int {
    match r
    case CreateWallet(_, _) => 0
    case Deposit(w, _, amount, _) => if w == wallet then amount else 0
    case Withdraw(w, _, amount, _) => if w == wallet then -amount else 0
    case Transfer(from, to, _, amount, _) =>
      (if from == wallet then -amount else 0) + (if to == wallet then amount else 0)
  }

  /** A new record moves exactly the requested amounts, between open wallets, and touches no other wallet. */
  lemma RecordMovesExactly(t: Tables, r: Request, id: Id, wallet: Id)
    requires WellFormed(r) && wallet in t.wallets
    requires !r.CreateWallet? && !HasKey(t, r.key) && Serve(t, r, id).answer.Recorded?
    ensures var t' := Serve(t, r, id).tables;
      && Touches(r) <= t.wallets.Keys == t'.wallets.Keys
      && t'.wallets[wallet] == t.wallets[wallet].(balance := t.wallets[wallet].balance + Moves(r, wallet))
  {
    RecordBooks(t, r, id, Decide(r, t.wallets).plan);
  }

  // ---------- what validity means to a reader ----------

  /** A wallet's balance is the balance_after of its last entry. */
  lemma LastEntryIsBalance(t: Tables, wallet: Id, n: nat)
    requires Valid(t) && wallet in t.wallets
    requires n < |t.entries| && t.entries[n].wallet == wallet
    requires forall i :: n < i < |t.entries| ==> t.entries[i].wallet != wallet
    ensures t.wallets[wallet].balance == t.entries[n].balanceAfter
  {
    SumForSkips(t.entries, wallet, n + 1);
    assert t.entries[..|t.entries|] == t.entries;
  }

  lemma {:induction false} SumForSkips(entries: seq<Entry>, wallet: Id, n: nat)
    requires n <= |entries|
    requires forall i :: n <= i < |entries| ==> entries[i].wallet != wallet
    ensures SumFor(entries, wallet) == SumFor(entries[..n], wallet)
  {
    if n < |entries| {
      SumForSkips(entries[..|entries| - 1], wallet, n);
      assert entries[..|entries| - 1][..n] == entries[..n];
    } else {
      assert entries[..n] == entries;
    }
  }

  /** Consecutive entries of a wallet chain: each balance_after is the previous one plus the amount. */
  lemma BalancesChain(entries: seq<Entry>, wallet: Id, m: nat, n: nat)
    requires Running(entries)
    requires m < n < |entries| && entries[m].wallet == wallet == entries[n].wallet
    requires forall i :: m < i < n ==> entries[i].wallet != wallet
    ensures entries[n].balanceAfter == entries[m].balanceAfter + entries[n].amount
  {
    var upTo := entries[..n];
    SumForSkips(upTo, wallet, m + 1);
    assert upTo[..m + 1] == entries[..m + 1];
    assert entries[..n + 1] == upTo + [entries[n]];
    SumForAppend(upTo, entries[n], wallet);
  }

  function EntriesOf(entries: seq<Entry>, id: Id): seq<Entry> {
    if entries == [] then []
    else
      var last := entries[|entries| - 1];
      EntriesOf(entries[..|entries| - 1], id) + if last.transaction == id then [last] else []
  }

  lemma {:induction false} EntriesOfConcat(a: seq<Entry>, b: seq<Entry>, id: Id)
    ensures EntriesOf(a + b, id) == EntriesOf(a, id) + EntriesOf(b, id)
  {
    if b == [] {
      assert a + b == a;
    } else {
      assert (a + b)[..|a + b| - 1] == a + b[..|b| - 1];
      EntriesOfConcat(a, b[..|b| - 1], id);
    }
  }

  lemma {:induction false} EntriesOfBlock(block: seq<Entry>, owner: Id, id: Id)
    requires forall i :: 0 <= i < |block| ==> block[i].transaction == owner
    ensures EntriesOf(block, id) == if id == owner then block else []
  {
    if block != [] {
      EntriesOfBlock(block[..|block| - 1], owner, id);
    }
  }

  lemma {:induction false} NoStrayEntries(txs: seq<Transaction>, entries: seq<Entry>, id: Id)
    requires Journal(txs, entries)
    requires forall i :: 0 <= i < |txs| ==> txs[i].id != id
    ensures EntriesOf(entries, id) == []
  {
    if txs != [] {
      var tx := txs[|txs| - 1];
      var cut := |entries| - Arity(tx.kind);
      NoStrayEntries(txs[..|txs| - 1], entries[..cut], id);
      EntriesOfBlock(entries[cut..], tx.id, id);
      EntriesOfConcat(entries[..cut], entries[cut..], id);
      assert entries[..cut] + entries[cut..] == entries;
    }
  }

  /** Looked up by its id, a transaction has exactly the entries its kind calls for. */
  lemma {:induction false} TransactionHasItsEntries(txs: seq<Transaction>, entries: seq<Entry>, n: nat)
    requires Journal(txs, entries) && n < |txs|
    requires forall i, j :: 0 <= i < j < |txs| ==> txs[i].id != txs[j].id
    ensures Booked(txs[n], EntriesOf(entries, txs[n].id))
  {
    var last := txs[|txs| - 1];
    var cut := |entries| - Arity(last.kind);
    var before := txs[..|txs| - 1];
    EntriesOfConcat(entries[..cut], entries[cut..], txs[n].id);
    assert entries[..cut] + entries[cut..] == entries;
    EntriesOfBlock(entries[cut..], last.id, txs[n].id);
    if n == |txs| - 1 {
      NoStrayEntries(before, entries[..cut], last.id);
    } else {
      TransactionHasItsEntries(before, entries[..cut], n);
    }
  }

  // ---------- retries ----------

  lemma LookupAppend(txs: seq<Transaction>, tx: Transaction, key: string)
    requires tx.key != key
    ensures Lookup(txs + [tx], key) == Lookup(txs, key)
  {
    assert (txs + [tx])[..|txs|] == txs;
  }

  lemma LookupStable(t: Tables, r: Request, id: Id, key: string)
    requires HasKey(t, key)
    ensures Lookup(Serve(t, r, id).tables.transactions, key) == Lookup(t.transactions, key)
  {
    var t' := Serve(t, r, id).tables;
    if t'.transactions != t.transactions {
      LookupAppend(t.transactions, t'.transactions[|t.transactions|], key);
    }
  }

  lemma {:induction false} LookupStableOverRun(t: Tables, calls: seq<Call>, key: string)
    requires HasKey(t, key)
    ensures Lookup(Run(t, calls).transactions, key) == Lookup(t.transactions, key)
  {
    if calls != [] {
      LookupStableOverRun(t, calls[..|calls| - 1], key);
      LookupStable(Run(t, calls[..|calls| - 1]), calls[|calls| - 1].request, calls[|calls| - 1].id, key);
    }
  }

  lemma {:induction false} RunConcat(t: Tables, a: seq<Call>, b: seq<Call>)
    ensures Run(t, a + b) == Run(Run(t, a), b)
  {
    if b == [] {
      assert a + b == a;
    } else {
      assert (a + b)[..|a + b| - 1] == a + b[..|b| - 1];
      RunConcat(t, a, b[..|b| - 1]);
    }
  }

  /**
   A repeat of a recorded request, inserted anywhere later in a serial run,
   answers with the original transaction and changes nothing, then or afterwards.
   */
  lemma RetryIsInvisible(t: Tables, r: Request, id: Id, between: seq<Call>,
                         retry: Request, retryId: Id, after: seq<Call>)
    requires !r.CreateWallet? && Serve(t, r, id).answer.Recorded?
    requires !retry.CreateWallet? && retry.key == r.key && (retry.Transfer? ==> retry.from != retry.to)
    ensures var t1 := Run(Serve(t, r, id).tables, between);
            && Serve(t1, retry, retryId) == Served(t1, Serve(t, r, id).answer)
            && Run(t, [Call(id, r)] + between + [Call(retryId, retry)] + after)
            == Run(t, [Call(id, r)] + between + after)
  {
    var t0 := Serve(t, r, id).tables;
    var tx := Serve(t, r, id).answer.transaction;
    if !HasKey(t, r.key) {
      assert t0.transactions[|t.transactions|] == tx;
    }
    assert Lookup(t0.transactions, r.key) == Some(tx);
    LookupStableOverRun(t0, between, r.key);
    var first := [Call(id, r)];
    var again := [Call(retryId, retry)];
    assert first[..0] == [] && again[..0] == [];
    assert Run(t, first) == t0;
    RunConcat(t, first, between);
    var t1 := Run(t0, between);
    assert Run(t1, again) == t1;
    RunConcat(t, first + between, again);
    RunConcat(t, first + between + again, after);
    RunConcat(t, first + between, after);
  }
}
