/**
 What holds of the ledger under any interleaving of any number of requests,
 with aborts anywhere.
 */
module ConcurrentTheorems {
  import opened Wrappers
  import opened Totals
  import opened Ledger
  import opened LedgerInvariants
  import opened LedgerMeaning
  import opened Concurrent
  import opened ConcurrentInvariant
  import opened ConcurrentSteps

  // ---------- serializability ----------

  lemma {:induction false} HistoryIsRun(history: seq<Tables>, commits: seq<Call>, n: nat)
    requires Replays(history, commits) && n < |history|
    ensures history[n] == Run(EMPTY, commits[..n])
  {
    if n > 0 {
      HistoryIsRun(history, commits, n - 1);
      assert Effects(history[n - 1], commits[n - 1], history[n]);
      assert commits[..n][..n - 1] == commits[..n - 1];
    }
  }

  /**
   Serializability: the committed tables are those of the committed requests
   run one at a time, alone, in commit order; and they are a valid ledger.
   */
  lemma Serializable(s: System, n: nat)
    requires Reachable(s) && n < |s.history|
    ensures |s.history| == |s.commits| + 1
    ensures s.history[n] == Run(EMPTY, s.commits[..n])
    ensures Now(s) == Run(EMPTY, s.commits)
    ensures Valid(s.history[n])
    ensures Extends(s.history[n], Now(s))
  {
    ReachableInv(s);
    HistoryIsRun(s.history, s.commits, n);
    HistoryIsRun(s.history, s.commits, |s.commits|);
    assert s.commits[..|s.commits|] == s.commits;
    HistoryValid(s.history, s.commits, n);
    HistoryExtends(s.history, s.commits, n, |s.history| - 1);
  }

  /**
   In every committed state of every interleaving the ledger explains each
   balance, money in a currency is deposits less withdrawals, and each
   transaction has exactly the entries its kind calls for.
   */
  lemma LedgerExplainsEverything(s: System, n: nat, wallet: Id, currency: string, i: nat)
    requires Reachable(s) && n < |s.history|
    ensures var t := s.history[n];
      && (wallet in t.wallets ==> 0 <= t.wallets[wallet].balance == SumFor(t.entries, wallet) <= MAX_BIGINT)
      && TotalIn(t.wallets, currency) == Deposits(t.transactions, currency) - Withdrawals(t.transactions, currency)
      && (i < |t.transactions| ==> Booked(t.transactions[i], EntriesOf(t.entries, t.transactions[i].id)))
  {
    Serializable(s, n);
    ValidExplains(s.history[n], wallet, currency, i);
  }

  lemma ValidExplains(t: Tables, wallet: Id, currency: string, i: nat)
    requires Valid(t)
    ensures wallet in t.wallets ==> 0 <= t.wallets[wallet].balance == SumFor(t.entries, wallet) <= MAX_BIGINT
    ensures TotalIn(t.wallets, currency) == Deposits(t.transactions, currency) - Withdrawals(t.transactions, currency)
    ensures i < |t.transactions| ==> Booked(t.transactions[i], EntriesOf(t.entries, t.transactions[i].id))
  {
    if i < |t.transactions| {
      TransactionHasItsEntries(t.transactions, t.entries, i);
    }
  }

  /**
   Between consecutive committed states of any interleaving a balance falls only
   by a withdrawal or transfer of the wallet's own owner, and by exactly its amount.
   */
  lemma OnlyTheOwnerLoses(s: System, i: nat, wallet: Id)
    requires Reachable(s) && i < |s.commits|
    ensures |s.history| == |s.commits| + 1
    ensures wallet in s.history[i].wallets ==> wallet in s.history[i + 1].wallets
    ensures var r, before, after := s.commits[i].request, s.history[i].wallets, s.history[i + 1].wallets;
      wallet in before && after[wallet].balance < before[wallet].balance ==>
        && before[wallet].user == r.user
        && ((r.Withdraw? && r.wallet == wallet) || (r.Transfer? && r.from == wallet))
        && after[wallet].balance == before[wallet].balance - r.amount
  {
    ReachableInv(s);
    HistoryStep(s.history, s.commits, i);
    var c := s.commits[i];
    assert Effects(s.history[i], c, s.history[i + 1]);
    if wallet in s.history[i].wallets && s.history[i + 1].wallets[wallet].balance < s.history[i].wallets[wallet].balance {
      OnlyTheOwnerPays(s.history[i], c.request, c.id, wallet);
    }
  }

  /** No lost update: a row read under lock is the committed row until the reader's transaction ends. */
  lemma LockedRowsAreCommitted(s: System, id: Id, row: Id)
    requires Reachable(s) && id in s.procs && HoldsRow(s.procs[id], row)
    ensures s.history != []
    ensures row in Now(s).wallets && Now(s).wallets[row] == Seen(s.procs[id].pc)[row]
    ensures forall p :: p in s.procs && p != id ==> !HoldsRow(s.procs[p], row)
  {
    ReachableInv(s);
    assert Fresh(Now(s), s.procs[id]);
    forall p | p in s.procs && p != id
      ensures !HoldsRow(s.procs[p], row)
    {
      assert Apart(s.procs[id], s.procs[p]);
    }
  }

  // ---------- answers ----------

  /**
   What every request is told.  Its answer is a function of two committed states
   of its own lifetime: the one its unlocked check read and the one the answer
   is dated to.  If the atomic ledger would act on it there, that is where it
   committed; and the fallback that would return no record is never taken.
   */
  lemma AnswerIsReply(s: System, id: Id)
    requires Reachable(s) && id in s.procs && s.procs[id].pc.Finished?
    ensures var q := s.procs[id];
      && q.begun <= q.read <= q.pc.at <= q.pc.ended < |s.history| == |s.commits| + 1
      && q.pc.answer == Reply(s.history[q.read], s.history[q.pc.at], q.request, id)
      && q.pc.answer != NoRecord
      && (Serve(s.history[q.pc.at], q.request, id).tables != s.history[q.pc.at] ==>
            q.pc.at < |s.commits| && s.commits[q.pc.at] == Call(id, q.request))
  {
    ReachableInv(s);
    var q := s.procs[id];
    assert Settled(s.history, s.commits, id, q);
    NeverEmptyHanded(s.history[q.read], s.history[q.pc.at], q.request, id);
  }

  lemma NeverEmptyHanded(early: Tables, t: Tables, r: Request, id: Id)
    ensures Reply(early, t, r, id) != NoRecord
  {
  }

  // A rival committed between the two states, and the request's own checks fail after it.
  predicate Raced(early: Tables, t: Tables, r: Request) {
    if r.CreateWallet? then
      !HasWallet(early, r.user, r.currency) && HasWallet(t, r.user, r.currency)
    else
      && !(r.Transfer? && r.from == r.to)
      && !HasKey(early, r.key) && HasKey(t, r.key)
      && (Decide(r, t.wallets).Refuse? || r.amount > MAX_BIGINT)
  }

  lemma ReplyIsAtomic(early: Tables, t: Tables, r: Request, id: Id)
    ensures Reply(early, t, r, id) == Serve(t, r, id).answer <==> !Raced(early, t, r)
  {
  }

  /**
   The answer is the atomic ledger's, on the state it is dated to, except exactly
   when a rival with the key (or the same user and currency) committed after the
   unlocked check and the request's own checks fail on the rows it left.
   */
  lemma AnswersAreAtomic(s: System, id: Id)
    requires Reachable(s) && id in s.procs && s.procs[id].pc.Finished?
    ensures s.procs[id].read <= s.procs[id].pc.at < |s.history|
    ensures var q, t := s.procs[id], s.history[s.procs[id].pc.at];
      q.pc.answer == Serve(t, q.request, id).answer <==> !Raced(s.history[q.read], t, q.request)
  {
    AnswerIsReply(s, id);
    var q := s.procs[id];
    ReplyIsAtomic(s.history[q.read], s.history[q.pc.at], q.request, id);
  }

  /**
   A movement whose key is committed by the state its answer is dated to is
   refused exactly when its unlocked check did not see the key and its own
   checks fail there; otherwise it is answered with the record.
   */
  lemma RetryRefusedIff(s: System, id: Id)
    requires Reachable(s) && id in s.procs && s.procs[id].pc.Finished?
    requires var r := s.procs[id].request; !r.CreateWallet? && (r.Transfer? ==> r.from != r.to)
    requires s.procs[id].pc.at < |s.history| && HasKey(s.history[s.procs[id].pc.at], s.procs[id].request.key)
    ensures var q := s.procs[id];
      && q.read < |s.history|
      && (q.pc.answer.Refused? <==>
            !HasKey(s.history[q.read], q.request.key)
            && (Decide(q.request, s.history[q.pc.at].wallets).Refuse? || q.request.amount > MAX_BIGINT))
      && (!q.pc.answer.Refused? ==>
            q.pc.answer == Recorded(Lookup(s.history[q.pc.at].transactions, q.request.key).value))
  {
    AnswerIsReply(s, id);
  }

  // The wallet whose funds a request needs.
  function Payer(r: Request): Id
    requires r.Withdraw? || r.Transfer?
  {
    if r.Withdraw? then r.wallet else r.from
  }

  predicate Short(r: Request, rows: map<Id, Wallet>) {
    (r.Withdraw? || r.Transfer?) && Payer(r) in rows && rows[Payer(r)].balance < r.amount
  }

  // Once a request has passed its checks, only its payer's balance can fail them later.
  lemma OnlyFundsCanFail(r: Request, rows: map<Id, Wallet>, rows': map<Id, Wallet>)
    requires !r.CreateWallet? && Decide(r, rows).Post?
    requires forall w :: w in rows ==> w in rows' && SameOwner(rows[w], rows'[w])
    ensures Decide(r, rows').Refuse? <==> Short(r, rows')
    ensures Short(r, rows') ==> Decide(r, rows') == Refuse(InsufficientFunds(rows'[Payer(r)].balance, r.amount))
  {
  }

  /**
   A racing copy of a committed request, answered when its key is known, is
   refused exactly when it raced and its payer can no longer fund it, and then
   for insufficient funds.  A copy of a deposit is never refused.
   */
  lemma RacingCopyRefusedIff(s: System, id: Id, i: nat)
    requires Reachable(s) && id in s.procs && s.procs[id].pc.Finished?
    requires i < |s.commits| && s.commits[i].request == s.procs[id].request && !s.procs[id].request.CreateWallet?
    requires s.procs[id].pc.at < |s.history| && HasKey(s.history[s.procs[id].pc.at], s.procs[id].request.key)
    ensures var q := s.procs[id];
      var rows := s.history[q.pc.at].wallets;
      && q.read < |s.history|
      && (q.pc.answer.Refused? <==> !HasKey(s.history[q.read], q.request.key) && Short(q.request, rows))
      && (q.pc.answer.Refused? ==>
            q.pc.answer == Refused(InsufficientFunds(rows[Payer(q.request)].balance, q.request.amount)))
      && (q.request.Deposit? ==>
            q.pc.answer == Recorded(Lookup(s.history[q.pc.at].transactions, q.request.key).value))
  {
    ReachableInv(s);
    var q := s.procs[id];
    CommitPrecedes(s, i, q.pc.at);
    HistoryExtends(s.history, s.commits, i, q.pc.at);
    OnlyFundsCanFail(q.request, s.history[i].wallets, s.history[q.pc.at].wallets);
    RetryRefusedIff(s, id);
    AnswerIsReply(s, id);
  }

  // The commit behind a known key came before, and passed its checks.
  lemma CommitPrecedes(s: System, i: nat, at: nat)
    requires Inv(s) && i < |s.commits| && at < |s.history| && !s.commits[i].request.CreateWallet?
    requires HasKey(s.history[at], s.commits[i].request.key)
    ensures i < at
    ensures var r := s.commits[i].request;
      Decide(r, s.history[i].wallets).Post? && r.amount <= MAX_BIGINT && (r.Transfer? ==> r.from != r.to)
  {
    assert Effects(s.history[i], s.commits[i], s.history[i + 1]);
    EffectRecordsKey(s.history[i], s.commits[i], s.history[i + 1]);
    if at <= i {
      HistoryRemembers(s.history, s.commits, at, i, s.commits[i].request.key);
    }
  }

  /** The re-fetch after an insert that returned no row always finds the committed row. */
  lemma RefetchFindsTheRow(s: System, id: Id)
    requires Reachable(s) && id in s.procs && s.procs[id].pc.Refetching? && Enabled(s, Advance(id))
    ensures s.history != [] && !s.procs[id].request.CreateWallet?
    ensures exists tx: Transaction :: tx in Now(s).transactions && tx.key == s.procs[id].request.key
              && Next(s, Advance(id)).procs[id].pc == Finished(Recorded(tx), |s.history| - 1, |s.history| - 1)
  {
    ReachableInv(s);
    ReadyNow(s, id);
    Refetches(s, id);
    var tx := Lookup(Now(s).transactions, s.procs[id].request.key).value;
    assert tx in Now(s).transactions;
  }

  lemma RecordedWhen(history: seq<Tables>, commits: seq<Call>, id: Id, q: Proc) returns (n: nat)
    requires |history| == |commits| + 1 && Settled(history, commits, id, q)
    requires q.pc.Finished? && q.pc.answer.Recorded?
    ensures !q.request.CreateWallet? && n < |history|
    ensures Lookup(history[n].transactions, q.request.key) == Some(q.pc.answer.transaction)
  {
    var at := q.pc.at;
    n := if HasKey(history[at], q.request.key) then at else at + 1;
  }

  lemma RecordedIsCommitted(s: System, id: Id)
    requires Inv(s) && id in s.procs && s.procs[id].pc.Finished? && s.procs[id].pc.answer.Recorded?
    ensures !s.procs[id].request.CreateWallet?
    ensures Lookup(Now(s).transactions, s.procs[id].request.key) == Some(s.procs[id].pc.answer.transaction)
  {
    var n := RecordedWhen(s.history, s.commits, id, s.procs[id]);
    HistoryRemembers(s.history, s.commits, n, |s.history| - 1, s.procs[id].request.key);
  }

  // ---------- exactly once ----------

  /** At most one commit, hence one row and one set of balance changes, carries any idempotency key. */
  lemma OneCommitPerKey(s: System, i: nat, j: nat)
    requires Reachable(s) && i < j < |s.commits|
    requires !s.commits[i].request.CreateWallet? && !s.commits[j].request.CreateWallet?
    ensures s.commits[i].request.key != s.commits[j].request.key
  {
    ReachableInv(s);
    var key := s.commits[i].request.key;
    assert Effects(s.history[i], s.commits[i], s.history[i + 1]);
    EffectRecordsKey(s.history[i], s.commits[i], s.history[i + 1]);
    HistoryRemembers(s.history, s.commits, i + 1, j, key);
    assert Effects(s.history[j], s.commits[j], s.history[j + 1]);
  }

  lemma EffectRecordsKey(t: Tables, c: Call, t': Tables)
    requires Effects(t, c, t') && !c.request.CreateWallet?
    ensures HasKey(t', c.request.key) && !HasKey(t, c.request.key)
    ensures t'.transactions == t.transactions + [Lookup(t'.transactions, c.request.key).value]
  {
  }

  /** Whoever gets a record for a key gets the same record. */
  lemma SameKeySameRecord(s: System, p: Id, q: Id)
    requires Reachable(s) && p in s.procs && q in s.procs
    requires s.procs[p].pc.Finished? && s.procs[p].pc.answer.Recorded?
    requires s.procs[q].pc.Finished? && s.procs[q].pc.answer.Recorded?
    ensures !s.procs[p].request.CreateWallet? && !s.procs[q].request.CreateWallet?
    ensures s.procs[p].request.key == s.procs[q].request.key ==>
              s.procs[p].pc.answer == s.procs[q].pc.answer
  {
    ReachableInv(s);
    RecordedIsCommitted(s, p);
    RecordedIsCommitted(s, q);
  }

  /** A retry that starts after its key was committed can only be answered with that record. */
  lemma LateRetryGetsTheRecord(s: System, id: Id)
    requires Reachable(s) && id in s.procs && s.procs[id].pc.Finished?
    requires !s.procs[id].request.CreateWallet?
    requires s.procs[id].request.Transfer? ==> s.procs[id].request.from != s.procs[id].request.to
    requires s.procs[id].begun < |s.history| && HasKey(s.history[s.procs[id].begun], s.procs[id].request.key)
    ensures s.procs[id].pc.answer
         == Recorded(Lookup(s.history[s.procs[id].begun].transactions, s.procs[id].request.key).value)
  {
    ReachableInv(s);
    AnswerIsReply(s, id);
    var q := s.procs[id];
    HistoryRemembers(s.history, s.commits, q.begun, q.read, q.request.key);
    HistoryRemembers(s.history, s.commits, q.begun, q.pc.at, q.request.key);
  }

  /** A request that was refused, aborted, or is still running has left no row behind. */
  lemma FailureLeavesNoTrace(s: System, id: Id, i: nat)
    requires Reachable(s) && id in s.procs && i < |s.commits|
    requires s.procs[id].pc.Finished? ==> s.procs[id].pc.answer.Refused?
    ensures s.commits[i].id != id
    ensures s.history != [] && !Taken(Now(s), id)
  {
    ReachableInv(s);
    assert !Owns(id, s.procs[id]);
    if s.commits[i].id == id {
      assert Effects(s.history[i], s.commits[i], s.history[i + 1]);
      EffectTakesId(s.history[i], s.commits[i], s.history[i + 1]);
      HistoryExtends(s.history, s.commits, i + 1, |s.history| - 1);
      TakenStays(s.history[i + 1], Now(s), id);
      assert false;
    }
  }

  lemma EffectTakesId(t: Tables, c: Call, t': Tables)
    requires Effects(t, c, t')
    ensures Taken(t', c.id)
  {
    if c.request.CreateWallet? {
      assert c.id in t'.wallets;
    } else {
      assert t'.transactions[|t.transactions|].id == c.id;
      assert t'.transactions[|t.transactions|] in t'.transactions;
    }
  }

  lemma TakenStays(t: Tables, t': Tables, id: Id)
    requires Extends(t, t') && Taken(t, id)
    ensures Taken(t', id)
  {
    if id !in t.wallets {
      var tx :| tx in t.transactions && tx.id == id;
      var i :| 0 <= i < |t.transactions| && t.transactions[i] == tx;
      assert t'.transactions[i] == tx;
      assert tx in t'.transactions;
    }
  }

  // ---------- deadlock freedom ----------

  // What a process waits for: rows ascending, then the key, then nothing.
  datatype Rank = Row(id: Id) | Key | Nothing

  function RankOf(q: Proc): Rank {
    match q.pc
    case Locking(_, rows, _) => if rows == [] then Nothing else Row(rows[0])
    case Inserting(_, _) => Key
    case _ => Nothing
  }

  predicate Below(a: Rank, b: Rank) {
    match (a, b)
    case (Row(v), Row(w)) => v < w
    case (Row(_), _) => true
    case (Key, Nothing) => true
    case _ => false
  }

  lemma WaitingClimbs(s: System, p: Id, q: Id)
    requires Inv(s) && p in s.procs && q in s.procs && p != q && WaitsFor(s.procs[p], s.procs[q])
    ensures Below(RankOf(s.procs[p]), RankOf(s.procs[q])) && !Over(s.procs[q])
  {
    assert Settled(s.history, s.commits, q, s.procs[q]);
  }

  // Each process of the path waits for the next one.
  ghost predicate WaitPath(s: System, path: seq<Id>) {
    && (forall i :: 0 <= i < |path| ==> path[i] in s.procs)
    && (forall i :: 0 <= i < |path| - 1 ==> path[i] != path[i + 1] && WaitsFor(s.procs[path[i]], s.procs[path[i + 1]]))
  }

  lemma {:induction false} WaitPathClimbs(s: System, path: seq<Id>)
    requires Inv(s) && |path| >= 2 && WaitPath(s, path)
    ensures Below(RankOf(s.procs[path[0]]), RankOf(s.procs[path[|path| - 1]]))
  {
    WaitingClimbs(s, path[0], path[1]);
    if |path| > 2 {
      WaitPathClimbs(s, path[1..]);
    }
  }

  /** No deadlock: the waits-for graph has no cycle in any reachable state. */
  lemma NoDeadlock(s: System, path: seq<Id>)
    requires Reachable(s) && |path| >= 2 && WaitPath(s, path)
    ensures path[0] != path[|path| - 1]
  {
    ReachableInv(s);
    WaitPathClimbs(s, path);
  }

  lemma {:induction false} Topmost(s: System, ids: set<Id>) returns (top: Id)
    requires ids != {} && ids <= s.procs.Keys
    ensures top in ids
    ensures forall i :: i in ids ==> !Below(RankOf(s.procs[top]), RankOf(s.procs[i]))
    decreases |ids|
  {
    top :| top in ids;
    if ids != {top} {
      var other := Topmost(s, ids - {top});
      if Below(RankOf(s.procs[top]), RankOf(s.procs[other])) {
        top := other;
      }
    }
  }

  lemma TopmostUnfinished(s: System, id: Id) returns (top: Id)
    requires id in s.procs && !Over(s.procs[id])
    ensures top in s.procs && !Over(s.procs[top])
    ensures forall i :: i in s.procs && !Over(s.procs[i]) ==> !Below(RankOf(s.procs[top]), RankOf(s.procs[i]))
  {
    var unfinished := set i | i in s.procs && !Over(s.procs[i]);
    assert id in unfinished;
    top := Topmost(s, unfinished);
  }

  // A process that waits for nobody, while any is unfinished.
  lemma SomeoneIsFree(s: System, id: Id) returns (free: Id)
    requires Inv(s) && id in s.procs && !Over(s.procs[id])
    ensures Enabled(s, Advance(free))
  {
    free := TopmostUnfinished(s, id);
    forall q | q in s.procs && q != free
      ensures !WaitsFor(s.procs[free], s.procs[q])
    {
      if WaitsFor(s.procs[free], s.procs[q]) {
        WaitingClimbs(s, free, q);
      }
    }
  }

  /** Progress: while any request is unfinished, some request can take its next step. */
  lemma SomeoneCanAdvance(s: System, id: Id)
    requires Reachable(s) && id in s.procs && !Over(s.procs[id])
    ensures exists free :: Enabled(s, Advance(free))
  {
    ReachableInv(s);
    var free := SomeoneIsFree(s, id);
  }

  // ---------- termination ----------

  // An upper bound on the steps a process still has to take.
  function Work(q: Proc): int {
    match q.pc
    case Arrived => 12
    case Begun => 11
    case Locking(_, rows, _) => 8 + |rows|
    case Checking(_, _) => 7
    case Inserting(_, _) => 6
    case Refetching(_) => 1
    case Writing(_, plan, done, _) => 1 + |plan.postings| - done
    case _ => 0
  }

  ghost function TotalWork(s: System): int {
    Sum(s.procs, Work)
  }

  lemma MovementWorks(s: System, id: Id)
    requires s.history != [] && id in s.procs && !Over(s.procs[id]) && !s.procs[id].request.CreateWallet?
    requires var q := s.procs[id];
             q.pc.Inserting? ==> |q.pc.plan.postings| <= 2
    ensures AdvanceMovement(s, id).procs.Keys == s.procs.Keys
    ensures Work(AdvanceMovement(s, id).procs[id]) < Work(s.procs[id])
            || (s.procs[id].pc.Writing? && s.procs[id].pc.done > |s.procs[id].pc.plan.postings|)
    ensures forall i :: i in s.procs && i != id ==> AdvanceMovement(s, id).procs[i] == s.procs[i]
  {
  }

  lemma OpeningWorks(s: System, id: Id)
    requires s.history != [] && id in s.procs && s.procs[id].request.CreateWallet?
    requires s.procs[id].pc.Arrived? || s.procs[id].pc.Begun?
    ensures AdvanceOpening(s, id).procs == s.procs[id := AdvanceOpening(s, id).procs[id]]
    ensures Work(AdvanceOpening(s, id).procs[id]) < Work(s.procs[id])
  {
  }

  lemma SettledWork(history: seq<Tables>, commits: seq<Call>, id: Id, q: Proc)
    requires |history| == |commits| + 1 && Settled(history, commits, id, q)
    ensures Work(q) >= 0 && (!Over(q) ==> Work(q) > 0)
    ensures q.pc.Inserting? && !q.request.CreateWallet? ==> |q.pc.plan.postings| <= 2
    ensures q.pc.Writing? ==> q.pc.done <= |q.pc.plan.postings|
  {
    if q.pc.Inserting? && !q.request.CreateWallet? {
      PlanTouches(q.request, q.pc.seen, q.pc.plan);
    }
  }

  lemma AdvanceWorks(s: System, id: Id)
    requires Inv(s) && Enabled(s, Advance(id))
    ensures Next(s, Advance(id)).procs.Keys == s.procs.Keys
    ensures Work(Next(s, Advance(id)).procs[id]) < Work(s.procs[id])
    ensures forall i :: i in s.procs && i != id ==> Next(s, Advance(id)).procs[i] == s.procs[i]
  {
    assert Settled(s.history, s.commits, id, s.procs[id]);
    SettledWork(s.history, s.commits, id, s.procs[id]);
    if s.procs[id].request.CreateWallet? {
      OpeningKind(s, id);
      OpeningWorks(s, id);
    } else {
      MovementWorks(s, id);
    }
  }

  lemma OpeningKind(s: System, id: Id)
    requires Inv(s) && Enabled(s, Advance(id)) && s.procs[id].request.CreateWallet?
    ensures s.procs[id].pc.Arrived? || s.procs[id].pc.Begun?
  {
    assert Settled(s.history, s.commits, id, s.procs[id]);
  }

  lemma UnfinishedWorks(s: System, id: Id)
    requires Inv(s) && id in s.procs && !Over(s.procs[id])
    ensures Work(s.procs[id]) > 0
  {
    assert Settled(s.history, s.commits, id, s.procs[id]);
    SettledWork(s.history, s.commits, id, s.procs[id]);
  }

  lemma SumFalls(s: System, id: Id, s': System)
    requires id in s.procs && s'.procs.Keys == s.procs.Keys
    requires forall i :: i in s.procs && i != id ==> s'.procs[i] == s.procs[i]
    requires Work(s'.procs[id]) < Work(s.procs[id])
    ensures TotalWork(s') < TotalWork(s)
  {
    assert s'.procs == s.procs[id := s'.procs[id]];
    SumUpdate(s.procs, Work, id, s'.procs[id]);
  }

  lemma StepWorks(s: System, a: Action)
    requires Inv(s) && Enabled(s, a) && !a.Spawn?
    ensures TotalWork(Next(s, a)) < TotalWork(s)
  {
    if a.Advance? {
      AdvanceWorks(s, a.id);
    } else {
      UnfinishedWorks(s, a.id);
    }
    SumFalls(s, a.id, Next(s, a));
  }

  lemma WorkIsBounded(s: System)
    requires Inv(s)
    ensures TotalWork(s) >= 0
  {
    forall id | id in s.procs
      ensures Work(s.procs[id]) >= 0
    {
      assert Settled(s.history, s.commits, id, s.procs[id]);
      SettledWork(s.history, s.commits, id, s.procs[id]);
    }
    SumNonNegative(s.procs, Work);
  }

  lemma {:induction false} RunsAreShort(s: System, run: seq<Action>, s': System)
    requires Inv(s) && Leads(s, run, s') && forall i :: 0 <= i < |run| ==> !run[i].Spawn?
    ensures Inv(s') && |run| + TotalWork(s') <= TotalWork(s)
    decreases |run|
  {
    if run != [] {
      StepWorks(s, run[0]);
      NextKeepsInv(s, run[0]);
      RunsAreShort(Next(s, run[0]), run[1..], s');
    }
  }

  /**
   Every finite set of requests finishes: without new arrivals a run has at most
   TotalWork(s) steps, and a run that cannot be continued has finished them all.
   */
  lemma EveryRunFinishes(s: System, run: seq<Action>, s': System)
    requires Reachable(s) && Leads(s, run, s') && forall i :: 0 <= i < |run| ==> !run[i].Spawn?
    ensures |run| <= TotalWork(s)
    ensures (forall id :: !Enabled(s', Advance(id))) ==> forall id :: id in s'.procs ==> Over(s'.procs[id])
  {
    ReachableInv(s);
    RunsAreShort(s, run, s');
    WorkIsBounded(s');
    if exists id :: id in s'.procs && !Over(s'.procs[id]) {
      var id :| id in s'.procs && !Over(s'.procs[id]);
      var free := SomeoneIsFree(s', id);
    }
  }
}
