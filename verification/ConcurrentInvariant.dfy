/** The inductive invariant of the interleaving machine, step by step. */
module ConcurrentInvariant {
  import opened Ledger
  import opened LedgerInvariants
  import opened Concurrent

  // Row `commits[i]` alone, run on state i, gives state i + 1.
  ghost predicate Replays(history: seq<Tables>, commits: seq<Call>) {
    && |history| == |commits| + 1
    && history[0] == EMPTY
    && forall i :: 0 <= i < |commits| ==> Effects(history[i], commits[i], history[i + 1])
  }

  ghost predicate Effects(t: Tables, c: Call, t': Tables) {
    t' != t && Serve(t, c.request, c.id).tables == t' && WellFormed(c.request)
  }

  // What a request is answered once its key is known to be committed by a rival:
  // its own checks come first, then the recorded row.
  function Overtaken(t: Tables, r: Request): Answer
    requires !r.CreateWallet? && HasKey(t, r.key)
  {
    match Decide(r, t.wallets)
    case Refuse(why) => Refused(why)
    case Post(_) =>
      if r.amount > MAX_BIGINT then Refused(OutOfRange) else Recorded(Lookup(t.transactions, r.key).value)
  }

  // The answer of a request whose unlocked check read `early` and which is dated to `t`.
  function Reply(early: Tables, t: Tables, r: Request, id: Id): Answer {
    if r.CreateWallet? then
      if !HasWallet(early, r.user, r.currency) && HasWallet(t, r.user, r.currency) then Refused(UniqueViolation)
      else Serve(t, r, id).answer
    else if !(r.Transfer? && r.from == r.to) && !HasKey(early, r.key) && HasKey(t, r.key) then Overtaken(t, r)
    else Serve(t, r, id).answer
  }

  // If the atomic ledger would act on the request at `at`, then that is where it committed.
  ghost predicate Landed(history: seq<Tables>, commits: seq<Call>, id: Id, r: Request, at: nat)
    requires |history| == |commits| + 1 && at < |history|
  {
    Serve(history[at], r, id).tables != history[at] ==>
      && at < |commits| && commits[at] == Call(id, r)
      && Serve(history[at], r, id).tables == history[at + 1]
  }

  predicate Ascends(rows: seq<Id>, seen: map<Id, Wallet>) {
    && |rows| <= 2
    && (|rows| == 2 ==> rows[0] < rows[1])
    && (forall w, i :: w in seen && 0 <= i < |rows| ==> w < rows[i])
  }

  // What the unlocked check found: no wallet of that currency, no row with that key.
  predicate Unknown(t: Tables, r: Request) {
    if r.CreateWallet? then !HasWallet(t, r.user, r.currency)
    else !HasKey(t, r.key) && (r.Transfer? ==> r.from != r.to)
  }

  // Facts about one process that later commits cannot disturb.
  ghost predicate Settled(history: seq<Tables>, commits: seq<Call>, id: Id, q: Proc)
    requires |history| == |commits| + 1
  {
    && q.begun <= q.read < |history|
    && WellFormed(q.request)
    && (q.request.CreateWallet? ==> q.pc.Arrived? || q.pc.Begun? || Over(q))
    && (!q.pc.Arrived? && !Over(q) ==> Unknown(history[q.read], q.request))
    && match q.pc
       case Locking(asked, rows, seen) =>
         && q.read <= asked < |history|
         && Ascends(rows, seen)
         && Touches(q.request) * history[asked].wallets.Keys == seen.Keys + (set w | w in rows)
       case Checking(asked, seen) =>
         && q.read <= asked < |history|
         && Touches(q.request) * history[asked].wallets.Keys == seen.Keys
       case Inserting(seen, plan) => Decide(q.request, seen) == Post(plan)
       case Refetching(seen) => q.request.amount <= MAX_BIGINT && Decide(q.request, seen).Post?
       case Writing(seen, plan, done, writes) =>
         && Decide(q.request, seen) == Post(plan)
         && q.request.amount <= MAX_BIGINT
         && done <= |plan.postings|
         && InRange(plan.postings[..done])
         && writes == WriteSet(RowOf(id, q.request, plan), Balances(plan.postings[..done]),
                               EntriesFor(id, plan.postings[..done]))
       case Finished(answer, at, ended) =>
         && q.read <= at <= ended < |history|
         && answer == Reply(history[q.read], history[at], q.request, id)
         && Landed(history, commits, id, q.request, at)
       case _ => true
  }

  // What a process believes about the newest state: no lost update, no stolen key.
  ghost predicate Fresh(now: Tables, q: Proc) {
    && (forall w :: w in Seen(q.pc) ==> w in now.wallets && now.wallets[w] == Seen(q.pc)[w])
    && (q.pc.Writing? && !q.request.CreateWallet? ==> !HasKey(now, q.request.key))
    && (q.pc.Refetching? && !q.request.CreateWallet? ==> HasKey(now, q.request.key))
  }

  predicate Apart(p: Proc, q: Proc) {
    && Seen(p.pc).Keys !! Seen(q.pc).Keys
    && (p.pc.Writing? && q.pc.Writing? && !p.request.CreateWallet? && !q.request.CreateWallet? ==>
          p.request.key != q.request.key)
  }

  // The process that inserted a row of its own.
  predicate Owns(id: Id, q: Proc) {
    && q.pc.Finished?
    && (q.pc.answer == Opened(id) || (q.pc.answer.Recorded? && q.pc.answer.transaction.id == id))
  }

  ghost predicate AllSettled(s: System)
    requires |s.history| == |s.commits| + 1
  {
    forall id :: id in s.procs ==> Settled(s.history, s.commits, id, s.procs[id])
  }

  ghost predicate AllFresh(procs: map<Id, Proc>, now: Tables) {
    forall id :: id in procs ==> Fresh(now, procs[id])
  }

  ghost predicate AllApart(procs: map<Id, Proc>) {
    forall p, q :: p in procs && q in procs && p != q ==> Apart(procs[p], procs[q])
  }

  // Every primary key in use belongs to the finished process that inserted it.
  ghost predicate AllOwned(procs: map<Id, Proc>, now: Tables) {
    forall id :: Taken(now, id) ==> id in procs && Owns(id, procs[id])
  }

  ghost predicate Inv(s: System) {
    && Replays(s.history, s.commits)
    && AllSettled(s)
    && AllFresh(s.procs, Now(s))
    && AllApart(s.procs)
    && AllOwned(s.procs, Now(s))
  }

  // ---------- small facts ----------

  lemma LookupPrefix(t: Tables, t': Tables, key: string)
    requires Extends(t, t') && UniqueRows(t') && HasKey(t, key)
    ensures Lookup(t'.transactions, key) == Lookup(t.transactions, key)
  {
    var tx := Lookup(t.transactions, key).value;
    var i :| 0 <= i < |t.transactions| && t.transactions[i] == tx;
    assert t'.transactions[i] == tx;
    assert tx in t'.transactions;
    var tx' := Lookup(t'.transactions, key).value;
    var j :| 0 <= j < |t'.transactions| && t'.transactions[j] == tx';
  }

  /** The checks depend only on the rows a request touches. */
  lemma DecideLocal(r: Request, rows: map<Id, Wallet>, rows': map<Id, Wallet>)
    requires !r.CreateWallet?
    requires forall w :: w in Touches(r) ==>
      (w in rows <==> w in rows') && (w in rows ==> rows[w] == rows'[w])
    ensures Decide(r, rows) == Decide(r, rows')
  {
    if r.Transfer? {
      assert r.from in Touches(r) && r.to in Touches(r);
    } else {
      assert r.wallet in Touches(r);
    }
  }

  /** Ownership never changes, so "wallet not found" can be dated to the locking statement. */
  lemma NotFoundLocal(r: Request, rows: map<Id, Wallet>, rows': map<Id, Wallet>)
    requires !r.CreateWallet? && Decide(r, rows) == Refuse(WalletNotFound)
    requires forall w :: w in Touches(r) ==>
      (w in rows <==> w in rows') && (w in rows ==> rows[w].user == rows'[w].user)
    ensures Decide(r, rows') == Refuse(WalletNotFound)
  {
    if r.Transfer? {
      assert r.from in Touches(r) && r.to in Touches(r);
    } else {
      assert r.wallet in Touches(r);
    }
  }

  lemma PlanTouches(r: Request, rows: map<Id, Wallet>, plan: Plan)
    requires !r.CreateWallet? && Decide(r, rows) == Post(plan)
    ensures Touches(r) <= rows.Keys
    ensures |plan.postings| <= 2
    ensures Balances(plan.postings).Keys <= Touches(r)
  {
    var ps := plan.postings;
    assert ps[..1][..0] == [];
    if |ps| == 1 {
      assert ps[..0] == [];
    } else {
      assert ps[..1] == [ps[0]];
      assert Balances(ps[..1]) == map[ps[0].wallet := ps[0].balanceAfter];
      assert Balances(ps) == Balances(ps[..1])[ps[1].wallet := ps[1].balanceAfter];
    }
  }

  lemma ExtendsTransitive(a: Tables, b: Tables, c: Tables)
    requires Extends(a, b) && Extends(b, c)
    ensures Extends(a, c)
  {
    forall w | w in a.wallets
      ensures w in c.wallets && SameOwner(a.wallets[w], c.wallets[w])
    {
      assert SameOwner(a.wallets[w], b.wallets[w]) && SameOwner(b.wallets[w], c.wallets[w]);
    }
  }

  lemma ExtendsReflexive(a: Tables)
    ensures Extends(a, a)
  {
  }

  lemma EmptyValid()
    ensures Valid(EMPTY)
  {
  }

  /** Every committed state is a valid ledger. */
  lemma {:induction false} HistoryValid(history: seq<Tables>, commits: seq<Call>, i: nat)
    requires Replays(history, commits) && i < |history|
    ensures Valid(history[i])
  {
    if i == 0 {
      EmptyValid();
    } else {
      HistoryValid(history, commits, i - 1);
      assert Effects(history[i - 1], commits[i - 1], history[i]);
      ServeKeepsValid(history[i - 1], commits[i - 1].request, commits[i - 1].id);
    }
  }

  lemma HistoryStep(history: seq<Tables>, commits: seq<Call>, i: nat)
    requires Replays(history, commits) && i < |commits|
    ensures Extends(history[i], history[i + 1])
  {
    HistoryValid(history, commits, i);
    assert Effects(history[i], commits[i], history[i + 1]);
    ServeKeepsValid(history[i], commits[i].request, commits[i].id);
  }

  /** Later committed states extend earlier ones. */
  lemma {:induction false} HistoryExtends(history: seq<Tables>, commits: seq<Call>, i: nat, j: nat)
    requires Replays(history, commits) && i <= j < |history|
    ensures Extends(history[i], history[j])
  {
    if i == j {
      ExtendsReflexive(history[i]);
    } else {
      HistoryExtends(history, commits, i, j - 1);
      HistoryStep(history, commits, j - 1);
      ExtendsTransitive(history[i], history[j - 1], history[j]);
    }
  }

  lemma HistoryRemembers(history: seq<Tables>, commits: seq<Call>, i: nat, j: nat, key: string)
    requires Replays(history, commits) && i <= j < |history| && HasKey(history[i], key)
    ensures Lookup(history[j].transactions, key) == Lookup(history[i].transactions, key)
  {
    HistoryExtends(history, commits, i, j);
    HistoryValid(history, commits, j);
    LookupPrefix(history[i], history[j], key);
  }

  // ---------- steps that commit nothing ----------

  lemma MoveApart(procs: map<Id, Proc>, id: Id, q: Proc)
    requires AllApart(procs) && forall p :: p in procs && p != id ==> Apart(q, procs[p])
    ensures AllApart(procs[id := q])
  {
    var procs' := procs[id := q];
    forall i, j | i in procs' && j in procs' && i != j
      ensures Apart(procs'[i], procs'[j])
    {
      if i != id && j == id {
        assert Apart(procs'[j], procs[i]);
      }
    }
  }

  lemma MoveOwned(procs: map<Id, Proc>, now: Tables, id: Id, q: Proc)
    requires AllOwned(procs, now) && id in procs && !Owns(id, procs[id])
    ensures AllOwned(procs[id := q], now)
  {
  }

  /** One process moves on without a commit. */
  lemma MoveKeepsInv(s: System, id: Id, pc: Pc)
    requires Inv(s) && id in s.procs && !Over(s.procs[id])
    requires var q' := s.procs[id].(pc := pc);
             && Settled(s.history, s.commits, id, q') && Fresh(Now(s), q')
             && forall p :: p in s.procs && p != id ==> Apart(q', s.procs[p])
    ensures Inv(Moved(s, id, pc))
  {
    MoveApart(s.procs, id, s.procs[id].(pc := pc));
    MoveOwned(s.procs, Now(s), id, s.procs[id].(pc := pc));
  }

  lemma EmptyHandedApart(q: Proc)
    requires Seen(q.pc) == map[] && !q.pc.Writing?
    ensures forall p: Proc :: Apart(q, p)
    ensures forall now: Tables :: q.pc.Refetching? || Fresh(now, q)
  {
  }

  lemma AnswerSettled(history: seq<Tables>, commits: seq<Call>, id: Id, q: Proc, answer: Answer, at: nat)
    requires |history| == |commits| + 1 && Settled(history, commits, id, q)
    requires q.read <= at < |history|
    requires answer == Reply(history[q.read], history[at], q.request, id)
    requires Serve(history[at], q.request, id).tables == history[at]
    ensures Settled(history, commits, id, q.(pc := Finished(answer, at, |history| - 1)))
  {
  }

  /** An answer without effect. */
  lemma AnswerKeepsInv(s: System, id: Id, answer: Answer, at: nat)
    requires Inv(s) && id in s.procs && !Over(s.procs[id])
    requires s.procs[id].read <= at < |s.history|
    requires answer == Reply(s.history[s.procs[id].read], s.history[at], s.procs[id].request, id)
    requires Serve(s.history[at], s.procs[id].request, id).tables == s.history[at]
    ensures Inv(Answered(s, id, answer, at))
  {
    var q' := s.procs[id].(pc := Finished(answer, at, |s.history| - 1));
    AnswerSettled(s.history, s.commits, id, s.procs[id], answer, at);
    EmptyHandedApart(q');
    MoveKeepsInv(s, id, q'.pc);
  }

  lemma ReadingKeepsInv(s: System, id: Id)
    requires Inv(s) && id in s.procs && s.procs[id].pc.Arrived?
    ensures Inv(Reading(s, id))
  {
    var q' := s.procs[id].(read := |s.history| - 1);
    assert Settled(s.history, s.commits, id, s.procs[id]);
    EmptyHandedApart(q');
    MoveApart(s.procs, id, q');
    MoveOwned(s.procs, Now(s), id, q');
  }

  lemma AbortKeepsInv(s: System, id: Id)
    requires Inv(s) && Enabled(s, Abort(id))
    ensures Inv(Next(s, Abort(id)))
  {
    EmptyHandedApart(s.procs[id].(pc := Aborted));
    MoveKeepsInv(s, id, Aborted);
  }

  lemma SpawnKeepsInv(s: System, id: Id, r: Request)
    requires Inv(s) && Enabled(s, Spawn(id, r))
    ensures Inv(Next(s, Spawn(id, r)))
  {
    var q := Proc(r, |s.history| - 1, |s.history| - 1, Arrived);
    EmptyHandedApart(q);
    MoveApart(s.procs, id, q);
  }

  // ---------- commits ----------

  lemma SettledSurvives(history: seq<Tables>, commits: seq<Call>, id: Id, q: Proc, t: Tables, c: Call)
    requires |history| == |commits| + 1 && Settled(history, commits, id, q)
    ensures Settled(history + [t], commits + [c], id, q)
  {
    var history', commits' := history + [t], commits + [c];
    if q.pc.Finished? {
      var at := q.pc.at;
      assert history'[at] == history[at];
      assert at < |commits| ==> commits'[at] == commits[at] && history'[at + 1] == history[at + 1];
    }
  }

  lemma ReplaysExtended(history: seq<Tables>, commits: seq<Call>, t: Tables, c: Call)
    requires Replays(history, commits) && Effects(history[|history| - 1], c, t)
    ensures Replays(history + [t], commits + [c])
  {
    var history', commits' := history + [t], commits + [c];
    forall i | 0 <= i < |commits'|
      ensures Effects(history'[i], commits'[i], history'[i + 1])
    {
      if i < |commits| {
        assert Effects(history[i], commits[i], history[i + 1]);
      }
    }
  }

  // The tables `t` are what request `id` makes of the newest state, and no other process notices.
  ghost predicate Committable(s: System, id: Id, t: Tables, answer: Answer)
    requires s.history != []
  {
    && id in s.procs && !Over(s.procs[id])
    && Serve(Now(s), s.procs[id].request, id) == Served(t, answer)
    && t != Now(s)
    && (answer == Opened(id) || (answer.Recorded? && answer.transaction.id == id))
    && (forall p :: p in s.procs && p != id ==> Fresh(t, s.procs[p]))
    && (forall i :: Taken(t, i) ==> Taken(Now(s), i) || i == id)
  }

  // A request with an effect is answered as the atomic ledger answers it.
  lemma EffectiveReply(early: Tables, t: Tables, r: Request, id: Id)
    requires Serve(t, r, id).tables != t
    ensures Reply(early, t, r, id) == Serve(t, r, id).answer
  {
  }

  lemma CommitterSettled(s: System, id: Id, t: Tables, answer: Answer)
    requires Inv(s) && Committable(s, id, t, answer)
    ensures var s' := Published(s, id, t, answer); Settled(s'.history, s'.commits, id, s'.procs[id])
  {
    var s' := Published(s, id, t, answer);
    var top := |s.history| - 1;
    var q := s.procs[id];
    assert Settled(s.history, s.commits, id, q);
    assert s'.history[top] == Now(s) && s'.history[top + 1] == t && s'.commits[top] == Call(id, q.request);
    assert s'.history[q.read] == s.history[q.read];
    EffectiveReply(s.history[q.read], Now(s), q.request, id);
  }

  lemma OthersSettled(s: System, id: Id, t: Tables, answer: Answer, p: Id)
    requires Inv(s) && id in s.procs && p in s.procs && p != id
    ensures var s' := Published(s, id, t, answer); Settled(s'.history, s'.commits, p, s'.procs[p])
  {
    SettledSurvives(s.history, s.commits, p, s.procs[p], t, Call(id, s.procs[id].request));
  }

  lemma PublishApart(s: System, id: Id, t: Tables, answer: Answer)
    requires s.history != [] && id in s.procs && AllApart(s.procs)
    ensures AllApart(Published(s, id, t, answer).procs)
  {
    var q := Published(s, id, t, answer).procs[id];
    EmptyHandedApart(q);
    MoveApart(s.procs, id, q);
  }

  lemma PublishSettled(s: System, id: Id, t: Tables, answer: Answer)
    requires Inv(s) && Committable(s, id, t, answer)
    ensures AllSettled(Published(s, id, t, answer))
  {
    var s' := Published(s, id, t, answer);
    forall p | p in s'.procs
      ensures Settled(s'.history, s'.commits, p, s'.procs[p])
    {
      if p == id {
        CommitterSettled(s, id, t, answer);
      } else {
        OthersSettled(s, id, t, answer, p);
      }
    }
  }

  lemma PublishOwned(s: System, id: Id, t: Tables, answer: Answer)
    requires Inv(s) && Committable(s, id, t, answer)
    ensures var s' := Published(s, id, t, answer); AllOwned(s'.procs, t) && AllFresh(s'.procs, t)
  {
  }

  /** COMMIT refines one atomic request and keeps the invariant. */
  lemma PublishKeepsInv(s: System, id: Id, t: Tables, answer: Answer)
    requires Inv(s) && Committable(s, id, t, answer)
    ensures Inv(Published(s, id, t, answer))
  {
    var s' := Published(s, id, t, answer);
    var r := s.procs[id].request;
    assert WellFormed(r) by {
      assert Settled(s.history, s.commits, id, s.procs[id]);
    }
    ReplaysExtended(s.history, s.commits, t, Call(id, r));
    PublishSettled(s, id, t, answer);
    PublishApart(s, id, t, answer);
    PublishOwned(s, id, t, answer);
  }
}
