/** Every step of every process keeps the invariant. */
module ConcurrentSteps {
  import opened Wrappers
  import opened Ledger
  import opened LedgerInvariants
  import opened Concurrent
  import opened ConcurrentInvariant

  // Process `id` can move, and what the invariant says about it.
  ghost predicate Ready(s: System, id: Id) {
    && Inv(s) && Enabled(s, Advance(id))
    && Settled(s.history, s.commits, id, s.procs[id])
    && Fresh(Now(s), s.procs[id])
    && !Taken(Now(s), id)
  }

  lemma ReadyNow(s: System, id: Id)
    requires Inv(s) && Enabled(s, Advance(id))
    ensures Ready(s, id)
  {
    assert !Owns(id, s.procs[id]);
  }

  // A refusal dated to state `at`.
  lemma RefusesAsOf(s: System, id: Id, why: Refusal, at: nat)
    requires Ready(s, id) && s.procs[id].read <= at < |s.history|
    requires Reply(s.history[s.procs[id].read], s.history[at], s.procs[id].request, id) == Refused(why)
    requires Serve(s.history[at], s.procs[id].request, id).tables == s.history[at]
    ensures Inv(Answered(s, id, Refused(why), at))
  {
    AnswerKeepsInv(s, id, Refused(why), at);
  }

  lemma MovesOn(s: System, id: Id, pc: Pc)
    requires Ready(s, id) && Seen(pc) == Seen(s.procs[id].pc)
    requires pc.Writing? && !s.procs[id].request.CreateWallet? ==>
               s.procs[id].pc.Writing? || forall p :: p in s.procs && p != id ==> !HoldsKey(s.procs[p], s.procs[id].request.key)
    requires Settled(s.history, s.commits, id, s.procs[id].(pc := pc))
    requires Fresh(Now(s), s.procs[id].(pc := pc))
    ensures Inv(Moved(s, id, pc))
  {
    var q := s.procs[id];
    var q' := q.(pc := pc);
    forall p | p in s.procs && p != id
      ensures Apart(q', s.procs[p])
    {
      assert Apart(q, s.procs[p]);
    }
    MoveKeepsInv(s, id, pc);
  }

  lemma OpeningArrives(s: System, id: Id)
    requires Ready(s, id) && s.procs[id].request.CreateWallet? && s.procs[id].pc.Arrived?
    ensures Inv(AdvanceOpening(s, id))
  {
    var r := s.procs[id].request;
    var s' := Reading(s, id);
    ReadingKeepsInv(s, id);
    if HasWallet(Now(s), r.user, r.currency) {
      AnswerKeepsInv(s', id, Refused(WalletAlreadyExists(r.currency)), |s.history| - 1);
    } else {
      BeginsUnknown(s', id);
    }
  }

  // A request whose unlocked check found nothing goes on to its transaction.
  lemma BeginsUnknown(s: System, id: Id)
    requires Inv(s) && id in s.procs && s.procs[id].pc.Arrived?
    requires s.procs[id].read < |s.history| && Unknown(s.history[s.procs[id].read], s.procs[id].request)
    ensures Inv(Moved(s, id, Begun))
  {
    assert Settled(s.history, s.commits, id, s.procs[id]);
    EmptyHandedApart(s.procs[id].(pc := Begun));
    MoveKeepsInv(s, id, Begun);
  }

  lemma OpeningFresh(now: Tables, r: Request, id: Id, q: Proc)
    requires r.CreateWallet? && !Taken(now, id) && Fresh(now, q)
    ensures Fresh(OpenWallet(now, r, id), q)
  {
  }

  lemma OpeningTaken(now: Tables, r: Request, id: Id, i: Id)
    requires r.CreateWallet? && Taken(OpenWallet(now, r, id), i)
    ensures Taken(now, i) || i == id
  {
  }

  lemma OpeningCommits(s: System, id: Id)
    requires Ready(s, id) && s.procs[id].request.CreateWallet? && s.procs[id].pc.Begun?
    ensures Inv(AdvanceOpening(s, id))
  {
    var q := s.procs[id];
    var r := q.request;
    if HasWallet(Now(s), r.user, r.currency) {
      AnswerKeepsInv(s, id, Refused(UniqueViolation), |s.history| - 1);
    } else {
      var t := OpenWallet(Now(s), r, id);
      assert id in t.wallets && id !in Now(s).wallets;
      forall p | p in s.procs && p != id
        ensures Fresh(t, s.procs[p])
      {
        OpeningFresh(Now(s), r, id, s.procs[p]);
      }
      forall i | Taken(t, i)
        ensures Taken(Now(s), i) || i == id
      {
        OpeningTaken(Now(s), r, id, i);
      }
      PublishKeepsInv(s, id, t, Opened(id));
    }
  }

  lemma Arrives(s: System, id: Id)
    requires Ready(s, id) && !s.procs[id].request.CreateWallet? && s.procs[id].pc.Arrived?
    ensures Inv(AdvanceMovement(s, id))
  {
    var r := s.procs[id].request;
    var s' := Reading(s, id);
    var top := |s.history| - 1;
    ReadingKeepsInv(s, id);
    if r.Transfer? && r.from == r.to {
      AnswerKeepsInv(s', id, Refused(SameWalletTransfer), top);
    } else {
      match Lookup(Now(s).transactions, r.key)
      case Some(tx) => AnswerKeepsInv(s', id, Recorded(tx), top);
      case None => BeginsUnknown(s', id);
    }
  }

  lemma LockOrderRows(r: Request, t: Tables)
    requires !r.CreateWallet? && (r.Transfer? ==> r.from != r.to)
    ensures var rows := LockOrder(r, t);
            && Ascends(rows, map[])
            && Touches(r) * t.wallets.Keys == (set w | w in rows)
  {
    var rows := LockOrder(r, t);
    if r.Transfer? {
      assert forall w :: w in rows <==> w in Touches(r) && w in t.wallets;
    } else {
      assert forall w :: w in rows <==> w in Touches(r) && w in t.wallets;
    }
  }

  lemma Asks(s: System, id: Id)
    requires Ready(s, id) && !s.procs[id].request.CreateWallet? && s.procs[id].pc.Begun?
    ensures Inv(AdvanceMovement(s, id))
  {
    var q := s.procs[id];
    var pc := Locking(|s.history| - 1, LockOrder(q.request, Now(s)), map[]);
    LockOrderRows(q.request, Now(s));
    EmptyHandedApart(q.(pc := pc));
    MoveKeepsInv(s, id, pc);
  }

  lemma LocksSettled(history: seq<Tables>, commits: seq<Call>, id: Id, q: Proc, row: Wallet)
    requires |history| == |commits| + 1 && Settled(history, commits, id, q)
    requires q.pc.Locking? && q.pc.rows != []
    ensures var rows, seen := q.pc.rows, q.pc.seen;
            Settled(history, commits, id, q.(pc := Locking(q.pc.asked, rows[1..], seen[rows[0] := row])))
  {
    var rows, seen := q.pc.rows, q.pc.seen;
    var seen' := seen[rows[0] := row];
    assert rows == [rows[0]] + rows[1..];
    assert seen'.Keys == seen.Keys + {rows[0]};
    assert (set w | w in rows) == {rows[0]} + (set w | w in rows[1..]);
  }

  // The head of the queue is an open wallet that nobody else holds.
  lemma HeadIsFree(s: System, id: Id, row: Id)
    requires Ready(s, id) && !s.procs[id].request.CreateWallet? && s.procs[id].pc.Locking?
    requires s.procs[id].pc.rows != [] && row == s.procs[id].pc.rows[0]
    ensures row in Now(s).wallets
    ensures forall p :: p in s.procs && p != id ==> !HoldsRow(s.procs[p], row)
  {
    var q := s.procs[id];
    assert row in (set w | w in q.pc.rows);
    assert row in Touches(q.request) * s.history[q.pc.asked].wallets.Keys;
    HistoryExtends(s.history, s.commits, q.pc.asked, |s.history| - 1);
    forall p | p in s.procs && p != id
      ensures !HoldsRow(s.procs[p], row)
    {
      assert !WaitsFor(q, s.procs[p]);
    }
  }

  lemma LocksHead(s: System, id: Id)
    requires Ready(s, id) && !s.procs[id].request.CreateWallet? && s.procs[id].pc.Locking?
    requires s.procs[id].pc.rows != []
    ensures Inv(AdvanceMovement(s, id))
  {
    var q := s.procs[id];
    var row := q.pc.rows[0];
    HeadIsFree(s, id, row);
    var q' := q.(pc := Locking(q.pc.asked, q.pc.rows[1..], q.pc.seen[row := Now(s).wallets[row]]));
    LocksSettled(s.history, s.commits, id, q, Now(s).wallets[row]);
    forall p | p in s.procs && p != id
      ensures Apart(q', s.procs[p])
    {
      assert Apart(q, s.procs[p]);
    }
    MoveKeepsInv(s, id, q'.pc);
  }

  lemma AllLocked(s: System, id: Id)
    requires Ready(s, id) && !s.procs[id].request.CreateWallet? && s.procs[id].pc.Locking?
    requires s.procs[id].pc.rows == []
    ensures Inv(Moved(s, id, Checking(s.procs[id].pc.asked, s.procs[id].pc.seen)))
  {
    MovesOn(s, id, Checking(s.procs[id].pc.asked, s.procs[id].pc.seen));
  }

  lemma Locks(s: System, id: Id)
    requires Ready(s, id) && !s.procs[id].request.CreateWallet? && s.procs[id].pc.Locking?
    ensures Inv(AdvanceMovement(s, id))
  {
    if s.procs[id].pc.rows == [] {
      AllLocked(s, id);
    } else {
      LocksHead(s, id);
    }
  }

  /** The rows read under lock are the committed rows: the checks judge the newest state. */
  lemma DecidesOnNow(s: System, id: Id)
    requires Ready(s, id) && !s.procs[id].request.CreateWallet?
    requires Touches(s.procs[id].request) <= Seen(s.procs[id].pc).Keys
    ensures Decide(s.procs[id].request, Seen(s.procs[id].pc)) == Decide(s.procs[id].request, Now(s).wallets)
  {
    DecideLocal(s.procs[id].request, Seen(s.procs[id].pc), Now(s).wallets);
  }

  lemma RefusalJudged(early: Tables, t: Tables, r: Request, id: Id, why: Refusal)
    requires !r.CreateWallet? && Unknown(early, r)
    requires Decide(r, t.wallets) == Refuse(why)
    ensures Reply(early, t, r, id) == Refused(why) && Serve(t, r, id).tables == t
  {
  }

  lemma NotFoundWhenAsked(s: System, id: Id)
    requires Ready(s, id) && !s.procs[id].request.CreateWallet? && s.procs[id].pc.Checking?
    requires Decide(s.procs[id].request, s.procs[id].pc.seen) == Refuse(WalletNotFound)
    ensures Decide(s.procs[id].request, s.history[s.procs[id].pc.asked].wallets) == Refuse(WalletNotFound)
  {
    var q := s.procs[id];
    var past := s.history[q.pc.asked];
    HistoryExtends(s.history, s.commits, q.pc.asked, |s.history| - 1);
    forall w | w in Touches(q.request)
      ensures w in q.pc.seen <==> w in past.wallets
      ensures w in q.pc.seen ==> q.pc.seen[w].user == past.wallets[w].user
    {
      assert w in q.pc.seen <==> w in Touches(q.request) * past.wallets.Keys;
      if w in q.pc.seen {
        assert SameOwner(past.wallets[w], Now(s).wallets[w]);
      }
    }
    NotFoundLocal(q.request, q.pc.seen, past.wallets);
  }

  lemma SeesAll(r: Request, seen: map<Id, Wallet>, why: Refusal)
    requires !r.CreateWallet? && Decide(r, seen) == Refuse(why) && !why.WalletNotFound?
    ensures Touches(r) <= seen.Keys
  {
  }

  lemma Refuses(s: System, id: Id, why: Refusal)
    requires Ready(s, id) && !s.procs[id].request.CreateWallet? && s.procs[id].pc.Checking?
    requires Decide(s.procs[id].request, s.procs[id].pc.seen) == Refuse(why)
    ensures Inv(AdvanceMovement(s, id))
  {
    var q := s.procs[id];
    if why.WalletNotFound? {
      assert AdvanceMovement(s, id) == Answered(s, id, Refused(why), q.pc.asked);
      NotFoundWhenAsked(s, id);
      RefusalJudged(s.history[q.read], s.history[q.pc.asked], q.request, id, why);
      RefusesAsOf(s, id, why, q.pc.asked);
    } else {
      assert AdvanceMovement(s, id) == Answered(s, id, Refused(why), |s.history| - 1);
      SeesAll(q.request, q.pc.seen, why);
      DecidesOnNow(s, id);
      RefusalJudged(s.history[q.read], Now(s), q.request, id, why);
      RefusesAsOf(s, id, why, |s.history| - 1);
    }
  }

  lemma Passes(s: System, id: Id, plan: Plan)
    requires Ready(s, id) && !s.procs[id].request.CreateWallet? && s.procs[id].pc.Checking?
    requires Decide(s.procs[id].request, s.procs[id].pc.seen) == Post(plan)
    ensures Inv(AdvanceMovement(s, id))
  {
    MovesOn(s, id, Inserting(s.procs[id].pc.seen, plan));
  }

  lemma Checks(s: System, id: Id)
    requires Ready(s, id) && !s.procs[id].request.CreateWallet? && s.procs[id].pc.Checking?
    ensures Inv(AdvanceMovement(s, id))
  {
    match Decide(s.procs[id].request, s.procs[id].pc.seen)
    case Refuse(why) => Refuses(s, id, why);
    case Post(plan) => Passes(s, id, plan);
  }

  lemma OutOfRangeJudged(early: Tables, t: Tables, r: Request, id: Id, plan: Plan)
    requires !r.CreateWallet? && Unknown(early, r) && !Taken(t, id)
    requires Decide(r, t.wallets) == Post(plan)
    requires r.amount > MAX_BIGINT || (!HasKey(t, r.key) && !InRange(plan.postings))
    ensures Reply(early, t, r, id) == Refused(OutOfRange) && Serve(t, r, id).tables == t
  {
  }

  lemma Overflows(s: System, id: Id, plan: Plan)
    requires Ready(s, id) && !s.procs[id].request.CreateWallet? && !s.procs[id].pc.Arrived?
    requires Decide(s.procs[id].request, Seen(s.procs[id].pc)) == Post(plan)
    requires s.procs[id].request.amount > MAX_BIGINT
             || (!HasKey(Now(s), s.procs[id].request.key) && !InRange(plan.postings))
    ensures Inv(Answered(s, id, Refused(OutOfRange), |s.history| - 1))
  {
    var q := s.procs[id];
    PlanTouches(q.request, Seen(q.pc), plan);
    DecidesOnNow(s, id);
    OutOfRangeJudged(s.history[q.read], Now(s), q.request, id, plan);
    RefusesAsOf(s, id, OutOfRange, |s.history| - 1);
  }

  lemma InsertConflicts(s: System, id: Id)
    requires Ready(s, id) && !s.procs[id].request.CreateWallet? && s.procs[id].pc.Inserting?
    requires s.procs[id].request.amount <= MAX_BIGINT && HasKey(Now(s), s.procs[id].request.key)
    ensures Inv(Moved(s, id, Refetching(s.procs[id].pc.seen)))
  {
    MovesOn(s, id, Refetching(s.procs[id].pc.seen));
  }

  lemma InsertSettled(history: seq<Tables>, commits: seq<Call>, id: Id, q: Proc)
    requires |history| == |commits| + 1 && Settled(history, commits, id, q)
    requires !q.request.CreateWallet? && q.pc.Inserting? && q.request.amount <= MAX_BIGINT
    ensures Settled(history, commits, id, q.(pc := Writing(q.pc.seen, q.pc.plan, 0,
              WriteSet(RowOf(id, q.request, q.pc.plan), map[], []))))
  {
    assert q.pc.plan.postings[..0] == [];
  }

  lemma KeyIsFree(s: System, id: Id)
    requires id in s.procs && Enabled(s, Advance(id)) && !s.procs[id].request.CreateWallet?
    requires s.procs[id].pc.Inserting? && s.procs[id].request.amount <= MAX_BIGINT
    ensures forall p :: p in s.procs && p != id ==> !HoldsKey(s.procs[p], s.procs[id].request.key)
  {
    forall p | p in s.procs && p != id
      ensures !HoldsKey(s.procs[p], s.procs[id].request.key)
    {
      assert !WaitsFor(s.procs[id], s.procs[p]);
    }
  }

  lemma InsertSucceeds(s: System, id: Id)
    requires Ready(s, id) && !s.procs[id].request.CreateWallet? && s.procs[id].pc.Inserting?
    requires s.procs[id].request.amount <= MAX_BIGINT && !HasKey(Now(s), s.procs[id].request.key)
    ensures Inv(AdvanceMovement(s, id))
  {
    var q := s.procs[id];
    InsertSettled(s.history, s.commits, id, q);
    KeyIsFree(s, id);
    MovesOn(s, id, Writing(q.pc.seen, q.pc.plan, 0, WriteSet(RowOf(id, q.request, q.pc.plan), map[], [])));
  }

  lemma Inserts(s: System, id: Id)
    requires Ready(s, id) && !s.procs[id].request.CreateWallet? && s.procs[id].pc.Inserting?
    ensures Inv(AdvanceMovement(s, id))
  {
    var q := s.procs[id];
    if q.request.amount > MAX_BIGINT {
      Overflows(s, id, q.pc.plan);
    } else if HasKey(Now(s), q.request.key) {
      InsertConflicts(s, id);
    } else {
      InsertSucceeds(s, id);
    }
  }

  /** When the insert returned no row, the key is committed: the re-fetch finds it. */
  lemma Refetches(s: System, id: Id)
    requires Ready(s, id) && !s.procs[id].request.CreateWallet? && s.procs[id].pc.Refetching?
    ensures HasKey(Now(s), s.procs[id].request.key)
    ensures AdvanceMovement(s, id)
         == Answered(s, id, Recorded(Lookup(Now(s).transactions, s.procs[id].request.key).value), |s.history| - 1)
    ensures Inv(AdvanceMovement(s, id))
  {
    var q := s.procs[id];
    var plan := Decide(q.request, q.pc.seen).plan;
    PlanTouches(q.request, q.pc.seen, plan);
    DecidesOnNow(s, id);
    OvertakenIsRecorded(s.history[q.read], Now(s), q.request, id);
    AnswerKeepsInv(s, id, Recorded(Lookup(Now(s).transactions, q.request.key).value), |s.history| - 1);
  }

  lemma OvertakenIsRecorded(early: Tables, t: Tables, r: Request, id: Id)
    requires !r.CreateWallet? && Unknown(early, r) && HasKey(t, r.key)
    requires Decide(r, t.wallets).Post? && r.amount <= MAX_BIGINT
    ensures Reply(early, t, r, id) == Recorded(Lookup(t.transactions, r.key).value)
    ensures Serve(t, r, id).tables == t
  {
  }

  lemma WritesSettled(history: seq<Tables>, commits: seq<Call>, id: Id, q: Proc)
    requires |history| == |commits| + 1 && Settled(history, commits, id, q)
    requires !q.request.CreateWallet? && q.pc.Writing? && q.pc.done < |q.pc.plan.postings|
    requires Fits(q.pc.plan.postings[q.pc.done].balanceAfter)
    ensures var p := q.pc.plan.postings[q.pc.done];
            Settled(history, commits, id, q.(pc := Writing(q.pc.seen, q.pc.plan, q.pc.done + 1,
              q.pc.writes.(balances := q.pc.writes.balances[p.wallet := p.balanceAfter],
                           entries := q.pc.writes.entries + [EntryOf(id, p)]))))
  {
    var ps, done := q.pc.plan.postings, q.pc.done;
    assert ps[..done + 1][..done] == ps[..done];
    assert Balances(ps[..done + 1]) == Balances(ps[..done])[ps[done].wallet := ps[done].balanceAfter];
    assert EntriesFor(id, ps[..done + 1]) == EntriesFor(id, ps[..done]) + [EntryOf(id, ps[done])];
  }

  lemma Writes(s: System, id: Id)
    requires Ready(s, id) && !s.procs[id].request.CreateWallet? && s.procs[id].pc.Writing?
    requires s.procs[id].pc.done < |s.procs[id].pc.plan.postings|
    ensures Inv(AdvanceMovement(s, id))
  {
    var q := s.procs[id];
    var p := q.pc.plan.postings[q.pc.done];
    if !Fits(p.balanceAfter) {
      Overflows(s, id, q.pc.plan);
    } else {
      WritesSettled(s.history, s.commits, id, q);
      MovesOn(s, id, Writing(q.pc.seen, q.pc.plan, q.pc.done + 1,
        q.pc.writes.(balances := q.pc.writes.balances[p.wallet := p.balanceAfter],
                     entries := q.pc.writes.entries + [EntryOf(id, p)])));
    }
  }

  // A plan made on the newest rows, all of it in range, is what the atomic ledger records.
  lemma PlanServed(now: Tables, r: Request, id: Id, plan: Plan)
    requires !r.CreateWallet? && (r.Transfer? ==> r.from != r.to)
    requires Decide(r, now.wallets) == Post(plan) && r.amount <= MAX_BIGINT && InRange(plan.postings)
    requires !Taken(now, id) && !HasKey(now, r.key)
    ensures Serve(now, r, id) == Served(Record(now, r, id, plan), Recorded(RowOf(id, r, plan)))
  {
  }

  /** What the private write set publishes is what the atomic ledger records. */
  lemma OverwriteRecords(s: System, id: Id)
    requires Ready(s, id) && !s.procs[id].request.CreateWallet? && s.procs[id].pc.Writing?
    requires s.procs[id].pc.done == |s.procs[id].pc.plan.postings|
    ensures var q := s.procs[id];
            var row := AuditRow(q.request.user, EventOf(q.request, q.pc.plan));
            var t := Overwrite(Now(s), q.pc.writes, row);
            && t == Record(Now(s), q.request, id, q.pc.plan)
            && Serve(Now(s), q.request, id) == Served(t, Recorded(q.pc.writes.transaction))
            && Balances(q.pc.plan.postings).Keys <= q.pc.seen.Keys
  {
    var q := s.procs[id];
    var ps := q.pc.plan.postings;
    assert ps[..q.pc.done] == ps;
    PlanTouches(q.request, q.pc.seen, q.pc.plan);
    DecidesOnNow(s, id);
    PlanServed(Now(s), q.request, id, q.pc.plan);
  }

  lemma RecordFresh(now: Tables, r: Request, id: Id, plan: Plan, q: Proc)
    requires !r.CreateWallet? && Fresh(now, q)
    requires Balances(plan.postings).Keys !! Seen(q.pc).Keys
    requires q.pc.Writing? && !q.request.CreateWallet? ==> q.request.key != r.key
    ensures Fresh(Record(now, r, id, plan), q)
  {
    var t := Record(now, r, id, plan);
    forall w | w in Seen(q.pc)
      ensures w in t.wallets && t.wallets[w] == Seen(q.pc)[w]
    {
      assert w !in Balances(plan.postings);
    }
    if !q.request.CreateWallet? && q.request.key != r.key {
      LookupAppend(now.transactions, RowOf(id, r, plan), q.request.key);
    }
  }

  lemma RecordTaken(now: Tables, r: Request, id: Id, plan: Plan, i: Id)
    requires !r.CreateWallet? && Taken(Record(now, r, id, plan), i)
    ensures Taken(now, i) || i == id
  {
    var t := Record(now, r, id, plan);
    if i !in t.wallets {
      var tx :| tx in t.transactions && tx.id == i;
      assert tx in now.transactions || tx == RowOf(id, r, plan);
    }
  }

  lemma RecordUnnoticed(s: System, id: Id, t: Tables)
    requires Ready(s, id) && !s.procs[id].request.CreateWallet? && s.procs[id].pc.Writing?
    requires Balances(s.procs[id].pc.plan.postings).Keys <= Seen(s.procs[id].pc).Keys
    requires t == Record(Now(s), s.procs[id].request, id, s.procs[id].pc.plan)
    ensures forall p :: p in s.procs && p != id ==> Fresh(t, s.procs[p])
  {
    var q := s.procs[id];
    forall p | p in s.procs && p != id
      ensures Fresh(t, s.procs[p])
    {
      assert Apart(q, s.procs[p]);
      RecordFresh(Now(s), q.request, id, q.pc.plan, s.procs[p]);
    }
  }

  // The commit step publishes the recorded tables, which nobody else's beliefs contradict.
  lemma CommitStep(s: System, id: Id)
    requires Ready(s, id) && !s.procs[id].request.CreateWallet? && s.procs[id].pc.Writing?
    requires s.procs[id].pc.done == |s.procs[id].pc.plan.postings|
    ensures var q := s.procs[id];
            var t := Record(Now(s), q.request, id, q.pc.plan);
            && AdvanceMovement(s, id) == Published(s, id, t, Recorded(q.pc.writes.transaction))
            && Committable(s, id, t, Recorded(q.pc.writes.transaction))
  {
    var q := s.procs[id];
    var t := Record(Now(s), q.request, id, q.pc.plan);
    OverwriteRecords(s, id);
    assert |t.transactions| == |Now(s).transactions| + 1;
    RecordUnnoticed(s, id, t);
    forall i | Taken(t, i)
      ensures Taken(Now(s), i) || i == id
    {
      RecordTaken(Now(s), q.request, id, q.pc.plan, i);
    }
  }

  lemma Commits(s: System, id: Id)
    requires Ready(s, id) && !s.procs[id].request.CreateWallet? && s.procs[id].pc.Writing?
    requires s.procs[id].pc.done == |s.procs[id].pc.plan.postings|
    ensures Inv(AdvanceMovement(s, id))
  {
    var q := s.procs[id];
    CommitStep(s, id);
    PublishKeepsInv(s, id, Record(Now(s), q.request, id, q.pc.plan), Recorded(q.pc.writes.transaction));
  }

  lemma AdvanceKeepsInv(s: System, id: Id)
    requires Inv(s) && Enabled(s, Advance(id))
    ensures Inv(Next(s, Advance(id)))
  {
    ReadyNow(s, id);
    var q := s.procs[id];
    if q.request.CreateWallet? {
      if q.pc.Arrived? {
        OpeningArrives(s, id);
      } else {
        OpeningCommits(s, id);
      }
    } else {
      match q.pc
      case Arrived => Arrives(s, id);
      case Begun => Asks(s, id);
      case Locking(_, _, _) => Locks(s, id);
      case Checking(_, _) => Checks(s, id);
      case Inserting(_, _) => Inserts(s, id);
      case Refetching(_) => Refetches(s, id);
      case Writing(_, plan, done, _) =>
        if done < |plan.postings| {
          Writes(s, id);
        } else {
          Commits(s, id);
        }
    }
  }

  lemma StartInv()
    ensures Inv(START)
  {
    forall id: Id
      ensures !Taken(EMPTY, id)
    {
    }
  }

  lemma NextKeepsInv(s: System, a: Action)
    requires Inv(s) && Enabled(s, a)
    ensures Inv(Next(s, a))
  {
    match a
    case Spawn(id, r) => SpawnKeepsInv(s, id, r);
    case Advance(id) => AdvanceKeepsInv(s, id);
    case Abort(id) => AbortKeepsInv(s, id);
  }

  lemma {:induction false} RunKeepsInv(s: System, run: seq<Action>, s': System)
    requires Inv(s) && Leads(s, run, s')
    ensures Inv(s')
    decreases |run|
  {
    if run != [] {
      NextKeepsInv(s, run[0]);
      RunKeepsInv(Next(s, run[0]), run[1..], s');
    }
  }

  /** The invariant holds in every reachable state, whatever the interleaving and wherever requests abort. */
  lemma ReachableInv(s: System)
    requires Reachable(s)
    ensures Inv(s)
  {
    var run :| Leads(START, run, s);
    StartInv();
    RunKeepsInv(START, run, s);
  }
}
