/**
 One worker with the outbox to itself: every interleaving machine step of its
 turn together is exactly one `Poll`, so what is proved of polls (no event
 starves, every backlog empties) is about the workers' own SQL and steps.
 */
module OutboxLoneWorker {
  import opened Outbox
  import opened OutboxWorkers

  // created_at without ties, in insertion order.
  ghost predicate InOrder(s: System) {
    |s.created| == |s.table| && forall i, j :: 0 <= i < j < |s.created| ==> s.created[i] < s.created[j]
  }

  lemma LeftOut(s: System, batch: seq<nat>, n: nat)
    requires InOrder(s) && s.txns == map[] && IsBatch(s, batch)
    requires n < |s.table| && n !in batch && s.table[n].status == Pending
    ensures FullBefore(batch, BATCH, n)
  {
    assert Claimable(s, n);
    forall k | 0 <= k < |batch|
      ensures batch[k] < n
    {
      assert Claimable(s, batch[k]) && batch[k] in batch;
      assert s.created[batch[k]] <= s.created[n];
    }
  }

  // With no locks and no ties the query has one answer.
  lemma BatchIsOldest(s: System, batch: seq<nat>)
    requires InOrder(s) && s.txns == map[] && IsBatch(s, batch)
    ensures Oldest(s.table, BATCH, batch)
  {
    forall k | 0 <= k < |batch|
      ensures batch[k] < |s.table| && s.table[batch[k]].status == Pending
    {
      assert Claimable(s, batch[k]);
    }
    forall j, k | 0 <= j < k < |batch|
      ensures batch[j] < batch[k]
    {
      assert Claimable(s, batch[j]) && Claimable(s, batch[k]);
    }
    forall n: nat | n < |s.table| && s.table[n].status == Pending && n !in batch
      ensures FullBefore(batch, BATCH, n)
    {
      LeftOut(s, batch, n);
    }
  }

  /** With no other worker, the claimed batch is the oldest pending rows, and no other batch is possible. */
  lemma LoneClaim(s: System, batch: seq<nat>)
    requires InOrder(s) && s.txns == map[] && IsBatch(s, batch)
    ensures batch == FetchedIds(s.table, BATCH, |s.table|)
  {
    BatchIsOldest(s, batch);
    FetchedIsOldest(s.table, BATCH);
    OldestIsUnique(s.table, BATCH, batch, FetchedIds(s.table, BATCH, |s.table|));
  }

  // ---------- a whole turn ----------

  // The rest of a turn: one handler step per remaining event, then COMMIT.
  function Turn(worker: nat, ids: seq<nat>, outcomes: nat -> Outcome): seq<Action> {
    if ids == [] then [Commit(worker)] else [Handle(worker, outcomes(ids[0]))] + Turn(worker, ids[1..], outcomes)
  }

  function Written(table: seq<Event>, ids: seq<nat>, outcomes: nat -> Outcome): map<nat, Event>
    requires forall k :: 0 <= k < |ids| ==> ids[k] < |table|
  {
    map i | i in ids :: Processed(table[i], outcomes(i))
  }

  function Logged(table: seq<Event>, ids: seq<nat>, outcomes: nat -> Outcome): seq<Call>
    requires forall k :: 0 <= k < |ids| ==> ids[k] < |table|
  {
    var called := Handled(table, ids);
    seq(|called|, k requires 0 <= k < |called| => Call(called[k], outcomes(called[k])))
  }

  // The system when the lone worker has handled the first k events of its batch.
  function Midway(s: System, worker: nat, batch: seq<nat>, k: nat, outcomes: nat -> Outcome): System
    requires k <= |batch| && forall j :: 0 <= j < |batch| ==> batch[j] < |s.table|
  {
    s.(txns := map[worker := Txn(batch, k, Written(s.table, batch[..k], outcomes))],
       log := s.log + Logged(s.table, batch[..k], outcomes))
  }

  function Polled(s: System, outcomes: nat -> Outcome): System {
    s.(table := Poll(s.table, outcomes),
       log := s.log + Logged(s.table, FetchedIds(s.table, BATCH, |s.table|), outcomes))
  }

  lemma WrittenNext(table: seq<Event>, ids: seq<nat>, e: nat, outcomes: nat -> Outcome)
    requires e < |table| && forall k :: 0 <= k < |ids| ==> ids[k] < |table|
    ensures Written(table, ids + [e], outcomes)
         == Written(table, ids, outcomes)[e := Processed(table[e], outcomes(e))]
  {
  }

  lemma LoggedNext(table: seq<Event>, ids: seq<nat>, e: nat, outcomes: nat -> Outcome)
    requires e < |table| && forall k :: 0 <= k < |ids| ==> ids[k] < |table|
    ensures Logged(table, ids + [e], outcomes)
         == Logged(table, ids, outcomes) + if HasHandler(table[e].kind) then [Call(e, outcomes(e))] else []
  {
    assert (ids + [e])[..|ids|] == ids;
  }

  // One handler step of a lone worker, whatever it has written and logged so far.
  lemma HandleAlone(s: System, worker: nat, t: Txn, o: Outcome)
    requires s.txns == map[worker := t] && t.next < |t.claimed| && t.claimed[t.next] < |s.table|
    ensures var e := t.claimed[t.next];
            Enabled(s, Handle(worker, o))
            && Next(s, Handle(worker, o)) == s.(
                 txns := map[worker := Txn(t.claimed, t.next + 1, t.writes[e := Processed(s.table[e], o)])],
                 log := s.log + if HasHandler(s.table[e].kind) then [Call(e, o)] else [])
  {
  }

  lemma HandleMidway(s: System, worker: nat, batch: seq<nat>, k: nat, outcomes: nat -> Outcome)
    requires k < |batch| && forall j :: 0 <= j < |batch| ==> batch[j] < |s.table|
    ensures var mid := Midway(s, worker, batch, k, outcomes);
            Enabled(mid, Handle(worker, outcomes(batch[k])))
            && Next(mid, Handle(worker, outcomes(batch[k]))) == Midway(s, worker, batch, k + 1, outcomes)
  {
    var mid, e := Midway(s, worker, batch, k, outcomes), batch[k];
    HandleAlone(mid, worker, mid.txns[worker], outcomes(e));
    assert batch[..k + 1] == batch[..k] + [e];
    WrittenNext(s.table, batch[..k], e, outcomes);
    LoggedNext(s.table, batch[..k], e, outcomes);
    var call := if HasHandler(s.table[e].kind) then [Call(e, outcomes(e))] else [];
    assert s.log + (Logged(s.table, batch[..k], outcomes) + call) == s.log + Logged(s.table, batch[..k], outcomes) + call;
  }

  lemma CommitMidway(s: System, worker: nat, outcomes: nat -> Outcome)
    requires s.txns == map[]
    ensures var batch := FetchedIds(s.table, BATCH, |s.table|);
            var mid := Midway(s, worker, batch, |batch|, outcomes);
            Enabled(mid, Commit(worker)) && Next(mid, Commit(worker)) == Polled(s, outcomes)
  {
    var batch := FetchedIds(s.table, BATCH, |s.table|);
    assert batch[..|batch|] == batch;
    var writes := Written(s.table, batch, outcomes);
    assert OutboxWorkers.Overlay(s.table, writes) == Poll(s.table, outcomes);
    assert map[worker := Txn(batch, |batch|, writes)] - {worker} == map[];
  }

  // Handling the first event of a turn leaves the turn of the rest.
  lemma TurnRest(worker: nat, batch: seq<nat>, k: nat, outcomes: nat -> Outcome)
    requires k < |batch|
    ensures Turn(worker, batch[k..], outcomes) == [Handle(worker, outcomes(batch[k]))] + Turn(worker, batch[k + 1..], outcomes)
  {
    assert batch[k..][1..] == batch[k + 1..];
  }

  lemma LeadsFrom(s: System, a: Action, rest: seq<Action>, s': System)
    requires Enabled(s, a) && Leads(Next(s, a), rest, s')
    ensures Leads(s, [a] + rest, s')
  {
    assert ([a] + rest)[1..] == rest;
  }

  lemma {:induction false} TurnLeads(s: System, worker: nat, batch: seq<nat>, k: nat, outcomes: nat -> Outcome)
    requires s.txns == map[] && batch == FetchedIds(s.table, BATCH, |s.table|) && k <= |batch|
    ensures Leads(Midway(s, worker, batch, k, outcomes), Turn(worker, batch[k..], outcomes), Polled(s, outcomes))
    decreases |batch| - k
  {
    var mid := Midway(s, worker, batch, k, outcomes);
    if k == |batch| {
      CommitMidway(s, worker, outcomes);
      LeadsFrom(mid, Commit(worker), [], Polled(s, outcomes));
      assert Turn(worker, batch[k..], outcomes) == [Commit(worker)] + [];
    } else {
      HandleMidway(s, worker, batch, k, outcomes);
      TurnLeads(s, worker, batch, k + 1, outcomes);
      TurnRest(worker, batch, k, outcomes);
      LeadsFrom(mid, Handle(worker, outcomes(batch[k])), Turn(worker, batch[k + 1..], outcomes), Polled(s, outcomes));
    }
  }

  lemma ClaimAlone(s: System, worker: nat, batch: seq<nat>, outcomes: nat -> Outcome)
    requires InOrder(s) && s.txns == map[] && IsBatch(s, batch)
    requires forall j :: 0 <= j < |batch| ==> batch[j] < |s.table|
    ensures Next(s, Claim(worker, batch)) == Midway(s, worker, batch, 0, outcomes)
  {
    assert Written(s.table, batch[..0], outcomes) == map[];
    assert Logged(s.table, batch[..0], outcomes) == [];
  }

  /**
   A lone worker's turn (claim any batch the query may return, handle each
   event, commit) changes the table exactly as `Poll` does, and its handler calls are
   one per fetched event that has a handler, oldest first.
   */
  lemma LoneTurnIsPoll(s: System, worker: nat, batch: seq<nat>, outcomes: nat -> Outcome)
    requires InOrder(s) && s.txns == map[] && IsBatch(s, batch)
    ensures Leads(s, [Claim(worker, batch)] + Turn(worker, batch, outcomes), Polled(s, outcomes))
  {
    LoneClaim(s, batch);
    TurnLeads(s, worker, batch, 0, outcomes);
    assert batch[0..] == batch;
    ClaimAlone(s, worker, batch, outcomes);
    LeadsFrom(s, Claim(worker, batch), Turn(worker, batch, outcomes), Polled(s, outcomes));
  }
}
