/**
 Any number of notification workers over one outbox.  A worker's transaction
 claims a batch with FOR UPDATE SKIP LOCKED, calls the handler for each claimed
 event in turn, and commits or rolls back.  Handler calls happen outside the
 database: `log` is never rolled back.
 */
module OutboxWorkers {
  import opened Outbox

  datatype Call = Call(event: nat, outcome: Outcome)

  // Row i of the table is event i; `created` holds its created_at.
  datatype Txn = Txn(claimed: seq<nat>, next: nat, writes: map<nat, Event>)

  datatype System = System(table: seq<Event>, created: seq<int>, txns: map<nat, Txn>, log: seq<Call>)

  datatype Action =
    | Enqueue(kind: string, at: int)
    | Claim(worker: nat, batch: seq<nat>)
    | Handle(worker: nat, outcome: Outcome)
    | Commit(worker: nat)
    | Rollback(worker: nat)    // also a crash of the worker

  const START := System([], [], map[], [])

  predicate Locked(s: System, event: nat) {
    exists w :: w in s.txns && event in s.txns[w].claimed
  }

  predicate Claimable(s: System, event: nat) {
    event < |s.table| && s.table[event].status == Pending && !Locked(s, event)
  }

  // What a SKIP LOCKED scan may have locked by its end: it takes rows one after
  // another while other workers lock and release, so any free pending rows.
  predicate MayClaim(s: System, batch: seq<nat>) {
    && |batch| <= BATCH
    && (forall k :: 0 <= k < |batch| ==> Claimable(s, batch[k]))
    && (forall j, k :: 0 <= j < k < |batch| ==> batch[j] != batch[k])
  }

  // What SELECT .. WHERE status = 'pending' ORDER BY created_at LIMIT 50 FOR UPDATE SKIP LOCKED
  // returns when nobody else locks or commits during the scan.
  ghost predicate IsBatch(s: System, batch: seq<nat>)
    requires |s.created| == |s.table|
  {
    && MayClaim(s, batch)
    && (forall j, k :: 0 <= j < k < |batch| ==> s.created[batch[j]] <= s.created[batch[k]])
    && (forall e: nat :: Claimable(s, e) && e !in batch ==>
          |batch| == BATCH && forall k :: 0 <= k < |batch| ==> s.created[batch[k]] <= s.created[e])
  }

  ghost predicate Enabled(s: System, a: Action) {
    match a
    case Enqueue(_, _) => true
    case Claim(w, batch) => w !in s.txns && MayClaim(s, batch)
    case Handle(w, _) => w in s.txns && s.txns[w].next < |s.txns[w].claimed| && s.txns[w].claimed[s.txns[w].next] < |s.table|
    case Commit(w) => w in s.txns && s.txns[w].next == |s.txns[w].claimed|
    case Rollback(w) => w in s.txns
  }

  function Overlay(table: seq<Event>, writes: map<nat, Event>): seq<Event> {
    seq(|table|, i requires 0 <= i < |table| => if i in writes then writes[i] else table[i])
  }

  function Next(s: System, a: Action): System
    requires Enabled(s, a)
  {
    match a
    case Enqueue(kind, at) => s.(table := s.table + [Enqueued(kind)], created := s.created + [at])
    case Claim(w, batch) => s.(txns := s.txns[w := Txn(batch, 0, map[])])
    case Handle(w, o) =>
      var t := s.txns[w];
      var e := t.claimed[t.next];
      s.(txns := s.txns[w := t.(next := t.next + 1, writes := t.writes[e := Processed(s.table[e], o)])],
         log := s.log + if HasHandler(s.table[e].kind) then [Call(e, o)] else [])
    case Commit(w) => s.(table := Overlay(s.table, s.txns[w].writes), txns := s.txns - {w})
    case Rollback(w) => s.(txns := s.txns - {w})
  }

  ghost predicate Leads(from: System, run: seq<Action>, to: System)
    decreases |run|
  {
    if run == [] then from == to
    else Enabled(from, run[0]) && Leads(Next(from, run[0]), run[1..], to)
  }

  ghost predicate Reachable(s: System) {
    exists run :: Leads(START, run, s)
  }

  // ---------- invariant ----------

  predicate Claims(t: Txn, event: nat) {
    event in t.claimed
  }

  // The handler calls that raised for an event.
  function Raises(log: seq<Call>, event: nat): nat {
    if log == [] then 0
    else
      var last := log[|log| - 1];
      Raises(log[..|log| - 1], event) + if last.event == event && last.outcome.Raised? then 1 else 0
  }

  function Attempted(e: Event): nat {
    if HasHandler(e.kind) then e.attempts else 0
  }

  // The calls in the log account for the row: it was sent if done, and every counted attempt raised.
  ghost predicate Accounted(log: seq<Call>, event: nat, e: Event) {
    && (e.status == Done ==> Call(event, Sent) in log)
    && Attempted(e) <= Raises(log, event)
  }

  ghost predicate TxnOk(table: seq<Event>, log: seq<Call>, t: Txn) {
    && t.next <= |t.claimed| <= BATCH
    && (forall k :: 0 <= k < |t.claimed| ==> t.claimed[k] < |table| && table[t.claimed[k]].status == Pending)
    && (forall j, k :: 0 <= j < k < |t.claimed| ==> t.claimed[j] != t.claimed[k])
    && (forall k :: 0 <= k < |t.claimed| ==> (t.claimed[k] in t.writes <==> k < t.next))
    && (forall e :: e in t.writes ==> e in t.claimed)
    && (forall e :: e in t.writes ==> Stepped(table, log, e, t.writes[e]))
  }

  // A private write is one worker pass over the committed row.
  ghost predicate Stepped(table: seq<Event>, log: seq<Call>, event: nat, e: Event) {
    && event < |table|
    && (exists o :: e == Processed(table[event], o))
    && Accounted(log, event, e)
  }

  ghost predicate Disjoint(s: System) {
    forall v, w, e :: v in s.txns && w in s.txns && v != w && Claims(s.txns[v], e) ==> !Claims(s.txns[w], e)
  }

  ghost predicate RowOk(log: seq<Call>, event: nat, e: Event) {
    LegalEvent(e) && Accounted(log, event, e)
  }

  ghost predicate Inv(s: System) {
    && |s.created| == |s.table|
    && (forall i :: 0 <= i < |s.table| ==> RowOk(s.log, i, s.table[i]))
    && (forall w :: w in s.txns ==> TxnOk(s.table, s.log, s.txns[w]))
    && Disjoint(s)
  }

  lemma LogGrows(log: seq<Call>, c: Call, event: nat, e: Event)
    requires Accounted(log, event, e)
    ensures Accounted(log + [c], event, e)
  {
    assert (log + [c])[..|log|] == log;
  }

  lemma EnqueueKeepsInv(s: System, a: Action)
    requires Inv(s) && a.Enqueue?
    ensures Inv(Next(s, a))
  {
    var s' := Next(s, a);
    forall w | w in s'.txns
      ensures TxnOk(s'.table, s'.log, s'.txns[w])
    {
      var t := s.txns[w];
      assert TxnOk(s.table, s.log, t);
      forall e | e in t.writes
        ensures Stepped(s'.table, s'.log, e, t.writes[e])
      {
        assert Stepped(s.table, s.log, e, t.writes[e]);
        assert s'.table[e] == s.table[e];
      }
    }
  }

  lemma ClaimKeepsInv(s: System, a: Action)
    requires Inv(s) && a.Claim? && Enabled(s, a)
    ensures Inv(Next(s, a))
  {
    var s' := Next(s, a);
    forall v, w, e | v in s'.txns && w in s'.txns && v != w && Claims(s'.txns[v], e)
      ensures !Claims(s'.txns[w], e)
    {
      if v == a.worker {
        assert Claimable(s, e);
      } else if w == a.worker {
        if Claims(s'.txns[w], e) {
          assert Claimable(s, e) && Locked(s, e);
        }
      } else {
        assert Claims(s.txns[v], e);
      }
    }
  }

  lemma HandledStep(table: seq<Event>, log: seq<Call>, event: nat, o: Outcome)
    requires event < |table| && RowOk(log, event, table[event]) && table[event].status == Pending
    ensures Stepped(table, log + (if HasHandler(table[event].kind) then [Call(event, o)] else []),
                    event, Processed(table[event], o))
  {
    assert (log + [Call(event, o)])[..|log|] == log;
  }

  lemma HandleLog(log: seq<Call>, more: seq<Call>, event: nat, e: Event)
    requires |more| <= 1 && Accounted(log, event, e)
    ensures Accounted(log + more, event, e)
  {
    if more == [] {
      assert log + more == log;
    } else {
      assert more == [more[0]];
      LogGrows(log, more[0], event, e);
    }
  }

  lemma HandledTxn(s: System, w: nat, o: Outcome)
    requires Inv(s) && Enabled(s, Handle(w, o))
    ensures var s' := Next(s, Handle(w, o)); TxnOk(s'.table, s'.log, s'.txns[w])
  {
    var s' := Next(s, Handle(w, o));
    var t, t' := s.txns[w], s'.txns[w];
    var event := t.claimed[t.next];
    assert TxnOk(s.table, s.log, t);
    HandledStep(s.table, s.log, event, o);
    forall e | e in t'.writes
      ensures Stepped(s'.table, s'.log, e, t'.writes[e])
    {
      if e != event {
        assert Stepped(s.table, s.log, e, t.writes[e]);
        HandleLog(s.log, s'.log[|s.log|..], e, t.writes[e]);
        assert s'.log == s.log + s'.log[|s.log|..];
      }
    }
  }

  lemma OtherTxn(table: seq<Event>, log: seq<Call>, more: seq<Call>, t: Txn)
    requires TxnOk(table, log, t) && |more| <= 1
    ensures TxnOk(table, log + more, t)
  {
    forall e | e in t.writes
      ensures Stepped(table, log + more, e, t.writes[e])
    {
      assert Stepped(table, log, e, t.writes[e]);
      HandleLog(log, more, e, t.writes[e]);
    }
  }

  lemma HandleKeepsInv(s: System, a: Action)
    requires Inv(s) && a.Handle? && Enabled(s, a)
    ensures Inv(Next(s, a))
  {
    var s' := Next(s, a);
    var more := s'.log[|s.log|..];
    assert s'.log == s.log + more;
    HandledTxn(s, a.worker, a.outcome);
    forall i | 0 <= i < |s.table|
      ensures RowOk(s'.log, i, s.table[i])
    {
      HandleLog(s.log, more, i, s.table[i]);
    }
    forall w | w in s'.txns
      ensures TxnOk(s'.table, s'.log, s'.txns[w])
    {
      if w != a.worker {
        OtherTxn(s.table, s.log, more, s.txns[w]);
      }
    }
  }

  lemma SteppedLegal(table: seq<Event>, log: seq<Call>, event: nat, e: Event)
    requires Stepped(table, log, event, e) && RowOk(log, event, table[event]) && table[event].status == Pending
    ensures RowOk(log, event, e) && Weight(e) < Weight(table[event])
  {
    var o :| e == Processed(table[event], o);
    ProcessedLegal(table[event], o);
  }

  lemma UntouchedTxn(table: seq<Event>, writes: map<nat, Event>, log: seq<Call>, t: Txn)
    requires TxnOk(table, log, t) && forall e :: Claims(t, e) ==> e !in writes
    ensures TxnOk(Overlay(table, writes), log, t)
  {
    forall k | 0 <= k < |t.claimed|
      ensures Overlay(table, writes)[t.claimed[k]] == table[t.claimed[k]]
    {
      assert Claims(t, t.claimed[k]);
    }
    forall e | e in t.writes
      ensures Stepped(Overlay(table, writes), log, e, t.writes[e])
    {
      assert Stepped(table, log, e, t.writes[e]);
      assert Claims(t, e);
    }
  }

  lemma CommitKeepsInv(s: System, a: Action)
    requires Inv(s) && a.Commit? && Enabled(s, a)
    ensures Inv(Next(s, a))
  {
    var s' := Next(s, a);
    var t := s.txns[a.worker];
    assert TxnOk(s.table, s.log, t);
    forall i | 0 <= i < |s.table|
      ensures RowOk(s'.log, i, s'.table[i])
    {
      if i in t.writes {
        assert Stepped(s.table, s.log, i, t.writes[i]);
        SteppedLegal(s.table, s.log, i, t.writes[i]);
      }
    }
    forall w | w in s'.txns
      ensures TxnOk(s'.table, s'.log, s'.txns[w])
    {
      forall e | Claims(s.txns[w], e)
        ensures e !in t.writes
      {
        assert !Claims(t, e);
      }
      UntouchedTxn(s.table, t.writes, s.log, s.txns[w]);
    }
    assert Disjoint(s') by {
      forall v, w, e | v in s'.txns && w in s'.txns && v != w && Claims(s'.txns[v], e)
        ensures !Claims(s'.txns[w], e)
      {
        assert Claims(s.txns[v], e);
      }
    }
  }

  lemma RollbackKeepsInv(s: System, a: Action)
    requires Inv(s) && a.Rollback? && Enabled(s, a)
    ensures Inv(Next(s, a))
  {
    var s' := Next(s, a);
    forall v, w, e | v in s'.txns && w in s'.txns && v != w && Claims(s'.txns[v], e)
      ensures !Claims(s'.txns[w], e)
    {
      assert Claims(s.txns[v], e);
    }
  }

  lemma NextKeepsInv(s: System, a: Action)
    requires Inv(s) && Enabled(s, a)
    ensures Inv(Next(s, a))
  {
    match a
    case Enqueue(_, _) => EnqueueKeepsInv(s, a);
    case Claim(_, _) => ClaimKeepsInv(s, a);
    case Handle(_, _) => HandleKeepsInv(s, a);
    case Commit(_) => CommitKeepsInv(s, a);
    case Rollback(_) => RollbackKeepsInv(s, a);
  }

  lemma {:induction false} RunKeepsInv(s: System, run: seq<Action>, s': System)
    requires Inv(s) && Leads(s, run, s')
    ensures Inv(s')
    decreases |run|
  {
    if run != [] {
      NextKeepsInv(s, run[0]);
      RunKeepsInv(Next(s, run[0]), run[1..], s');
    }
  }

  lemma ReachableInv(s: System)
    requires Reachable(s)
    ensures Inv(s)
  {
    var run :| Leads(START, run, s);
    RunKeepsInv(START, run, s);
  }

  // ---------- theorems ----------

  /** No two open transactions ever hold the same event, and a held event is still pending. */
  lemma WorkersNeverShare(s: System, v: nat, w: nat, event: nat)
    requires Reachable(s) && v in s.txns && w in s.txns
    requires event in s.txns[v].claimed && event in s.txns[w].claimed
    ensures v == w
    ensures event < |s.table| && s.table[event].status == Pending
  {
    ReachableInv(s);
    assert Claims(s.txns[v], event) && Claims(s.txns[w], event);
    assert TxnOk(s.table, s.log, s.txns[v]);
  }

  /**
   At least once: a committed `done` row was sent, every attempt counted on a
   row really was a handler call that raised, and the row's status and counter
   obey the retry limit.
   */
  lemma DoneWasSent(s: System, event: nat)
    requires Reachable(s) && event < |s.table|
    ensures s.table[event].status == Done ==> Call(event, Sent) in s.log
    ensures HasHandler(s.table[event].kind) ==> s.table[event].attempts <= Raises(s.log, event)
    ensures LegalEvent(s.table[event])
  {
    ReachableInv(s);
    assert RowOk(s.log, event, s.table[event]);
  }

  lemma StepRespectsRows(s: System, a: Action, event: nat)
    requires Inv(s) && Enabled(s, a) && event < |s.table|
    ensures |Next(s, a).table| >= |s.table|
    ensures s.table[event].status != Pending ==> Next(s, a).table[event] == s.table[event]
    ensures !a.Commit? ==> Next(s, a).table[event] == s.table[event]
  {
    if a.Commit? {
      var t := s.txns[a.worker];
      assert TxnOk(s.table, s.log, t);
      if event in t.writes {
        var k :| 0 <= k < |t.claimed| && t.claimed[k] == event;
      }
    }
  }

  /** Done and failed rows never change again, whatever any worker does. */
  lemma {:induction false} FinishedIsForever(s: System, run: seq<Action>, s': System, event: nat)
    requires Inv(s) && Leads(s, run, s')
    requires event < |s.table| && s.table[event].status != Pending
    ensures event < |s'.table| && s'.table[event] == s.table[event]
    decreases |run|
  {
    if run != [] {
      StepRespectsRows(s, run[0], event);
      NextKeepsInv(s, run[0]);
      FinishedIsForever(Next(s, run[0]), run[1..], s', event);
    }
  }

  // The batch a worker has not committed.
  ghost predicate Uncommitted(run: seq<Action>, worker: nat) {
    forall i :: 0 <= i < |run| ==> run[i] != Commit(worker)
  }

  /**
   A crash forgets the rows but not the mail: from the claim to the rollback the
   claimed events keep their rows, whatever the other workers do, while the log
   of handler calls only grows.
   */
  lemma {:induction false} RollbackForgetsRowsOnly(s: System, run: seq<Action>, s': System, worker: nat, event: nat)
    requires Inv(s) && Leads(s, run + [Rollback(worker)], s')
    requires worker in s.txns && event in s.txns[worker].claimed
    requires forall i :: 0 <= i < |run| ==> run[i] != Commit(worker) && run[i] != Rollback(worker)
    ensures event < |s.table| && event < |s'.table| && s'.table[event] == s.table[event]
    ensures s.table[event].status == Pending
    ensures s.log <= s'.log
    decreases |run|
  {
    assert TxnOk(s.table, s.log, s.txns[worker]) && Claims(s.txns[worker], event);
    var all := run + [Rollback(worker)];
    if run == [] {
      assert all[1..] == [];
    } else {
      var next := Next(s, run[0]);
      assert all[1..] == run[1..] + [Rollback(worker)];
      NextKeepsInv(s, run[0]);
      HeldRowUntouched(s, run[0], worker, event);
      RollbackForgetsRowsOnly(next, run[1..], s', worker, event);
    }
  }

  lemma HeldRowUntouched(s: System, a: Action, worker: nat, event: nat)
    requires Inv(s) && Enabled(s, a) && a != Commit(worker) && a != Rollback(worker)
    requires worker in s.txns && event in s.txns[worker].claimed && event < |s.table|
    ensures var s' := Next(s, a);
      && worker in s'.txns && s'.txns[worker].claimed == s.txns[worker].claimed
      && event < |s'.table| && s'.table[event] == s.table[event]
      && s.log <= s'.log
  {
    assert Claims(s.txns[worker], event);
    if a.Commit? {
      assert !Claims(s.txns[a.worker], event);
      assert TxnOk(s.table, s.log, s.txns[a.worker]);
    }
  }

  // The table with the writes of some claimed rows published, one after the other.
  function Applied(table: seq<Event>, writes: map<nat, Event>, ids: seq<nat>): (applied: seq<Event>)
    ensures |applied| == |table|
    ensures forall i :: 0 <= i < |table| ==> applied[i] == if i in ids && i in writes then writes[i] else table[i]
  {
    if ids == [] then table
    else
      var last := ids[|ids| - 1];
      assert ids == ids[..|ids| - 1] + [last];
      var before := Applied(table, writes, ids[..|ids| - 1]);
      if last < |table| && last in writes then before[last := writes[last]] else before
  }

  lemma {:induction false} PotentialUpdate(table: seq<Event>, i: nat, e: Event, n: nat)
    requires i < |table| && n <= |table|
    ensures Potential(table[i := e], n) == Potential(table, n) + if i < n then Weight(e) - Weight(table[i]) else 0
  {
    if n > 0 {
      PotentialUpdate(table, i, e, n - 1);
    }
  }

  lemma {:induction false} AppliedDrains(table: seq<Event>, log: seq<Call>, writes: map<nat, Event>, ids: seq<nat>)
    requires forall j, k :: 0 <= j < k < |ids| ==> ids[j] != ids[k]
    requires forall k :: 0 <= k < |ids| ==>
      && ids[k] in writes && Stepped(table, log, ids[k], writes[ids[k]])
      && RowOk(log, ids[k], table[ids[k]]) && table[ids[k]].status == Pending
    ensures Potential(Applied(table, writes, ids), |table|) + |ids| <= Potential(table, |table|)
  {
    if ids != [] {
      var last := ids[|ids| - 1];
      var before := Applied(table, writes, ids[..|ids| - 1]);
      AppliedDrains(table, log, writes, ids[..|ids| - 1]);
      SteppedLegal(table, log, last, writes[last]);
      assert before[last] == table[last];
      PotentialUpdate(before, last, writes[last], |table|);
    }
  }

  /** Every committed batch brings the table nearer to empty by at least one step per event in it. */
  lemma CommitDrains(s: System, worker: nat)
    requires Reachable(s) && Enabled(s, Commit(worker))
    ensures var s' := Next(s, Commit(worker));
      Potential(s'.table, |s'.table|) + |s.txns[worker].claimed| <= Potential(s.table, |s.table|)
  {
    ReachableInv(s);
    var t := s.txns[worker];
    assert TxnOk(s.table, s.log, t);
    forall k | 0 <= k < |t.claimed|
      ensures Stepped(s.table, s.log, t.claimed[k], t.writes[t.claimed[k]])
      ensures RowOk(s.log, t.claimed[k], s.table[t.claimed[k]])
    {
      assert t.claimed[k] in t.writes;
    }
    AppliedDrains(s.table, s.log, t.writes, t.claimed);
    assert Applied(s.table, t.writes, t.claimed) == Overlay(s.table, t.writes);
  }
}
