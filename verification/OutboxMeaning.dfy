/** What a poll and a committed row mean, in the outbox's own words and numbers. */
module OutboxMeaning {
  import opened Outbox
  import OutboxWorkers

  // The handler calls of a poll, in order.
  function Calls(events: seq<Event>): seq<nat> {
    Handled(events, FetchedIds(events, BATCH, |events|))
  }

  function OlderPending(events: seq<Event>, n: nat): set<nat>
    requires n <= |events|
  {
    set j: nat | j < n && events[j].status == Pending
  }

  lemma {:induction false} PendingIsCounted(events: seq<Event>, n: nat)
    requires n <= |events|
    ensures PendingBefore(events, n) == |OlderPending(events, n)|
  {
    if n > 0 {
      PendingIsCounted(events, n - 1);
      assert OlderPending(events, n)
          == OlderPending(events, n - 1) + if events[n - 1].status == Pending then {n - 1} else {};
    }
  }

  lemma {:induction false} HandledIs(events: seq<Event>, ids: seq<nat>, i: nat)
    requires forall k :: 0 <= k < |ids| ==> ids[k] < |events|
    ensures i in Handled(events, ids) <==> i in ids && events[i].kind == "email"
  {
    if ids != [] {
      var n := |ids| - 1;
      HandledIs(events, ids[..n], i);
      assert i in ids <==> i in ids[..n] || i == ids[n];
    }
  }

  lemma {:induction false} HandledAscends(events: seq<Event>, ids: seq<nat>)
    requires Ascending(ids) && forall k :: 0 <= k < |ids| ==> ids[k] < |events|
    ensures Ascending(Handled(events, ids))
    ensures forall c :: c in Handled(events, ids) ==> c in ids
  {
    if ids != [] {
      var n := |ids| - 1;
      HandledAscends(events, ids[..n]);
      forall c | c in Handled(events, ids[..n])
        ensures c < ids[n] && c in ids
      {
        var k :| 0 <= k < n && ids[..n][k] == c;
        assert ids[k] == c;
      }
      var before := Handled(events, ids[..n]);
      assert forall j :: 0 <= j < |before| ==> before[j] in before;
    }
  }

  // One of the 50 oldest pending rows.
  predicate Due(events: seq<Event>, i: nat)
    requires i < |events|
  {
    events[i].status == Pending && |OlderPending(events, i)| < 50
  }

  /**
   A poll calls the handler for exactly the due emails, each once and oldest
   first.  A due email that is sent is done; one that raises is tried again
   until its fifth attempt fails; a due event of any other kind fails at once.
   Every other row stays as it is.
   */
  lemma PollMeans(events: seq<Event>, outcomes: nat -> Outcome, i: nat)
    requires i < |events|
    ensures Ascending(Calls(events))
    ensures i in Calls(events) <==> Due(events, i) && events[i].kind == "email"
    ensures Poll(events, outcomes)[i] ==
      var e := events[i];
      if !Due(events, i) then e
      else if e.kind != "email" then Event(e.kind, Failed, e.attempts + 1, "no_handler")
      else match outcomes(i)
           case Sent => Event("email", Done, e.attempts, e.lastError)
           case Raised(error) =>
             if e.attempts + 1 >= 5 then Event("email", Failed, e.attempts + 1, error)
             else Event("email", Pending, e.attempts + 1, e.lastError)
  {
    PendingIsCounted(events, i);
    HandledIs(events, FetchedIds(events, BATCH, |events|), i);
    HandledAscends(events, FetchedIds(events, BATCH, |events|));
  }

  // ---------- any number of workers ----------

  ghost predicate OnlyMail(s: OutboxWorkers.System) {
    forall c :: c in s.log ==> c.event < |s.table| && s.table[c.event].kind == "email"
  }

  lemma StepKeepsKinds(s: OutboxWorkers.System, a: OutboxWorkers.Action, event: nat)
    requires OutboxWorkers.Inv(s) && OutboxWorkers.Enabled(s, a) && event < |s.table|
    ensures event < |OutboxWorkers.Next(s, a).table|
    ensures OutboxWorkers.Next(s, a).table[event].kind == s.table[event].kind
  {
    if a.Commit? && event in s.txns[a.worker].writes {
      assert OutboxWorkers.TxnOk(s.table, s.log, s.txns[a.worker]);
      assert OutboxWorkers.Stepped(s.table, s.log, event, s.txns[a.worker].writes[event]);
    }
  }

  lemma StepKeepsOnlyMail(s: OutboxWorkers.System, a: OutboxWorkers.Action)
    requires OutboxWorkers.Inv(s) && OutboxWorkers.Enabled(s, a) && OnlyMail(s)
    ensures OnlyMail(OutboxWorkers.Next(s, a))
  {
    var s' := OutboxWorkers.Next(s, a);
    forall c | c in s'.log
      ensures c.event < |s'.table| && s'.table[c.event].kind == "email"
    {
      if c in s.log {
        StepKeepsKinds(s, a, c.event);
      }
    }
  }

  lemma {:induction false} RunKeepsOnlyMail(s: OutboxWorkers.System, run: seq<OutboxWorkers.Action>, s': OutboxWorkers.System)
    requires OutboxWorkers.Inv(s) && OutboxWorkers.Leads(s, run, s') && OnlyMail(s)
    ensures OnlyMail(s')
    decreases |run|
  {
    if run != [] {
      StepKeepsOnlyMail(s, run[0]);
      OutboxWorkers.NextKeepsInv(s, run[0]);
      RunKeepsOnlyMail(OutboxWorkers.Next(s, run[0]), run[1..], s');
    }
  }

  /** Whatever the workers do, only emails are ever handed to the handler. */
  lemma OnlyMailIsSent(s: OutboxWorkers.System, c: OutboxWorkers.Call)
    requires OutboxWorkers.Reachable(s) && c in s.log
    ensures c.event < |s.table| && s.table[c.event].kind == "email"
  {
    var run :| OutboxWorkers.Leads(OutboxWorkers.START, run, s);
    RunKeepsOnlyMail(OutboxWorkers.START, run, s);
  }

  /**
   A committed row tells what was done for it: a done row is an email that was
   sent, a failed email raised at least five times, any other failed row was
   tried once without a call, and a pending email has raised for every attempt.
   */
  lemma RowTellsItsHistory(s: OutboxWorkers.System, i: nat)
    requires OutboxWorkers.Reachable(s) && i < |s.table|
    ensures var e := s.table[i];
      match e.status
      case Done => e.kind == "email" && OutboxWorkers.Call(i, Sent) in s.log && e.attempts <= 4
      case Failed => if e.kind == "email" then e.attempts == 5 <= OutboxWorkers.Raises(s.log, i)
                     else e.attempts == 1 && OutboxWorkers.Raises(s.log, i) == 0
      case Pending => if e.kind == "email" then e.attempts <= 4 && e.attempts <= OutboxWorkers.Raises(s.log, i)
                      else e.attempts == 0 && OutboxWorkers.Raises(s.log, i) == 0
  {
    OutboxWorkers.DoneWasSent(s, i);
    if s.table[i].kind != "email" {
      forall c | c in s.log
        ensures c.event != i
      {
        OnlyMailIsSent(s, c);
      }
      NeverRaised(s.log, i);
    }
  }

  lemma {:induction false} NeverRaised(log: seq<OutboxWorkers.Call>, i: nat)
    requires forall c :: c in log ==> c.event != i
    ensures OutboxWorkers.Raises(log, i) == 0
  {
    if log != [] {
      assert log[|log| - 1] in log;
      NeverRaised(log[..|log| - 1], i);
    }
  }
}
