/**
 The transactional outbox and one notification worker.  Rows are kept oldest
 first, so a row's position is its rank under ORDER BY created_at.
 */
module Outbox {

  datatype Status = Pending | Done | Failed

  datatype Event = Event(kind: string, status: Status, attempts: nat, lastError: string)

  // What a handler call does: it returns, or it raises.
  datatype Outcome = Sent | Raised(error: string)

  const MAX_ATTEMPTS: nat := 5
  const BATCH: nat := 50

  predicate HasHandler(kind: string) {
    kind == "email"
  }

  function Enqueued(kind: string): Event {
    Event(kind, Pending, 0, "")
  }

  /** What one pass of the worker makes of an event. */
  function Processed(e: Event, o: Outcome): Event {
    if !HasHandler(e.kind) then e.(status := Failed, attempts := e.attempts + 1, lastError := "no_handler")
    else
      match o
      case Sent => e.(status := Done)
      case Raised(error) =>
        if e.attempts + 1 >= MAX_ATTEMPTS then
          e.(status := Failed, attempts := e.attempts + 1, lastError := error)
        else e.(attempts := e.attempts + 1)
  }

  function PendingBefore(events: seq<Event>, n: nat): (count: nat)
    requires n <= |events|
    ensures count <= n
  {
    if n == 0 then 0
    else PendingBefore(events, n - 1) + if events[n - 1].status == Pending then 1 else 0
  }

  // Row i is among the `limit` oldest pending rows.
  predicate Fetched(events: seq<Event>, limit: nat, i: nat)
    requires i < |events|
  {
    events[i].status == Pending && PendingBefore(events, i) < limit
  }

  // The rows SELECT .. ORDER BY created_at LIMIT returns, from the first n.
  function FetchedIds(events: seq<Event>, limit: nat, n: nat): (ids: seq<nat>)
    requires n <= |events|
    ensures |ids| <= limit
    ensures |ids| == if PendingBefore(events, n) < limit then PendingBefore(events, n) else limit
    ensures forall k :: 0 <= k < |ids| ==> ids[k] < n && Fetched(events, limit, ids[k])
    ensures forall j, k :: 0 <= j < k < |ids| ==> ids[j] < ids[k]
    ensures forall i :: 0 <= i < n && Fetched(events, limit, i) ==> i in ids
  {
    if n == 0 then []
    else
      var before := FetchedIds(events, limit, n - 1);
      if Fetched(events, limit, n - 1) then before + [n - 1] else before
  }

  /** A whole poll: every fetched row is processed, every other row is left alone. */
  function Poll(events: seq<Event>, outcomes: nat -> Outcome): (events': seq<Event>)
    ensures |events'| == |events|
    ensures forall i :: 0 <= i < |events| ==>
      events'[i] == if Fetched(events, BATCH, i) then Processed(events[i], outcomes(i)) else events[i]
  {
    seq(|events|, i requires 0 <= i < |events| =>
      if Fetched(events, BATCH, i) then Processed(events[i], outcomes(i)) else events[i])
  }

  datatype Record = Record(id: nat, kind: string, attempts: nat)

  function Selected(events: seq<Event>, limit: nat): seq<Record> {
    var ids := FetchedIds(events, limit, |events|);
    seq(|ids|, k requires 0 <= k < |ids| => Record(ids[k], events[ids[k]].kind, events[ids[k]].attempts))
  }

  predicate Ascending(ids: seq<nat>) {
    forall j, k :: 0 <= j < k < |ids| ==> ids[j] < ids[k]
  }

  // A full batch of rows older than n.
  predicate FullBefore(batch: seq<nat>, limit: nat, n: nat) {
    |batch| == limit && forall k :: 0 <= k < |batch| ==> batch[k] < n
  }

  // The oldest pending rows, in order.
  ghost predicate Oldest(events: seq<Event>, limit: nat, batch: seq<nat>) {
    && |batch| <= limit
    && (forall k :: 0 <= k < |batch| ==> batch[k] < |events| && events[batch[k]].status == Pending)
    && Ascending(batch)
    && (forall n: nat :: n < |events| && events[n].status == Pending && n !in batch ==> FullBefore(batch, limit, n))
  }

  function Ids(records: seq<Record>): (ids: seq<nat>)
    ensures |ids| == |records|
  {
    seq(|records|, k requires 0 <= k < |records| => records[k].id)
  }

  // Each record tells of its row.
  predicate Tells(events: seq<Event>, records: seq<Record>) {
    forall k :: 0 <= k < |records| ==>
      && records[k].id < |events|
      && records[k].kind == events[records[k].id].kind
      && records[k].attempts == events[records[k].id].attempts
  }

  // The events among `ids` that have a handler to call, in order.
  function Handled(events: seq<Event>, ids: seq<nat>): seq<nat>
    requires forall k :: 0 <= k < |ids| ==> ids[k] < |events|
  {
    if ids == [] then []
    else
      var last := ids[|ids| - 1];
      Handled(events, ids[..|ids| - 1]) + if HasHandler(events[last].kind) then [last] else []
  }

  class Repository {
    var events: seq<Event>
    ghost var calls: seq<nat>   // the handler calls made so far; no rollback undoes one

    constructor ()
      ensures events == [] && calls == []
    {
      events, calls := [], [];
    }

    method Enqueue(kind: string) returns (id: nat)
      modifies this`events
      ensures id == |old(events)| && events == old(events) + [Event(kind, Pending, 0, "")]
    {
      id := |events|;
      events := events + [Event(kind, Pending, 0, "")];
    }

    method FetchPending(limit: nat) returns (records: seq<Record>)
      ensures Oldest(events, limit, Ids(records)) && Tells(events, records)
    {
      records := Selected(events, limit);
      FetchedIsOldest(events, limit);
      assert Ids(records) == FetchedIds(events, limit, |events|);
    }

    method MarkDone(id: nat)
      requires id < |events|
      modifies this`events
      ensures events == old(events)[id := old(events)[id].(status := Done)]
    {
      events := events[id := events[id].(status := Done)];
    }

    method MarkFailed(id: nat, error: string, newAttempts: nat)
      requires id < |events|
      modifies this`events
      ensures events == old(events)[id := old(events)[id].(status := Failed, lastError := error, attempts := newAttempts)]
    {
      events := events[id := events[id].(status := Failed, lastError := error, attempts := newAttempts)];
    }

    method ResetToPending(id: nat, newAttempts: nat)
      requires id < |events|
      modifies this`events
      ensures events == old(events)[id := old(events)[id].(status := Pending, attempts := newAttempts)]
    {
      events := events[id := events[id].(status := Pending, attempts := newAttempts)];
    }

    /** _process_one, for a handler that behaves as `outcome`. */
    method ProcessOne(record: Record, outcome: Outcome)
      requires record.id < |events| && events[record.id].status == Pending
      requires events[record.id].kind == record.kind && events[record.id].attempts == record.attempts
      modifies this
      ensures events == old(events)[record.id := Processed(old(events)[record.id], outcome)]
      ensures calls == old(calls) + if HasHandler(record.kind) then [record.id] else []
    {
      if record.kind != "email" {
        MarkFailed(record.id, "no_handler", record.attempts + 1);
      } else {
        calls := calls + [record.id];
        match outcome
        case Sent =>
          MarkDone(record.id);
        case Raised(error) =>
          var newAttempts := record.attempts + 1;
          if newAttempts >= MAX_ATTEMPTS {
            MarkFailed(record.id, error, newAttempts);
          } else {
            ResetToPending(record.id, newAttempts);
          }
      }
    }

    /** One turn of run_worker's loop, committed. */
    method PollOnce(outcomes: nat -> Outcome)
      modifies this
      ensures events == Poll(old(events), outcomes)
      ensures calls == old(calls) + Handled(old(events), FetchedIds(old(events), BATCH, |old(events)|))
    {
      ghost var before := events;
      var records := FetchPending(BATCH);
      FetchIsExact(before, BATCH, records);
      BatchStart(before, outcomes);
      for k := 0 to |records|
        invariant events == Partly(before, k, outcomes)
        invariant calls == old(calls) + CallsFor(before, k)
      {
        var record := records[k];
        NextInBatch(before, k, outcomes);
        ProcessOne(record, outcomes(record.id));
      }
      BatchEnd(before, outcomes);
    }
  }

  // ---------- the query ----------

  lemma {:induction false} PendingGrows(events: seq<Event>, i: nat, n: nat)
    requires i <= n <= |events|
    ensures PendingBefore(events, i) <= PendingBefore(events, n)
    decreases n - i
  {
    if i < n {
      PendingGrows(events, i, n - 1);
    }
  }

  // A pending row with a full batch of pending rows before it.
  lemma TooYoung(events: seq<Event>, limit: nat, n: nat, i: nat)
    requires n < |events| && i < |events| && events[n].status == Pending
    requires !Fetched(events, limit, n) && Fetched(events, limit, i)
    ensures i < n
  {
    if n <= i {
      PendingGrows(events, n, i);
    }
  }

  lemma FetchedIsOldest(events: seq<Event>, limit: nat)
    ensures Oldest(events, limit, FetchedIds(events, limit, |events|))
  {
    var ids := FetchedIds(events, limit, |events|);
    forall n: nat | n < |events| && events[n].status == Pending && n !in ids
      ensures FullBefore(ids, limit, n)
    {
      PendingGrows(events, n, |events|);
      forall k | 0 <= k < |ids|
        ensures ids[k] < n
      {
        TooYoung(events, limit, n, ids[k]);
      }
    }
  }

  lemma Skipped(a: seq<nat>, b: seq<nat>, m: nat)
    requires Ascending(a) && Ascending(b) && m < |a| && m < |b| && a[..m] == b[..m] && a[m] < b[m]
    ensures a[m] !in b
  {
    forall k | 0 <= k < |b|
      ensures b[k] != a[m]
    {
      if k < m {
        assert b[k] == b[..m][k] == a[k];
      }
    }
  }

  lemma {:induction false} SamePrefix(events: seq<Event>, limit: nat, a: seq<nat>, b: seq<nat>, m: nat)
    requires Oldest(events, limit, a) && Oldest(events, limit, b) && m <= |a| && m <= |b|
    ensures a[..m] == b[..m]
  {
    if m > 0 {
      var k := m - 1;
      SamePrefix(events, limit, a, b, k);
      if a[k] < b[k] {
        Skipped(a, b, k);
      } else if b[k] < a[k] {
        Skipped(b, a, k);
      }
      assert a[..m] == a[..k] + [a[k]] && b[..m] == b[..k] + [b[k]];
    }
  }

  lemma NextIsNew(a: seq<nat>, b: seq<nat>)
    requires Ascending(b) && |a| < |b| && a == b[..|a|]
    ensures b[|a|] !in a
  {
    forall k | 0 <= k < |a|
      ensures a[k] != b[|a|]
    {
      assert a[k] == b[k];
    }
  }

  // The rows of the longer one are missing from the shorter, which is then full.
  lemma NoShorter(events: seq<Event>, limit: nat, a: seq<nat>, b: seq<nat>)
    requires Oldest(events, limit, a) && Oldest(events, limit, b)
    ensures |a| >= |b|
  {
    if |a| < |b| {
      SamePrefix(events, limit, a, b, |a|);
      assert a == a[..|a|];
      NextIsNew(a, b);
    }
  }

  lemma OldestIsUnique(events: seq<Event>, limit: nat, a: seq<nat>, b: seq<nat>)
    requires Oldest(events, limit, a) && Oldest(events, limit, b)
    ensures a == b
  {
    NoShorter(events, limit, a, b);
    NoShorter(events, limit, b, a);
    SamePrefix(events, limit, a, b, |a|);
    assert a == a[..|a|] && b == b[..|a|];
  }

  // The query has one answer.
  lemma FetchIsExact(events: seq<Event>, limit: nat, records: seq<Record>)
    requires Oldest(events, limit, Ids(records)) && Tells(events, records)
    ensures records == Selected(events, limit)
  {
    FetchedIsOldest(events, limit);
    OldestIsUnique(events, limit, Ids(records), FetchedIds(events, limit, |events|));
    assert forall k :: 0 <= k < |records| ==> records[k].id == Ids(records)[k];
  }

  // ---------- the batch loop ----------

  // Distinct pending rows.
  predicate Batch(events: seq<Event>, ids: seq<nat>) {
    && (forall k :: 0 <= k < |ids| ==> ids[k] < |events| && events[ids[k]].status == Pending)
    && (forall j, k :: 0 <= j < k < |ids| ==> ids[j] != ids[k])
  }

  // The table after the loop has processed `ids`, one after the other.
  function WorkedOff(events: seq<Event>, ids: seq<nat>, outcomes: nat -> Outcome): (events': seq<Event>)
    requires Batch(events, ids)
    ensures |events'| == |events|
  {
    if ids == [] then events
    else
      var last := ids[|ids| - 1];
      var before := WorkedOff(events, ids[..|ids| - 1], outcomes);
      before[last := Processed(before[last], outcomes(last))]
  }

  lemma {:induction false} WorkedOffRow(events: seq<Event>, ids: seq<nat>, outcomes: nat -> Outcome, i: nat)
    requires Batch(events, ids) && i < |events|
    ensures WorkedOff(events, ids, outcomes)[i]
         == if i in ids then Processed(events[i], outcomes(i)) else events[i]
  {
    if ids != [] {
      var n := |ids| - 1;
      WorkedOffRow(events, ids[..n], outcomes, i);
      assert i in ids <==> i in ids[..n] || i == ids[n];
      assert ids[n] !in ids[..n];
    }
  }

  lemma FetchedIsBatch(events: seq<Event>)
    ensures Batch(events, FetchedIds(events, BATCH, |events|))
  {
  }

  // The table and the handler calls when the loop has done the first k fetched rows.
  function Partly(events: seq<Event>, k: nat, outcomes: nat -> Outcome): seq<Event>
    requires k <= |Selected(events, BATCH)|
  {
    FetchedIsBatch(events);
    WorkedOff(events, FetchedIds(events, BATCH, |events|)[..k], outcomes)
  }

  function CallsFor(events: seq<Event>, k: nat): seq<nat>
    requires k <= |Selected(events, BATCH)|
  {
    Handled(events, FetchedIds(events, BATCH, |events|)[..k])
  }

  lemma BatchStart(events: seq<Event>, outcomes: nat -> Outcome)
    ensures Partly(events, 0, outcomes) == events && CallsFor(events, 0) == []
  {
  }

  // The row the loop turns to next is still as it was fetched.
  lemma NextInBatch(events: seq<Event>, k: nat, outcomes: nat -> Outcome)
    requires k < |Selected(events, BATCH)|
    ensures var record, done := Selected(events, BATCH)[k], Partly(events, k, outcomes);
            && record.id < |done|
            && done[record.id].status == Pending && done[record.id].kind == record.kind
            && done[record.id].attempts == record.attempts
            && Partly(events, k + 1, outcomes)
                 == done[record.id := Processed(done[record.id], outcomes(record.id))]
            && CallsFor(events, k + 1)
                 == CallsFor(events, k) + if HasHandler(record.kind) then [record.id] else []
  {
    var ids := FetchedIds(events, BATCH, |events|);
    FetchedIsBatch(events);
    assert ids[..k + 1][..k] == ids[..k];
    WorkedOffRow(events, ids[..k], outcomes, ids[k]);
  }

  lemma BatchEnd(events: seq<Event>, outcomes: nat -> Outcome)
    ensures var n := |Selected(events, BATCH)|;
            && Partly(events, n, outcomes) == Poll(events, outcomes)
            && CallsFor(events, n) == Handled(events, FetchedIds(events, BATCH, |events|))
  {
    var ids := FetchedIds(events, BATCH, |events|);
    FetchedIsBatch(events);
    assert ids[..|ids|] == ids;
    forall i: nat | i < |events|
      ensures WorkedOff(events, ids, outcomes)[i] == Poll(events, outcomes)[i]
    {
      WorkedOffRow(events, ids, outcomes, i);
    }
  }

  // ---------- lifecycle ----------

  predicate LegalEvent(e: Event) {
    match e.status
    case Pending => e.attempts < MAX_ATTEMPTS && (!HasHandler(e.kind) ==> e.attempts == 0)
    case Done => e.attempts < MAX_ATTEMPTS && HasHandler(e.kind)
    case Failed => e.attempts == if HasHandler(e.kind) then MAX_ATTEMPTS else 1
  }

  predicate Legal(events: seq<Event>) {
    forall i :: 0 <= i < |events| ==> LegalEvent(events[i])
  }

  // How many more passes an event can need.
  function Weight(e: Event): nat {
    if e.status == Pending && e.attempts < MAX_ATTEMPTS then MAX_ATTEMPTS - e.attempts else 0
  }

  function Potential(events: seq<Event>, n: nat): nat
    requires n <= |events|
  {
    if n == 0 then 0 else Potential(events, n - 1) + Weight(events[n - 1])
  }

  /** A pass over a pending event keeps it legal and brings it strictly nearer its end. */
  lemma ProcessedLegal(e: Event, o: Outcome)
    requires LegalEvent(e) && e.status == Pending
    ensures LegalEvent(Processed(e, o))
    ensures Weight(Processed(e, o)) < Weight(e)
    ensures Processed(e, o).status == Pending ==> Processed(e, o).attempts == e.attempts + 1
  {
  }

  /** A poll keeps every row legal; done and failed rows never change again. */
  lemma PollLegal(events: seq<Event>, outcomes: nat -> Outcome)
    requires Legal(events)
    ensures Legal(Poll(events, outcomes))
    ensures forall i :: 0 <= i < |events| && events[i].status != Pending ==> Poll(events, outcomes)[i] == events[i]
  {
    forall i | 0 <= i < |events| && events[i].status == Pending {
      ProcessedLegal(events[i], outcomes(i));
    }
  }

  function Capped(count: nat): nat {
    if count < BATCH then count else BATCH
  }

  /** Over any prefix, a poll lowers the potential by at least the number of rows it fetches there. */
  lemma {:induction false} PollDrains(events: seq<Event>, outcomes: nat -> Outcome, n: nat)
    requires Legal(events) && n <= |events|
    ensures Potential(Poll(events, outcomes), n) + Capped(PendingBefore(events, n)) <= Potential(events, n)
  {
    if n > 0 {
      PollDrains(events, outcomes, n - 1);
      if events[n - 1].status == Pending {
        ProcessedLegal(events[n - 1], outcomes(n - 1));
      }
    }
  }

  lemma {:induction false} PotentialBounds(events: seq<Event>, n: nat)
    requires Legal(events) && n <= |events|
    ensures PendingBefore(events, n) <= Potential(events, n) <= MAX_ATTEMPTS * PendingBefore(events, n)
  {
    if n > 0 {
      PotentialBounds(events, n - 1);
    }
  }

  /** A poll never adds to the pending rows ahead of a given row. */
  lemma {:induction false} PollShrinks(events: seq<Event>, outcomes: nat -> Outcome, n: nat)
    requires Legal(events) && n <= |events|
    ensures PendingBefore(Poll(events, outcomes), n) <= PendingBefore(events, n)
  {
    if n > 0 {
      PollShrinks(events, outcomes, n - 1);
    }
  }

  // ---------- runs of one worker ----------

  // Newer rows arrive, then the worker polls.
  datatype Round = Round(arrivals: seq<string>, outcomes: nat -> Outcome)

  function Arrived(events: seq<Event>, arrivals: seq<string>): seq<Event> {
    events + seq(|arrivals|, i requires 0 <= i < |arrivals| => Enqueued(arrivals[i]))
  }

  function After(events: seq<Event>, rounds: seq<Round>): (events': seq<Event>)
    ensures |events'| >= |events|
  {
    if rounds == [] then events
    else
      var last := rounds[|rounds| - 1];
      Poll(Arrived(After(events, rounds[..|rounds| - 1]), last.arrivals), last.outcomes)
  }

  // The table the poll of round j selects from.
  function Before(events: seq<Event>, rounds: seq<Round>, j: nat): (events': seq<Event>)
    requires j < |rounds|
    ensures |events'| >= |events|
  {
    Arrived(After(events, rounds[..j]), rounds[j].arrivals)
  }

  lemma ArrivedPrefix(events: seq<Event>, arrivals: seq<string>, n: nat)
    requires n <= |events|
    ensures PendingBefore(Arrived(events, arrivals), n) == PendingBefore(events, n)
    ensures Potential(Arrived(events, arrivals), n) == Potential(events, n)
    ensures Legal(events) ==> Legal(Arrived(events, arrivals))
  {
    if n > 0 {
      ArrivedPrefix(events, arrivals, n - 1);
    }
  }

  lemma AfterStep(events: seq<Event>, rounds: seq<Round>, j: nat)
    requires j < |rounds|
    ensures After(events, rounds[..j + 1]) == Poll(Before(events, rounds, j), rounds[j].outcomes)
  {
    assert rounds[..j + 1][..j] == rounds[..j];
  }

  lemma {:induction false} AfterLegal(events: seq<Event>, rounds: seq<Round>, j: nat)
    requires Legal(events) && j <= |rounds|
    ensures Legal(After(events, rounds[..j]))
    ensures j < |rounds| ==> Legal(Before(events, rounds, j))
  {
    if j > 0 {
      AfterLegal(events, rounds, j - 1);
      AfterStep(events, rounds, j - 1);
      PollLegal(Before(events, rounds, j - 1), rounds[j - 1].outcomes);
    }
    if j < |rounds| {
      ArrivedPrefix(After(events, rounds[..j]), rounds[j].arrivals, 0);
    }
  }

  /** Over any run, every row stays legal and a row that is done or failed is never touched again. */
  lemma {:induction false} Absorbing(events: seq<Event>, rounds: seq<Round>, i: nat)
    requires Legal(events) && i < |events| && events[i].status != Pending
    ensures Legal(After(events, rounds)) && After(events, rounds)[i] == events[i]
  {
    assert rounds[..|rounds|] == rounds;
    AfterLegal(events, rounds, |rounds|);
    if rounds != [] {
      Absorbing(events, rounds[..|rounds| - 1], i);
    }
  }

  // ---------- no event starves ----------

  ghost predicate FetchedIn(events: seq<Event>, rounds: seq<Round>, target: nat, j: nat)
    requires target < |events| && j < |rounds|
  {
    Fetched(Before(events, rounds, j), BATCH, target)
  }

  // While the target is not fetched it does not change, and each miss costs the older rows a full batch.
  lemma {:induction false} Misses(events: seq<Event>, rounds: seq<Round>, target: nat, m: nat)
    requires Legal(events) && target < |events| && events[target].status == Pending
    requires m <= |rounds| && forall j :: 0 <= j < m ==> !FetchedIn(events, rounds, target, j)
    ensures After(events, rounds[..m])[target] == events[target]
    ensures Potential(After(events, rounds[..m]), target) + BATCH * m <= Potential(events, target)
  {
    if m > 0 {
      Misses(events, rounds, target, m - 1);
      AfterLegal(events, rounds, m - 1);
      AfterStep(events, rounds, m - 1);
      var older := Before(events, rounds, m - 1);
      ArrivedPrefix(After(events, rounds[..m - 1]), rounds[m - 1].arrivals, target);
      assert !FetchedIn(events, rounds, target, m - 1);
      PollDrains(older, rounds[m - 1].outcomes, target);
    }
  }

  lemma FirstFetch(events: seq<Event>, rounds: seq<Round>, target: nat) returns (j: nat)
    requires Legal(events) && target < |events| && events[target].status == Pending
    requires |rounds| > PendingBefore(events, target) / 10
    ensures j <= PendingBefore(events, target) / 10 && FetchedIn(events, rounds, target, j)
    ensures After(events, rounds[..j])[target] == events[target]
  {
    var k := PendingBefore(events, target);
    PotentialBounds(events, target);
    j := 0;
    while j <= k / 10 && !FetchedIn(events, rounds, target, j)
      invariant j <= k / 10 + 1
      invariant forall i :: 0 <= i < j ==> !FetchedIn(events, rounds, target, i)
    {
      j := j + 1;
    }
    Misses(events, rounds, target, j);
  }

  lemma OnePass(older: seq<Event>, outcomes: nat -> Outcome, target: nat)
    requires Legal(older) && target < |older|
    requires older[target].status == Pending ==> PendingBefore(older, target) < BATCH
    ensures var now := Poll(older, outcomes);
      now[target].status == Pending ==>
        && older[target].status == Pending
        && now[target].attempts == older[target].attempts + 1
        && PendingBefore(now, target) < BATCH
  {
    PollShrinks(older, outcomes, target);
    if older[target].status == Pending {
      ProcessedLegal(older[target], outcomes(target));
    }
  }

  // Once fetched, an event is fetched in every later poll until it is done or failed.
  lemma {:induction false} KeepsBeingFetched(events: seq<Event>, rounds: seq<Round>, target: nat, j: nat, f: nat)
    requires Legal(events) && target < |events|
    requires j < |rounds| && FetchedIn(events, rounds, target, j)
    requires 1 <= f && j + f <= |rounds|
    ensures var now := After(events, rounds[..j + f]);
      now[target].status == Pending ==> now[target].attempts >= f && PendingBefore(now, target) < BATCH
    decreases f
  {
    var r := j + f - 1;
    AfterLegal(events, rounds, r);
    AfterStep(events, rounds, r);
    if f > 1 {
      KeepsBeingFetched(events, rounds, target, j, f - 1);
      ArrivedPrefix(After(events, rounds[..r]), rounds[r].arrivals, target);
    }
    OnePass(Before(events, rounds, r), rounds[r].outcomes, target);
  }

  /**
   No event starves: with k older pending events, only newer arrivals and one
   worker that commits, an event is fetched by poll k/10 + 1 and is done or
   failed after poll k/10 + 5, whatever the handler does.
   */
  lemma NoStarvation(events: seq<Event>, rounds: seq<Round>, target: nat)
    requires Legal(events) && target < |events| && events[target].status == Pending
    requires |rounds| >= PendingBefore(events, target) / 10 + 5
    ensures exists j :: 0 <= j <= PendingBefore(events, target) / 10 && FetchedIn(events, rounds, target, j)
    ensures After(events, rounds)[target].status != Pending
  {
    var j := FirstFetch(events, rounds, target);
    KeepsBeingFetched(events, rounds, target, j, 5);
    AfterLegal(events, rounds, j + 5);
    var settled := After(events, rounds[..j + 5]);
    assert LegalEvent(settled[target]);
    AfterSplit(events, rounds, j + 5);
    Absorbing(settled, rounds[j + 5..], target);
  }

  lemma {:induction false} AfterSplit(events: seq<Event>, rounds: seq<Round>, m: nat)
    requires m <= |rounds|
    ensures After(events, rounds) == After(After(events, rounds[..m]), rounds[m..])
    decreases |rounds| - m
  {
    if m < |rounds| {
      AfterSplit(events, rounds[..|rounds| - 1], m);
      assert rounds[..|rounds| - 1][..m] == rounds[..m];
      assert rounds[m..][..|rounds| - m - 1] == rounds[..|rounds| - 1][m..];
    } else {
      assert rounds[..m] == rounds;
    }
  }

  /** Without arrivals, the backlog empties: after as many polls as the potential, nothing is pending. */
  lemma BacklogEmpties(events: seq<Event>, rounds: seq<Round>)
    requires Legal(events)
    requires forall i :: 0 <= i < |rounds| ==> rounds[i].arrivals == []
    requires |rounds| >= Potential(events, |events|)
    ensures PendingBefore(After(events, rounds), |events|) == 0
    ensures |After(events, rounds)| == |events|
  {
    QuietRounds(events, rounds, |rounds|);
    assert rounds[..|rounds|] == rounds;
    AfterLegal(events, rounds, |rounds|);
    PotentialBounds(After(events, rounds), |events|);
  }

  lemma {:induction false} QuietRounds(events: seq<Event>, rounds: seq<Round>, m: nat)
    requires Legal(events) && m <= |rounds|
    requires forall i :: 0 <= i < |rounds| ==> rounds[i].arrivals == []
    ensures |After(events, rounds[..m])| == |events|
    ensures Potential(After(events, rounds[..m]), |events|) == 0
         || Potential(After(events, rounds[..m]), |events|) + m <= Potential(events, |events|)
  {
    if m > 0 {
      QuietRounds(events, rounds, m - 1);
      AfterLegal(events, rounds, m - 1);
      AfterStep(events, rounds, m - 1);
      var older := After(events, rounds[..m - 1]);
      assert Before(events, rounds, m - 1) == older;
      PollDrains(older, rounds[m - 1].outcomes, |events|);
      PotentialBounds(older, |events|);
    }
  }
}
