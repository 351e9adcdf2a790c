/**
 The outbox dispatcher: attempts, back-off, dead-lettering, sweeps, and why sweeps come to an end.

 A channel adapter is a function from the row to whether it accepted it (a raised exception
 counts as a rejection). The clock is read once per call site: `clock(0)` by the selection,
 `clock(1)` by the sweep, `clock(2)`, `clock(3)`, ... by the successive attempts.
 */
module Dispatcher {
  import opened Wrappers
  import opened Sorting
  import opened Organizations
  import opened Outbox

  /** `dispatch_delivery` on one row. */
  function Attempt(d: Delivery, accepted: bool, now: int, backoff: int): Delivery {
    var attempts := d.attempts + 1;
    if accepted then d.(attempts := attempts, status := DELIVERED, nextRetryAt := None)
    else if attempts >= d.maxAttempts then d.(attempts := attempts, status := DEAD_LETTER, nextRetryAt := None)
    else d.(attempts := attempts, status := FAILED, nextRetryAt := Some(now + backoff * attempts))
  }

  /**
   What one attempt makes of a row: one more attempt; DELIVERED if the channel accepted it,
   DEAD_LETTER if that was its last, else FAILED until as many back-offs have passed as it has attempts.
   */
  predicate Settles(d: Delivery, d': Delivery, accepted: bool, now: int, backoff: int) {
    && d'.id == d.id && d'.organizationId == d.organizationId && d'.channel == d.channel
    && d'.maxAttempts == d.maxAttempts && d'.createdAt == d.createdAt
    && d'.attempts == d.attempts + 1
    && (d'.status == DELIVERED <==> accepted)
    && (d'.status == DEAD_LETTER <==> !accepted && d.attempts + 1 >= d.maxAttempts)
    && (d'.status == FAILED <==> !accepted && d.attempts + 1 < d.maxAttempts)
    && (d'.nextRetryAt == if d'.status == FAILED then Some(now + (d.attempts + 1) * backoff) else None)
  }

  lemma AttemptSettles(d: Delivery, accepted: bool, now: int, backoff: int)
    ensures Settles(d, Attempt(d, accepted, now, backoff), accepted, now, backoff)
  {
  }

  /**
   When a row that was attempted can be selected again: never, if it was accepted or has no attempt
   left; otherwise at exactly the instants from `now` plus one back-off for each attempt made.
   */
  lemma SelectableAgainIff(d: Delivery, accepted: bool, now: int, backoff: int, later: int)
    ensures IsDeliverable(d.organizationId, None, later, Attempt(d, accepted, now, backoff)) <==>
            !accepted && d.attempts + 1 < d.maxAttempts && later >= now + backoff * (d.attempts + 1)
  {
  }

  /** Saving a row: the stored row with its id takes its value. */
  function Save(rows: seq<Delivery>, d: Delivery): (r: seq<Delivery>)
    ensures |r| == |rows|
  {
    if rows == [] then []
    else if rows[0].id == d.id then [d] + rows[1..]
    else [rows[0]] + Save(rows[1..], d)
  }

  predicate IsDue(d: Delivery, now: int) {
    if d.status == PENDING then true
    else if d.status != FAILED then false
    else d.nextRetryAt.None? || d.nextRetryAt.value <= now
  }

  datatype Summary = Summary(considered: nat, delivered: nat, failed: nat, deadLettered: nat)

  /** The rows and the summary after dispatching the due ones of `todo`, `k` being the next clock reading. */
  function Sweep(rows: seq<Delivery>, todo: seq<Delivery>, clock: nat -> int, k: nat, adapter: Delivery -> bool, backoff: int, sum: Summary)
    : (seq<Delivery>, Summary)
    decreases todo
  {
    if todo == [] then (rows, sum)
    else if !IsDue(todo[0], clock(1)) then Sweep(rows, todo[1..], clock, k, adapter, backoff, sum)
    else
      var d := Attempt(todo[0], adapter(todo[0]), clock(k), backoff);
      Sweep(Save(rows, d), todo[1..], clock, k + 1, adapter, backoff, Tally(sum, d.status))
  }

  function Tally(sum: Summary, status: DeliveryStatus): Summary {
    var s := sum.(considered := sum.considered + 1);
    if status == DELIVERED then s.(delivered := s.delivered + 1)
    else if status == DEAD_LETTER then s.(deadLettered := s.deadLettered + 1)
    else s.(failed := s.failed + 1)
  }

  /** One call of `dispatch_pending`. */
  datatype SweepCall = SweepCall(org: string, channel: Option<Channel>, limit: int, clock: nat -> int, adapter: Delivery -> bool)

  const NOTHING := Summary(0, 0, 0, 0)

  function Selected(rows: seq<Delivery>, registry: map<string, string>, c: SweepCall): seq<Delivery> {
    if Refusal(registry, c.org).Some? then [] else FirstDeliverable(rows, c.org, c.channel, c.limit, c.clock(0))
  }

  function AfterSweep(rows: seq<Delivery>, registry: map<string, string>, backoff: int, c: SweepCall): (seq<Delivery>, Summary) {
    Sweep(rows, Selected(rows, registry, c), c.clock, 2, c.adapter, backoff, NOTHING)
  }

  class DispatchService {
    const repo: EventDeliveryRepository
    const backoff: int

    constructor (repo: EventDeliveryRepository, backoff: int)
      ensures this.repo == repo && this.backoff == backoff
    {
      this.repo, this.backoff := repo, backoff;
    }

    method DispatchDelivery(delivery: Delivery, accepted: bool, now: int) returns (updated: Delivery)
      modifies repo`rows
      ensures updated == Attempt(delivery, accepted, now, backoff)
      ensures Settles(delivery, updated, accepted, now, backoff)
      ensures repo.rows == Save(old(repo.rows), updated)
    {
      updated := delivery.(attempts := delivery.attempts + 1);
      if accepted {
        updated := updated.(status := DELIVERED, nextRetryAt := None);
        repo.rows := Save(repo.rows, updated);
        return;
      }
      if updated.attempts >= updated.maxAttempts {
        updated := updated.(status := DEAD_LETTER, nextRetryAt := None);
      } else {
        updated := updated.(status := FAILED, nextRetryAt := Some(now + backoff * updated.attempts));
      }
      repo.rows := Save(repo.rows, updated);
    }

    method DispatchPending(org: string, channel: Option<Channel>, limit: int, clock: nat -> int, adapter: Delivery -> bool)
      returns (r: Result<Summary, TenantError>)
      modifies repo`rows
      ensures match Refusal(repo.registry, org)
              case Some(e) => r == Err(e) && repo.rows == old(repo.rows)
              case None =>
                var call := SweepCall(org, channel, limit, clock, adapter);
                r.Ok? && (repo.rows, r.value) == AfterSweep(old(repo.rows), repo.registry, backoff, call)
      ensures r.Ok? <==> Registered(repo.registry, org)
    {
      var listed := repo.ListDeliverable(org, channel, limit, clock(0));
      if listed.Err? {
        return Err(listed.error);
      }
      var candidates := listed.value;
      var now := clock(1);
      var summary := NOTHING;
      var reading := 2;
      ghost var before := repo.rows;
      for i := 0 to |candidates|
        invariant reading >= 2
        invariant Sweep(before, candidates, clock, 2, adapter, backoff, NOTHING)
               == Sweep(repo.rows, candidates[i..], clock, reading, adapter, backoff, summary)
      {
        var delivery := candidates[i];
        assert candidates[i..][1..] == candidates[i + 1..];
        if !IsDue(delivery, now) {
          continue;
        }
        var updated := DispatchDelivery(delivery, adapter(delivery), clock(reading));
        reading := reading + 1;
        summary := Tally(summary, updated.status);
      }
      return Ok(summary);
    }

    /** Force a re-attempt of one delivery, whatever its gate or its remaining attempts. */
    method RetryDelivery(org: string, id: string, accepted: bool, now: int) returns (r: Result<Option<Delivery>, TenantError>)
      modifies repo`rows
      ensures match Refusal(repo.registry, org)
              case Some(e) => r == Err(e) && repo.rows == old(repo.rows)
              case None =>
                match FindDelivery(old(repo.rows), org, id)
                case None => r == Ok(None) && repo.rows == old(repo.rows)
                case Some(d) =>
                  && r == Ok(Some(Retried(d, accepted, now, backoff)))
                  && (d.status != DELIVERED ==> Settles(d, r.value.value, accepted, now, backoff))
                  && repo.rows == if d.status == DELIVERED then old(repo.rows) else Save(old(repo.rows), Retried(d, accepted, now, backoff))
      ensures r.Ok? <==> Registered(repo.registry, org)
    {
      RefusedIff(repo.registry, org);
      var refused := Refusal(repo.registry, org);
      if refused.Some? {
        return Err(refused.value);
      }
      var found := FindDelivery(repo.rows, org, id);
      if found.None? {
        return Ok(None);
      }
      var delivery := found.value;
      if delivery.status == DELIVERED {
        return Ok(Some(delivery));
      }
      delivery := delivery.(nextRetryAt := None);
      if delivery.status == DEAD_LETTER {
        delivery := delivery.(status := FAILED);
      }
      var updated := DispatchDelivery(delivery, accepted, now);
      return Ok(Some(updated));
    }
  }

  function FindDelivery(rows: seq<Delivery>, org: string, id: string): (r: Option<Delivery>)
    ensures r.Some? ==> r.value in rows && r.value.organizationId == org && r.value.id == id
    ensures r.None? ==> forall d :: d in rows ==> d.organizationId != org || d.id != id
  {
    if rows == [] then None
    else if rows[0].organizationId == org && rows[0].id == id then Some(rows[0])
    else FindDelivery(rows[1..], org, id)
  }

  function Retried(d: Delivery, accepted: bool, now: int, backoff: int): Delivery {
    if d.status == DELIVERED then d else Attempt(d, accepted, now, backoff)
  }

  // ---------------------------------------------------------------- the attempt budget

  /** Attempts the dispatcher may still spend on a row. */
  function Budget(d: Delivery): nat {
    if (d.status == PENDING || d.status == FAILED) && d.attempts < d.maxAttempts then d.maxAttempts - d.attempts else 0
  }

  function TotalBudget(rows: seq<Delivery>): nat {
    if rows == [] then 0 else Budget(rows[0]) + TotalBudget(rows[1..])
  }

  lemma AttemptSpends(d: Delivery, accepted: bool, now: int, backoff: int)
    requires Budget(d) > 0
    ensures Budget(Attempt(d, accepted, now, backoff)) < Budget(d)
  {
  }

  lemma {:induction false} SaveAt(rows: seq<Delivery>, i: nat, d: Delivery)
    requires UniqueIds(rows) && i < |rows| && rows[i].id == d.id
    ensures Save(rows, d) == rows[i := d]
    ensures UniqueIds(Save(rows, d))
  {
    if rows[0].id != d.id {
      assert UniqueIds(rows[1..]);
      SaveAt(rows[1..], i - 1, d);
    }
  }

  lemma {:induction false} SaveMovesBudget(rows: seq<Delivery>, i: nat, d: Delivery)
    requires i < |rows|
    ensures TotalBudget(rows[i := d]) == TotalBudget(rows) - Budget(rows[i]) + Budget(d)
  {
    if i == 0 {
      assert rows[i := d][1..] == rows[1..];
    } else {
      assert rows[i := d][1..] == rows[1..][i - 1 := d];
      SaveMovesBudget(rows[1..], i - 1, d);
    }
  }

  /** The rows still to do are stored as they were selected, once each, with attempts left, and due. */
  ghost predicate Pending(rows: seq<Delivery>, todo: seq<Delivery>, now: int) {
    && UniqueIds(rows) && UniqueIds(todo)
    && forall d :: d in todo ==> d in rows && Budget(d) > 0 && IsDue(d, now)
  }

  lemma DispatchFirst(rows: seq<Delivery>, todo: seq<Delivery>, now: int, d': Delivery)
    requires todo != [] && Pending(rows, todo, now)
    requires d'.id == todo[0].id && Budget(d') < Budget(todo[0])
    ensures Pending(Save(rows, d'), todo[1..], now)
    ensures TotalBudget(Save(rows, d')) < TotalBudget(rows)
  {
    var d := todo[0];
    assert d in rows;
    var i :| 0 <= i < |rows| && rows[i] == d;
    SaveAt(rows, i, d');
    SaveMovesBudget(rows, i, d');
    forall e | e in todo[1..] ensures e in Save(rows, d') {
      var k :| 0 <= k < |todo[1..]| && todo[1..][k] == e;
      assert todo[k + 1] == e && e in todo && e.id != d.id;
      var j :| 0 <= j < |rows| && rows[j] == e;
      assert rows[i := d'][j] == e;
    }
    forall e | e in todo[1..] ensures Budget(e) > 0 && IsDue(e, now) {
      assert e in todo;
    }
  }

  /** A sweep spends at least one attempt of the total budget for each row it considers, and considers them all. */
  lemma {:induction false} SweepSpends(rows: seq<Delivery>, todo: seq<Delivery>, clock: nat -> int, k: nat, adapter: Delivery -> bool, backoff: int, sum: Summary)
    requires Pending(rows, todo, clock(1))
    ensures var (after, total) := Sweep(rows, todo, clock, k, adapter, backoff, sum);
            && UniqueIds(after)
            && TotalBudget(after) + |todo| <= TotalBudget(rows)
            && total.considered == sum.considered + |todo|
            && total.delivered + total.failed + total.deadLettered == sum.delivered + sum.failed + sum.deadLettered + |todo|
    decreases todo
  {
    if todo != [] {
      assert todo[0] in todo;
      var d := Attempt(todo[0], adapter(todo[0]), clock(k), backoff);
      AttemptSpends(todo[0], adapter(todo[0]), clock(k), backoff);
      DispatchFirst(rows, todo, clock(1), d);
      SweepSpends(Save(rows, d), todo[1..], clock, k + 1, adapter, backoff, Tally(sum, d.status));
    }
  }

  // ---------------------------------------------------------------- what one sweep does

  /** Rows that will be accepted, and rows that will be rejected for the last time. */
  function Accepted(adapter: Delivery -> bool): Delivery -> bool {
    (d: Delivery) => adapter(d)
  }

  function RejectedForGood(adapter: Delivery -> bool): Delivery -> bool {
    (d: Delivery) => !adapter(d) && d.attempts + 1 >= d.maxAttempts
  }

  function RejectedForNow(adapter: Delivery -> bool): Delivery -> bool {
    (d: Delivery) => !adapter(d) && d.attempts + 1 < d.maxAttempts
  }

  /** The summary counts the accepted rows, the rows given up and the rows to retry, each on its own. */
  lemma {:induction false} SweepCounts(rows: seq<Delivery>, todo: seq<Delivery>, clock: nat -> int, k: nat, adapter: Delivery -> bool, backoff: int, sum: Summary)
    requires Pending(rows, todo, clock(1))
    ensures var total := Sweep(rows, todo, clock, k, adapter, backoff, sum).1;
            && total.considered == sum.considered + |todo|
            && total.delivered == sum.delivered + |Filter(Accepted(adapter), todo)|
            && total.deadLettered == sum.deadLettered + |Filter(RejectedForGood(adapter), todo)|
            && total.failed == sum.failed + |Filter(RejectedForNow(adapter), todo)|
    decreases todo
  {
    if todo != [] {
      assert todo[0] in todo;
      var d := Attempt(todo[0], adapter(todo[0]), clock(k), backoff);
      AttemptSpends(todo[0], adapter(todo[0]), clock(k), backoff);
      DispatchFirst(rows, todo, clock(1), d);
      SweepCounts(Save(rows, d), todo[1..], clock, k + 1, adapter, backoff, Tally(sum, d.status));
    }
  }

  /** The dispatched row is not dispatched again, and the others are waiting as before. */
  lemma OthersWait(rows: seq<Delivery>, todo: seq<Delivery>, now: int, d': Delivery, at: nat, i: nat)
    requires todo != [] && Pending(rows, todo, now) && at < |rows| && rows[at] == todo[0] && i < |rows| && d'.id == todo[0].id
    ensures d' !in todo[1..] && todo[0] !in todo[1..]
    ensures i != at <==> rows[i] != todo[0]
  {
    forall k | 0 <= k < |todo[1..]| ensures todo[1..][k].id != todo[0].id {
      assert todo[1..][k] == todo[k + 1];
    }
  }

  /** The first step of a sweep whose rows are all due. */
  lemma SweepStep(rows: seq<Delivery>, todo: seq<Delivery>, clock: nat -> int, k: nat, adapter: Delivery -> bool, backoff: int, sum: Summary)
    returns (d: Delivery, at: nat)
    requires todo != [] && Pending(rows, todo, clock(1))
    ensures Settles(todo[0], d, adapter(todo[0]), clock(k), backoff)
    ensures at < |rows| && rows[at] == todo[0] && Pending(rows[at := d], todo[1..], clock(1))
    ensures Sweep(rows, todo, clock, k, adapter, backoff, sum)
         == Sweep(rows[at := d], todo[1..], clock, k + 1, adapter, backoff, Tally(sum, d.status))
  {
    assert todo[0] in todo && todo[0] in rows;
    d := Attempt(todo[0], adapter(todo[0]), clock(k), backoff);
    AttemptSpends(todo[0], adapter(todo[0]), clock(k), backoff);
    AttemptSettles(todo[0], adapter(todo[0]), clock(k), backoff);
    DispatchFirst(rows, todo, clock(1), d);
    at :| 0 <= at < |rows| && rows[at] == todo[0];
    SaveAt(rows, at, d);
  }

  /** A sweep leaves every row alone that it was not given. */
  lemma {:induction false} SweepLeaves(rows: seq<Delivery>, todo: seq<Delivery>, clock: nat -> int, k: nat, adapter: Delivery -> bool, backoff: int, sum: Summary, i: nat)
    requires Pending(rows, todo, clock(1)) && i < |rows| && rows[i] !in todo
    ensures var after := Sweep(rows, todo, clock, k, adapter, backoff, sum).0; |after| == |rows| && after[i] == rows[i]
    decreases todo
  {
    if todo != [] {
      var d, at := SweepStep(rows, todo, clock, k, adapter, backoff, sum);
      hide Sweep, Pending, Settles;
      assert i != at && rows[i] !in todo[1..];
      SweepLeaves(rows[at := d], todo[1..], clock, k + 1, adapter, backoff, Tally(sum, d.status), i);
    }
  }

  /** The `j`-th selected row is settled by one attempt, at the `j`-th next reading of the clock. */
  lemma {:induction false} SweepSettles(rows: seq<Delivery>, todo: seq<Delivery>, clock: nat -> int, k: nat, adapter: Delivery -> bool, backoff: int, sum: Summary, i: nat, j: nat)
    requires Pending(rows, todo, clock(1)) && i < |rows| && j < |todo| && rows[i] == todo[j]
    ensures var after := Sweep(rows, todo, clock, k, adapter, backoff, sum).0;
            |after| == |rows| && Settles(rows[i], after[i], adapter(rows[i]), clock(k + j), backoff)
    decreases todo
  {
    hide Sweep, Pending, Settles, UniqueIds;
    var d, at := SweepStep(rows, todo, clock, k, adapter, backoff, sum);
    assert d.id == todo[0].id by {
      SettlesKeepsId(todo[0], d, adapter(todo[0]), clock(k), backoff);
    }
    OthersWait(rows, todo, clock(1), d, at, i);
    if j == 0 {
      SweepLeaves(rows[at := d], todo[1..], clock, k + 1, adapter, backoff, Tally(sum, d.status), i);
    } else {
      assert todo[j] == todo[1..][j - 1] && todo[1..][j - 1] in todo[1..];
      SweepSettles(rows[at := d], todo[1..], clock, k + 1, adapter, backoff, Tally(sum, d.status), i, j - 1);
    }
  }

  lemma SettlesKeepsId(d: Delivery, d': Delivery, accepted: bool, now: int, backoff: int)
    requires Settles(d, d', accepted, now, backoff)
    ensures d'.id == d.id
  {
  }

  lemma SelectionPending(rows: seq<Delivery>, registry: map<string, string>, c: SweepCall)
    requires UniqueIds(rows) && c.clock(0) <= c.clock(1)
    ensures Pending(rows, Selected(rows, registry, c), c.clock(1))
  {
    if Refusal(registry, c.org).None? {
      var r := FirstDeliverable(rows, c.org, c.channel, c.limit, c.clock(0));
      FirstDeliverableMeaning(rows, c.org, c.channel, c.limit, c.clock(0));
      SelectionUnique(rows, Deliverables(c.org, c.channel, c.clock(0)), AtLeastOne(c.limit));
      assert UniqueIds(r);
    }
  }

  lemma {:induction false} FilterUnique(p: Delivery -> bool, rows: seq<Delivery>)
    requires UniqueIds(rows)
    ensures UniqueIds(Filter(p, rows))
  {
    if rows != [] {
      assert UniqueIds(rows[1..]);
      FilterUnique(p, rows[1..]);
      forall j | 0 <= j < |Filter(p, rows[1..])| ensures Filter(p, rows[1..])[j].id != rows[0].id {
        FilterMember(p, rows[1..], Filter(p, rows[1..])[j]);
      }
    }
  }

  lemma {:induction false} InsertUnique(d: Delivery, rows: seq<Delivery>)
    requires UniqueIds(rows) && forall e :: e in rows ==> e.id != d.id
    ensures UniqueIds(Insert(RowLe, d, rows))
  {
    if rows != [] && !RowLe(d, rows[0]) {
      var rest := Insert(RowLe, d, rows[1..]);
      InsertUnique(d, rows[1..]);
      SameElements(rest, [d] + rows[1..]);
      forall j | 0 <= j < |rest| ensures rest[j].id != rows[0].id {
        assert rest[j] in [d] + rows[1..];
      }
    }
  }

  lemma {:induction false} SortUnique(rows: seq<Delivery>)
    requires UniqueIds(rows)
    ensures UniqueIds(Sort(RowLe, rows))
  {
    if rows != [] {
      SortUnique(rows[1..]);
      SameElements(Sort(RowLe, rows[1..]), rows[1..]);
      InsertUnique(rows[0], Sort(RowLe, rows[1..]));
    }
  }

  lemma {:induction false} SelectionUnique(rows: seq<Delivery>, p: Delivery -> bool, n: nat)
    requires UniqueIds(rows)
    ensures UniqueIds(Prefix(Sort(RowLe, Filter(p, rows)), n))
  {
    FilterUnique(p, rows);
    SortUnique(Filter(p, rows));
  }

  // ---------------------------------------------------------------- runs of sweeps

  function SweepAll(rows: seq<Delivery>, registry: map<string, string>, backoff: int, calls: seq<SweepCall>): seq<Delivery> {
    if calls == [] then rows
    else AfterSweep(SweepAll(rows, registry, backoff, calls[..|calls| - 1]), registry, backoff, calls[|calls| - 1]).0
  }

  /** How many rows all the sweeps together dispatch. */
  function Dispatches(rows: seq<Delivery>, registry: map<string, string>, backoff: int, calls: seq<SweepCall>): nat {
    if calls == [] then 0
    else
      Dispatches(rows, registry, backoff, calls[..|calls| - 1])
      + AfterSweep(SweepAll(rows, registry, backoff, calls[..|calls| - 1]), registry, backoff, calls[|calls| - 1]).1.considered
  }

  /** Inside a sweep the clock does not run backwards between its first two readings. */
  ghost predicate ClocksForward(calls: seq<SweepCall>) {
    forall i :: 0 <= i < |calls| ==> calls[i].clock(0) <= calls[i].clock(1)
  }

  /**
   Dispatch is bounded: over any run of sweeps, dispatched rows and remaining attempts together
   never exceed the attempts there were to begin with.
   */
  lemma {:induction false} DispatchesBounded(rows: seq<Delivery>, registry: map<string, string>, backoff: int, calls: seq<SweepCall>)
    requires UniqueIds(rows) && ClocksForward(calls)
    ensures UniqueIds(SweepAll(rows, registry, backoff, calls))
    ensures Dispatches(rows, registry, backoff, calls) + TotalBudget(SweepAll(rows, registry, backoff, calls)) <= TotalBudget(rows)
  {
    if calls != [] {
      var shorter, c := calls[..|calls| - 1], calls[|calls| - 1];
      DispatchesBounded(rows, registry, backoff, shorter);
      var now := SweepAll(rows, registry, backoff, shorter);
      SelectionPending(now, registry, c);
      SweepSpends(now, Selected(now, registry, c), c.clock, 2, c.adapter, backoff, NOTHING);
    }
  }

  /** The k-th sweep of a run finds nothing to do. */
  predicate Idle(rows: seq<Delivery>, registry: map<string, string>, backoff: int, calls: seq<SweepCall>, k: nat)
    requires k < |calls|
  {
    Selected(SweepAll(rows, registry, backoff, calls[..k]), registry, calls[k]) == []
  }

  lemma OneSweep(rows: seq<Delivery>, registry: map<string, string>, backoff: int, c: SweepCall)
    requires UniqueIds(rows) && c.clock(0) <= c.clock(1)
    ensures AfterSweep(rows, registry, backoff, c).1.considered == |Selected(rows, registry, c)|
  {
    SelectionPending(rows, registry, c);
    SweepSpends(rows, Selected(rows, registry, c), c.clock, 2, c.adapter, backoff, NOTHING);
  }

  lemma {:induction false} BusySweepsAddUp(rows: seq<Delivery>, registry: map<string, string>, backoff: int, calls: seq<SweepCall>)
    requires UniqueIds(rows) && ClocksForward(calls)
    requires forall k :: 0 <= k < |calls| ==> !Idle(rows, registry, backoff, calls, k)
    ensures Dispatches(rows, registry, backoff, calls) >= |calls|
  {
    if calls != [] {
      var n := |calls| - 1;
      var shorter := calls[..n];
      forall k | 0 <= k < n ensures !Idle(rows, registry, backoff, shorter, k) {
        assert shorter[..k] == calls[..k];
        assert !Idle(rows, registry, backoff, calls, k);
      }
      BusySweepsAddUp(rows, registry, backoff, shorter);
      DispatchesBounded(rows, registry, backoff, shorter);
      OneSweep(SweepAll(rows, registry, backoff, shorter), registry, backoff, calls[n]);
      assert !Idle(rows, registry, backoff, calls, n);
    }
  }

  /** Among more sweeps than there are attempts, one finds nothing to do. */
  lemma SomeSweepFindsNothing(rows: seq<Delivery>, registry: map<string, string>, backoff: int, calls: seq<SweepCall>)
    requires UniqueIds(rows) && ClocksForward(calls)
    requires |calls| > TotalBudget(rows)
    ensures exists k :: 0 <= k < |calls| && Idle(rows, registry, backoff, calls, k)
  {
    DispatchesBounded(rows, registry, backoff, calls);
    if forall k :: 0 <= k < |calls| ==> !Idle(rows, registry, backoff, calls, k) {
      BusySweepsAddUp(rows, registry, backoff, calls);
    }
  }

  /**
   An empty selection over all channels, once every back-off gate has passed, means that no open
   row of the tenant has an attempt left; and only then is it empty.
   */
  lemma EmptyIffExhausted(rows: seq<Delivery>, registry: map<string, string>, c: SweepCall)
    requires Refusal(registry, c.org).None? && c.channel == None
    requires forall d :: d in rows && d.organizationId == c.org && d.nextRetryAt.Some? ==> d.nextRetryAt.value <= c.clock(0)
    ensures Selected(rows, registry, c) == [] <==> forall d :: d in rows && d.organizationId == c.org ==> Budget(d) == 0
  {
    FirstDeliverableMeaning(rows, c.org, c.channel, c.limit, c.clock(0));
    var r := Selected(rows, registry, c);
    if r == [] {
      forall d | d in rows && d.organizationId == c.org ensures Budget(d) == 0 {
        assert !IsDeliverable(c.org, c.channel, c.clock(0), d);
      }
    } else {
      assert r[0] in r;
      assert Budget(r[0]) > 0;
    }
  }

  // ---------------------------------------------------------------- row by row

  /** Open rows have attempts left and dead-lettered ones have none: nothing is lost or retried forever. */
  predicate Kept(d: Delivery) {
    && (d.status == PENDING || d.status == FAILED ==> d.attempts < d.maxAttempts)
    && (d.status == DEAD_LETTER ==> d.attempts >= d.maxAttempts)
  }

  /** One row across a run: same identity, no attempt beyond the maximum, `Kept` kept. */
  predicate Follows(d: Delivery, d': Delivery) {
    && d'.id == d.id && d'.organizationId == d.organizationId && d'.channel == d.channel
    && d'.maxAttempts == d.maxAttempts && d'.createdAt == d.createdAt
    && d.attempts <= d'.attempts
    && (d'.attempts > d.attempts ==> d'.attempts <= d.maxAttempts)
    && (Kept(d) ==> Kept(d'))
    && (d.status == DELIVERED || d.status == DEAD_LETTER ==> d' == d)
  }

  ghost predicate AllFollow(rows: seq<Delivery>, rows': seq<Delivery>) {
    |rows| == |rows'| && forall i :: 0 <= i < |rows| ==> Follows(rows[i], rows'[i])
  }

  lemma AttemptFollows(d: Delivery, accepted: bool, now: int, backoff: int)
    requires Budget(d) > 0
    ensures Follows(d, Attempt(d, accepted, now, backoff))
  {
  }

  lemma FollowsTransitive(a: seq<Delivery>, b: seq<Delivery>, c: seq<Delivery>)
    requires AllFollow(a, b) && AllFollow(b, c)
    ensures AllFollow(a, c)
  {
  }

  lemma {:induction false} SweepFollows(rows: seq<Delivery>, todo: seq<Delivery>, clock: nat -> int, k: nat, adapter: Delivery -> bool, backoff: int, sum: Summary)
    requires Pending(rows, todo, clock(1))
    ensures AllFollow(rows, Sweep(rows, todo, clock, k, adapter, backoff, sum).0)
    decreases todo
  {
    if todo != [] {
      assert todo[0] in todo && todo[0] in rows;
      var d := Attempt(todo[0], adapter(todo[0]), clock(k), backoff);
      var i :| 0 <= i < |rows| && rows[i] == todo[0];
      AttemptSpends(todo[0], adapter(todo[0]), clock(k), backoff);
      AttemptFollows(todo[0], adapter(todo[0]), clock(k), backoff);
      SaveAt(rows, i, d);
      DispatchFirst(rows, todo, clock(1), d);
      SweepFollows(Save(rows, d), todo[1..], clock, k + 1, adapter, backoff, Tally(sum, d.status));
      FollowsTransitive(rows, Save(rows, d), Sweep(rows, todo, clock, k, adapter, backoff, sum).0);
    }
  }

  /**
   Over any run of sweeps no row is dispatched beyond its maximum number of attempts, delivered and
   dead-lettered rows are left alone, and rows keep their identity.
   */
  lemma {:induction false} NeverOverAttempted(rows: seq<Delivery>, registry: map<string, string>, backoff: int, calls: seq<SweepCall>)
    requires UniqueIds(rows) && ClocksForward(calls)
    ensures AllFollow(rows, SweepAll(rows, registry, backoff, calls))
  {
    if calls != [] {
      var shorter, c := calls[..|calls| - 1], calls[|calls| - 1];
      NeverOverAttempted(rows, registry, backoff, shorter);
      DispatchesBounded(rows, registry, backoff, shorter);
      var now := SweepAll(rows, registry, backoff, shorter);
      SelectionPending(now, registry, c);
      SweepFollows(now, Selected(now, registry, c), c.clock, 2, c.adapter, backoff, NOTHING);
      FollowsTransitive(rows, now, SweepAll(rows, registry, backoff, calls));
    }
  }

  /**
   Every event reaches an end: in a run of more sweeps of one tenant than the total budget, each
   finding all gates passed, there is a point where every row of the tenant is DELIVERED or
   DEAD_LETTER.
   */
  lemma EveryRowSettles(rows: seq<Delivery>, registry: map<string, string>, backoff: int, calls: seq<SweepCall>, org: string) returns (k: nat)
    requires UniqueIds(rows) && ClocksForward(calls) && Refusal(registry, org).None?
    requires forall d :: d in rows ==> Kept(d)
    requires |calls| > TotalBudget(rows)
    requires forall i :: 0 <= i < |calls| ==> calls[i].org == org && calls[i].channel == None
    requires forall i, d :: 0 <= i < |calls| && d in SweepAll(rows, registry, backoff, calls[..i]) && d.nextRetryAt.Some?
                            ==> d.nextRetryAt.value <= calls[i].clock(0)
    ensures k < |calls|
    ensures forall d :: d in SweepAll(rows, registry, backoff, calls[..k]) && d.organizationId == org
                        ==> d.status == DELIVERED || d.status == DEAD_LETTER
  {
    SomeSweepFindsNothing(rows, registry, backoff, calls);
    k :| 0 <= k < |calls| && Idle(rows, registry, backoff, calls, k);
    var now := SweepAll(rows, registry, backoff, calls[..k]);
    EmptyIffExhausted(now, registry, calls[k]);
    NeverOverAttempted(rows, registry, backoff, calls[..k]);
    forall d | d in now && d.organizationId == org ensures d.status == DELIVERED || d.status == DEAD_LETTER {
      KeptAndExhausted(rows, now, d);
    }
  }

  lemma KeptAndExhausted(rows: seq<Delivery>, now: seq<Delivery>, d: Delivery)
    requires AllFollow(rows, now) && d in now && Budget(d) == 0
    requires forall e :: e in rows ==> Kept(e)
    ensures d.status == DELIVERED || d.status == DEAD_LETTER
  {
  }

  /** A manual retry stays within the maximum exactly when the row was delivered or had an attempt left. */
  lemma ManualRetryWithinBudgetIff(d: Delivery, accepted: bool, now: int, backoff: int)
    requires d.attempts <= d.maxAttempts
    ensures Retried(d, accepted, now, backoff).attempts <= d.maxAttempts <==> d.status == DELIVERED || d.attempts < d.maxAttempts
  {
  }
}
