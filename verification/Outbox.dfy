/** Selection of deliverable outbox rows (`EventDeliveryRepository.list_deliverable`). */
module Outbox {
  import opened Wrappers
  import opened PyText
  import opened Sorting
  import opened Organizations

  datatype DeliveryStatus = PENDING | DELIVERED | FAILED | DEAD_LETTER
  datatype Channel = PROOFSYNC | AUDITSYNC | REGSYNC

  /** A delivery row. Instants are UTC; `attempts` and `maxAttempts` are plain integers. */
  datatype Delivery = Delivery(
    id: string,
    organizationId: string,
    channel: Channel,
    status: DeliveryStatus,
    attempts: int,
    maxAttempts: int,
    nextRetryAt: Option<int>,
    createdAt: int)

  // ---------------------------------------------------------------- the order

  predicate Earlier(a: Option<int>, b: Option<int>) {
    b.Some? && (a.None? || a.value < b.value)
  }

  /** `next_retry_at` ascending with nulls first, then `created_at`, then `id`. */
  predicate RowLe(a: Delivery, b: Delivery) {
    if a.nextRetryAt != b.nextRetryAt then Earlier(a.nextRetryAt, b.nextRetryAt)
    else if a.createdAt != b.createdAt then a.createdAt < b.createdAt
    else StrLe(a.id, b.id)
  }

  ghost predicate UniqueIds(rows: seq<Delivery>) {
    forall i, j :: 0 <= i < j < |rows| ==> rows[i].id != rows[j].id
  }

  lemma RowOrder()
    ensures TotalPreorder(RowLe)
  {
    forall a, b ensures RowLe(a, b) || RowLe(b, a) {
      StrLeTotal(a.id, b.id);
    }
    forall a, b, c | RowLe(a, b) && RowLe(b, c) ensures RowLe(a, c) {
      if StrLe(a.id, b.id) && StrLe(b.id, c.id) {
        StrLeTransitive(a.id, b.id, c.id);
      }
    }
  }

  /** Rows without a retry time come first, then the earlier retry time, then the earlier creation, then the smaller identifier. */
  ghost predicate ComesFirst(a: Delivery, b: Delivery) {
    || (a.nextRetryAt == None && b.nextRetryAt != None)
    || (a.nextRetryAt != None && b.nextRetryAt != None && a.nextRetryAt.value < b.nextRetryAt.value)
    || (a.nextRetryAt == b.nextRetryAt && a.createdAt < b.createdAt)
    || (a.nextRetryAt == b.nextRetryAt && a.createdAt == b.createdAt && (a.id == b.id || Precedes(a.id, b.id)))
  }

  lemma RowOrderMeaning(a: Delivery, b: Delivery)
    ensures RowLe(a, b) <==> ComesFirst(a, b)
  {
    StrLeMeaning(a.id, b.id);
    hide StrLe, Precedes;
  }

  // ---------------------------------------------------------------- what is deliverable

  /** The SQL part: open status, attempts left, right tenant and channel. */
  predicate IsCandidate(org: string, channel: Option<Channel>, d: Delivery) {
    && d.organizationId == org
    && (d.status == PENDING || d.status == FAILED)
    && d.attempts < d.maxAttempts
    && (channel.Some? ==> d.channel == channel.value)
  }

  /** The Python part: a failed row waits for its back-off gate. */
  predicate GatePassed(now: int, d: Delivery) {
    !(d.status == FAILED && d.nextRetryAt.Some? && d.nextRetryAt.value > now)
  }

  function Candidates(org: string, channel: Option<Channel>): Delivery -> bool {
    d => IsCandidate(org, channel, d)
  }

  function Due(now: int): Delivery -> bool {
    d => GatePassed(now, d)
  }

  /**
   Deliverable, as documented: PENDING, or FAILED with its gate elapsed; in either case with
   attempts left, in the tenant, and on the channel if one is named.
   */
  predicate IsDeliverable(org: string, channel: Option<Channel>, now: int, d: Delivery) {
    && d.organizationId == org
    && (channel == None || channel == Some(d.channel))
    && d.attempts < d.maxAttempts
    && (d.status == PENDING || (d.status == FAILED && (d.nextRetryAt == None || d.nextRetryAt.value <= now)))
  }

  function Deliverables(org: string, channel: Option<Channel>, now: int): Delivery -> bool {
    d => IsDeliverable(org, channel, now, d)
  }

  function AtLeastOne(limit: int): nat {
    if limit >= 1 then limit else 1
  }

  function Prefix<T>(s: seq<T>, n: nat): seq<T> {
    if n <= |s| then s[..n] else s
  }

  /** The specification: the first rows of the sorted deliverable ones, and never fewer than one asked for. */
  function FirstDeliverable(rows: seq<Delivery>, org: string, channel: Option<Channel>, limit: int, now: int): seq<Delivery> {
    Prefix(Sort(RowLe, Filter(Deliverables(org, channel, now), rows)), AtLeastOne(limit))
  }

  /** Sorting the candidates and then applying the gate is sorting the deliverable rows. */
  lemma {:induction false} GateAfterSort(rows: seq<Delivery>, org: string, channel: Option<Channel>, now: int)
    ensures Filter(Due(now), Sort(RowLe, Filter(Candidates(org, channel), rows))) ==
            Sort(RowLe, Filter(Deliverables(org, channel, now), rows))
  {
    hide Sort, Filter;
    RowOrder();
    FilterSort(RowLe, Due(now), Filter(Candidates(org, channel), rows));
    FilterTwice(Candidates(org, channel), Due(now), Deliverables(org, channel, now), rows);
  }

  /** Scanning candidates in order and stopping once `n` have been kept. */
  function PickDue(s: seq<Delivery>, now: int, n: nat): seq<Delivery> {
    if n == 0 || s == [] then []
    else if GatePassed(now, s[0]) then [s[0]] + PickDue(s[1..], now, n - 1)
    else PickDue(s[1..], now, n)
  }

  lemma {:induction false} PickIsPrefix(s: seq<Delivery>, now: int, n: nat)
    ensures PickDue(s, now, n) == Prefix(Filter(Due(now), s), n)
  {
    if n != 0 && s != [] {
      if GatePassed(now, s[0]) {
        PickIsPrefix(s[1..], now, n - 1);
        PrefixCons(s[0], Filter(Due(now), s[1..]), n);
      } else {
        PickIsPrefix(s[1..], now, n);
      }
    }
  }

  lemma PrefixCons(x: Delivery, s: seq<Delivery>, n: nat)
    requires n > 0
    ensures Prefix([x] + s, n) == [x] + Prefix(s, n - 1)
  {
  }

  class EventDeliveryRepository {
    const registry: map<string, string>
    var rows: seq<Delivery>

    constructor (registry: map<string, string>, rows: seq<Delivery>)
      ensures this.registry == registry && this.rows == rows
    {
      this.registry, this.rows := registry, rows;
    }

    /** A read: it has no `modifies` clause, so the store is left as it is. */
    method ListDeliverable(org: string, channel: Option<Channel>, limit: int, now: int)
      returns (r: Result<seq<Delivery>, TenantError>)
      ensures match Refusal(registry, org)
              case Some(e) => r == Err(e)
              case None => r == Ok(FirstDeliverable(rows, org, channel, limit, now))
      ensures r.Ok? <==> Registered(registry, org)
    {
      RefusedIff(registry, org);
      var refused := Refusal(registry, org);
      if refused.Some? {
        return Err(refused.value);
      }
      var candidates := Sort(RowLe, Filter(Candidates(org, channel), rows));
      GateAfterSort(rows, org, channel, now);
      PickIsPrefix(candidates, now, AtLeastOne(limit));
      var deliverable := GateAndLimit(candidates, limit, now);
      return Ok(deliverable);
    }
  }

  /** The loop over the ordered candidates: skip closed gates, stop at the limit. */
  method GateAndLimit(candidates: seq<Delivery>, limit: int, now: int) returns (deliverable: seq<Delivery>)
    ensures deliverable == PickDue(candidates, now, AtLeastOne(limit))
  {
    deliverable := [];
    for i := 0 to |candidates|
      invariant |deliverable| < AtLeastOne(limit)
      invariant deliverable + PickDue(candidates[i..], now, AtLeastOne(limit) - |deliverable|) == PickDue(candidates, now, AtLeastOne(limit))
    {
      var delivery := candidates[i];
      assert candidates[i..][1..] == candidates[i + 1..];
      if delivery.status == FAILED {
        var retryAt := delivery.nextRetryAt;
        if retryAt.Some? && retryAt.value > now {
          continue;
        }
      }
      deliverable := deliverable + [delivery];
      if |deliverable| >= limit {
        break;
      }
    }
  }

  // ---------------------------------------------------------------- what the specification promises

  lemma FirstDeliverableByOrder(rows: seq<Delivery>, org: string, channel: Option<Channel>, limit: int, now: int)
    ensures var r := FirstDeliverable(rows, org, channel, limit, now);
            && Ordered(RowLe, r)
            && (forall d :: d in r ==> d in rows && IsDeliverable(org, channel, now, d))
            && |r| <= AtLeastOne(limit)
            && (forall x :: x in rows && IsDeliverable(org, channel, now, x) && x !in r ==>
                  |r| == AtLeastOne(limit) && forall d :: d in r ==> RowLe(d, x))
  {
    var p := Deliverables(org, channel, now);
    var f := Filter(p, rows);
    var s := Sort(RowLe, f);
    var r := FirstDeliverable(rows, org, channel, limit, now);
    RowOrder();
    SortOrdered(RowLe, f);
    SameElements(s, f);
    forall d | d in r ensures d in rows && IsDeliverable(org, channel, now, d) {
      assert d in s;
      FilterMember(p, rows, d);
    }
    forall x | x in rows && IsDeliverable(org, channel, now, x) && x !in r
      ensures |r| == AtLeastOne(limit) && forall d :: d in r ==> RowLe(d, x)
    {
      FilterMember(p, rows, x);
      assert x in s;
      var j :| 0 <= j < |s| && s[j] == x;
      assert j >= |r|;
      forall d | d in r ensures RowLe(d, x) {
        var i :| 0 <= i < |r| && r[i] == d;
        assert s[i] == d;
      }
    }
  }

  /** The first rows are deliverable rows, in order, as many as there are up to the limit. */
  lemma FirstDeliverableMeaning(rows: seq<Delivery>, org: string, channel: Option<Channel>, limit: int, now: int)
    ensures var r := FirstDeliverable(rows, org, channel, limit, now);
            && (forall i, j :: 0 <= i < j < |r| ==> ComesFirst(r[i], r[j]))
            && (forall d :: d in r ==> d in rows && IsDeliverable(org, channel, now, d))
            && (forall d :: d in r ==> d.organizationId == org && d.attempts < d.maxAttempts && (channel.Some? ==> d.channel == channel.value))
            && (forall d :: d in r ==> d.status == PENDING || (d.status == FAILED && (d.nextRetryAt.Some? ==> d.nextRetryAt.value <= now)))
            && |r| <= AtLeastOne(limit)
            && (forall x :: x in rows && IsDeliverable(org, channel, now, x) && x !in r ==>
                  |r| == AtLeastOne(limit) && forall d :: d in r ==> ComesFirst(d, x))
  {
    FirstDeliverableByOrder(rows, org, channel, limit, now);
    hide FirstDeliverable, RowLe, ComesFirst;
    forall a, b ensures RowLe(a, b) <==> ComesFirst(a, b) {
      RowOrderMeaning(a, b);
    }
  }

  /**
   The documented limit is met exactly when it is at least one, or nothing is deliverable: asking
   for no rows still returns one.
   */
  lemma LimitRespectedIff(rows: seq<Delivery>, org: string, channel: Option<Channel>, limit: int, now: int)
    ensures var r := FirstDeliverable(rows, org, channel, limit, now);
            |r| <= (if limit < 0 then 0 else limit) <==> limit >= 1 || Filter(Deliverables(org, channel, now), rows) == []
  {
  }

  /** The result does not depend on the order the rows are stored in. */
  lemma OrderOfRowsIrrelevant(rows: seq<Delivery>, other: seq<Delivery>, org: string, channel: Option<Channel>, limit: int, now: int)
    requires multiset(rows) == multiset(other) && UniqueIds(rows)
    ensures FirstDeliverable(rows, org, channel, limit, now) == FirstDeliverable(other, org, channel, limit, now)
  {
    var p := Deliverables(org, channel, now);
    RowOrder();
    FilterMultiset(p, rows, other);
    UniqueIdsTie(rows);
    FilterTies(p, rows);
    SortOfPermutation(RowLe, Filter(p, rows), Filter(p, other));
  }

  lemma UniqueIdsTie(rows: seq<Delivery>)
    requires UniqueIds(rows)
    ensures TiesOnlyEqual(RowLe, rows)
  {
    forall i, j | 0 <= i < |rows| && 0 <= j < |rows| && RowLe(rows[i], rows[j]) && RowLe(rows[j], rows[i])
      ensures rows[i] == rows[j]
    {
      StrLeAntisymmetric(rows[i].id, rows[j].id);
    }
  }

  lemma FilterTies(p: Delivery -> bool, rows: seq<Delivery>)
    requires TiesOnlyEqual(RowLe, rows)
    ensures TiesOnlyEqual(RowLe, Filter(p, rows))
  {
    var f := Filter(p, rows);
    forall i, j | 0 <= i < |f| && 0 <= j < |f| && RowLe(f[i], f[j]) && RowLe(f[j], f[i]) ensures f[i] == f[j] {
      FilterMember(p, rows, f[i]);
      FilterMember(p, rows, f[j]);
      var i' :| 0 <= i' < |rows| && rows[i'] == f[i];
      var j' :| 0 <= j' < |rows| && rows[j'] == f[j];
    }
  }
}
