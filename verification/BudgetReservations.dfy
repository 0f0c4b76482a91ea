/**
 * What PreCheckBudget makes of the reservations: the reserved part of what it compares with a limit is
 * the sum of the reservations that are still outstanding in the limit's scope and period.
 */
module BudgetReservations {
  import opened Basics
  import opened Sums
  import opened Calendar
  import opened RedisKeys
  import opened UsagePipeline
  import opened BudgetCheck
  import Reservations

  /** The scope of a budget row, read off a reservation: its key for key rows, its tenant for others. */
  predicate InScopeOf(l: BudgetLimit, h: Reservations.Reservation) {
    if l.scopeType == "api_key" then l.scopeId != "" && h.keyId == l.scopeId else h.tenant == l.tenant
  }

  /** A reservation nobody has begun to release, made in the row's scope and in its current period. */
  ghost function OutstandingIn(l: BudgetLimit, now: Instant): Reservations.Reservation -> int {
    (h: Reservations.Reservation) =>
      if !h.releasing && InScopeOf(l, h) && BucketOf(l.period, h.at) == BucketOf(l.period, now) then h.amount else 0
  }

  /** Every reservation is fully made, every begun release is complete and was made on the day. */
  ghost predicate Calm(s: Reservations.Store) {
    forall i :: 0 <= i < |s.holds| ==>
      var h := s.holds[i];
      h.raised == |h.keys| && Reservations.Settled(h) && Reservations.SameDay(h) && h.amount >= 0
  }

  /** The check reads the reservation counters of the store. */
  ghost predicate Reads(s: State, store: Reservations.Store) {
    forall k: BudgetKey :: k.AccountReserved? || k.KeyReserved? ==> Get(s.counters, k) == Get(store.counters, k)
  }

  lemma PairMembers(tenant: nat, keyId: string, b: Bucket, k: BudgetKey)
    ensures k in Reservations.PairFor(tenant, keyId, b) <==>
            k == AccountReserved(tenant, b) || (keyId != "" && k == KeyReserved(keyId, b))
  {}

  /** Which counters a reservation at time t is on: the account's and the key's, for each period. */
  lemma ReservedOn(tenant: nat, keyId: string, t: Instant, p: Period, u: Instant, id: string, other: nat)
    ensures var ks, b := Reservations.ReservationKeys(tenant, keyId, t), BucketOf(p, u);
            && (AccountReserved(other, b) in ks <==> other == tenant && BucketOf(p, t) == b)
            && (KeyReserved(id, b) in ks <==> id != "" && id == keyId && BucketOf(p, t) == b)
  {
    hide CivilDate, IsoYear, IsoWeek, Reservations.PairFor;
    var b := BucketOf(p, u);
    forall q: Period, k: BudgetKey
      ensures k in Reservations.PairFor(tenant, keyId, BucketOf(q, t)) <==>
              k == AccountReserved(tenant, BucketOf(q, t)) || (keyId != "" && k == KeyReserved(keyId, BucketOf(q, t)))
    {
      PairMembers(tenant, keyId, BucketOf(q, t), k);
    }
  }

  lemma OutstandingOnCounter(h: Reservations.Reservation, l: BudgetLimit, now: Instant)
    requires Reservations.HoldOk(h) && h.raised == |h.keys| && Reservations.Settled(h) && Reservations.SameDay(h)
    ensures Reservations.Outstanding(ReservedKey(l, now))(h) == OutstandingIn(l, now)(h)
  {
    hide BucketOf, Reservations.ReservationKeys;
    var k := ReservedKey(l, now);
    assert h.keys[..h.raised] == h.keys;
    if h.releasing {
      Reservations.SameDayReleasesItsOwn(h, k);
    } else {
      ReservedOn(h.tenant, h.keyId, h.at, l.period, now, l.scopeId, l.tenant);
    }
  }

  /**
   * In every run of reservations and releases, once all are complete and releases were made on their
   * day, the reserved part of what PreCheckBudget compares is the sum of the outstanding reservations
   * of the row's key, or of its tenant for an account row, in the row's current period.
   */
  lemma ReservedIsOutstanding(tr: seq<Reservations.Store>, n: nat, s: State, q: Query, l: BudgetLimit)
    requires Reservations.Run(tr) && n < |tr| && Calm(tr[n]) && Reads(s, tr[n])
    ensures Used(s, q, l) == Spend(s, BudgetOf(l), q.now) + Sum(tr[n].holds, OutstandingIn(l, q.now))
  {
    hide Reservations.Outstanding, OutstandingIn, Reservations.HoldOk, Spend, BudgetOf, Reservations.Run, BucketOf, Sum,
         Reservations.Settled, Reservations.SameDay;
    var holds, k := tr[n].holds, ReservedKey(l, q.now);
    Reservations.Reachable(tr, n);
    Reservations.CounterIsOutstanding(tr, n, k);
    forall i | 0 <= i < |holds| ensures Reservations.Outstanding(k)(holds[i]) == OutstandingIn(l, q.now)(holds[i]) {
      OutstandingOnCounter(holds[i], l, q.now);
    }
    SumMonotone(holds, Reservations.Outstanding(k), OutstandingIn(l, q.now));
    SumMonotone(holds, OutstandingIn(l, q.now), Reservations.Outstanding(k));
  }

  /** Whatever the reservation counters hold, they never make the compared amount less than the spend. */
  lemma ReservedNeverLowers(s: State, q: Query, l: BudgetLimit)
    ensures Used(s, q, l) >= Spend(s, BudgetOf(l), q.now)
  {
    hide Spend;
  }

  // ---------------------------------------------------------------- the decision in plain terms

  /** The row is switched on and about this tenant, this key if it is a key's, and this provider or any. */
  predicate About(l: BudgetLimit, q: Query) {
    l.enabled && l.tenant == q.tenant && l.provider in {"", q.provider} &&
    (l.scopeType == "account" || (l.scopeType == "api_key" && l.scopeId == q.keyId))
  }

  /** What is spent in the row's scope, provider and period. */
  function Spent(s: State, q: Query, l: BudgetLimit): int {
    Spend(s, BlockLimit(l.tenant, if l.scopeType == "api_key" then ApiKey(l.scopeId) else Account, l.provider, l.period, l.amount), q.now)
  }

  /**
   * A row blocks if and only if it is about the request, its action is one of the two that block, and
   * spend and outstanding reservations have reached its amount. A row alerts if and only if it is about
   * the request, does not block, and they have reached the threshold percentage of its amount.
   */
  lemma DecisionInPlainTerms(tr: seq<Reservations.Store>, n: nat, s: State, q: Query, l: BudgetLimit)
    requires Reservations.Run(tr) && n < |tr| && Calm(tr[n]) && Reads(s, tr[n])
    ensures var total := Spent(s, q, l) + Sum(tr[n].holds, OutstandingIn(l, q.now));
            var stops := l.action in {"block", "alert_block"} && total >= l.amount;
            && (Blocks(s, q, l) <==> About(l, q) && stops)
            && (Alerts(s, q, l) <==> About(l, q) && !stops && 100.0 * total as real >= l.amount as real * l.threshold)
            && StatusOf(s, q, l) == BudgetStatus(l.scopeType, l.period, l.amount, total, l.threshold)
  {
    hide Spend, Reservations.Run, Calm, Reads, OutstandingIn, Sum, Reserved;
    ReservedIsOutstanding(tr, n, s, q, l);
    Percent(Used(s, q, l) as real, l.amount as real * l.threshold);
  }

  /** The reported row is nearest its amount: no alerting row has used a greater part of its own. */
  lemma NearestInPlainTerms(s: State, q: Query, limits: seq<BudgetLimit>, st: BudgetStatus, i: nat)
    requires IsNearest(s, q, limits, |limits|, st) && st.amount > 0
    requires i < |limits| && Alerts(s, q, limits[i]) && limits[i].amount > 0
    ensures Used(s, q, limits[i]) * st.amount <= st.spend * limits[i].amount
  {
    hide Used, Alerts;
    var u, a, x, b := Used(s, q, limits[i]), limits[i].amount, st.spend, st.amount;
    assert u as real / a as real <= x as real / b as real;
    Crosswise(u as real, a as real, x as real, b as real);
    assert (u * b) as real == u as real * b as real && (x * a) as real == x as real * a as real;
  }

  lemma Crosswise(u: real, a: real, x: real, b: real)
    requires a > 0.0 && b > 0.0 && u / a <= x / b
    ensures u * b <= x * a
  {
    var r, t := u / a, x / b;
    assert u == r * a && x == t * b;
    assert a * b > 0.0;
    assert (t - r) * (a * b) >= 0.0;
  }

  lemma Percent(x: real, y: real)
    ensures x >= y / 100.0 <==> 100.0 * x >= y
  {}
}
