/**
 * PreCheckBudget: which budget limit blocks a request before it is forwarded, and which limit
 * the informational headers report. Money is in integer units; percentages and ratios are exact.
 */
module BudgetCheck {
  import opened Basics
  import opened Calendar
  import opened RedisKeys
  import opened UsagePipeline

  /** A row of the budget table; `threshold` is a percentage. */
  datatype BudgetLimit = BudgetLimit(tenant: nat, scopeType: string, scopeId: string, provider: string, period: Period,
                                     amount: int, threshold: real, action: string, enabled: bool)

  datatype Query = Query(tenant: nat, keyId: string, provider: string, now: Instant)

  datatype BudgetStatus = BudgetStatus(scope: string, period: Period, amount: int, spend: int, threshold: real)

  datatype Outcome =
    | DivisionByZero                    // decimal.Div panics on a zero limit amount
    | Blocked(status: BudgetStatus)
    | Forward(nearest: Option<BudgetStatus>)

  /** What a row limits: the spend of a scope, of one provider or of all, in a period. */
  function BudgetOf(l: BudgetLimit): BlockLimit {
    BlockLimit(l.tenant, if l.scopeType == "api_key" then ApiKey(l.scopeId) else Account, l.provider, l.period, l.amount)
  }

  function ReservedKey(l: BudgetLimit, t: Instant): BudgetKey {
    var b := BucketOf(l.period, t);
    if l.scopeType == "api_key" then KeyReserved(l.scopeId, b) else AccountReserved(l.tenant, b)
  }

  /** Reservations are not kept per provider, and a negative counter counts as nothing. */
  function Reserved(s: State, q: Query, l: BudgetLimit): int {
    if Get(s.counters, ReservedKey(l, q.now)) > 0 then Get(s.counters, ReservedKey(l, q.now)) else 0
  }

  function Used(s: State, q: Query, l: BudgetLimit): int {
    Spend(s, BudgetOf(l), q.now) + Reserved(s, q, l)
  }

  predicate InScope(q: Query, l: BudgetLimit) {
    l.tenant == q.tenant && (l.scopeType == "account" || (l.scopeType == "api_key" && l.scopeId == q.keyId))
  }

  predicate Applies(q: Query, l: BudgetLimit) {
    InScope(q, l) && l.enabled && (l.provider == "" || l.provider == q.provider)
  }

  predicate Blocks(s: State, q: Query, l: BudgetLimit) {
    Applies(q, l) && (l.action == "block" || l.action == "alert_block") && Used(s, q, l) >= l.amount
  }

  /** At or above the alert threshold without blocking. */
  predicate Alerts(s: State, q: Query, l: BudgetLimit) {
    Applies(q, l) && !Blocks(s, q, l) && Used(s, q, l) as real >= l.amount as real * l.threshold / 100.0
  }

  predicate Faults(s: State, q: Query, l: BudgetLimit) {
    Alerts(s, q, l) && l.amount == 0
  }

  function StatusOf(s: State, q: Query, l: BudgetLimit): BudgetStatus {
    BudgetStatus(l.scopeType, l.period, l.amount, Used(s, q, l), l.threshold)
  }

  function Ratio(st: BudgetStatus): real
    requires st.amount != 0
  {
    st.spend as real / st.amount as real
  }

  /** `st` reports an alerting limit, and no alerting limit among the first n is nearer its cap. */
  ghost predicate IsNearest(s: State, q: Query, limits: seq<BudgetLimit>, n: nat, st: BudgetStatus)
    requires n <= |limits|
  {
    && st.amount != 0
    && (exists i :: 0 <= i < n && Alerts(s, q, limits[i]) && st == StatusOf(s, q, limits[i]))
    && (forall i :: 0 <= i < n && Alerts(s, q, limits[i]) ==>
          limits[i].amount != 0 && Ratio(StatusOf(s, q, limits[i])) <= Ratio(st))
  }

  ghost predicate Quiet(s: State, q: Query, limits: seq<BudgetLimit>, n: nat)
    requires n <= |limits|
  {
    forall i :: 0 <= i < n ==> !Blocks(s, q, limits[i]) && !Faults(s, q, limits[i])
  }

  ghost predicate FirstBlock(s: State, q: Query, limits: seq<BudgetLimit>, i: int) {
    0 <= i < |limits| && Blocks(s, q, limits[i]) && Quiet(s, q, limits, i)
  }

  ghost predicate FirstFault(s: State, q: Query, limits: seq<BudgetLimit>, i: int) {
    0 <= i < |limits| && Faults(s, q, limits[i]) && Quiet(s, q, limits, i)
  }

  ghost predicate NearestSoFar(s: State, q: Query, limits: seq<BudgetLimit>, n: nat, nearest: Option<BudgetStatus>)
    requires n <= |limits|
  {
    match nearest
    case None => forall i :: 0 <= i < n ==> !Alerts(s, q, limits[i])
    case Some(st) => IsNearest(s, q, limits, n, st)
  }

  /**
   * The first limit that blocks or divides by zero decides; if there is none, the request is
   * forwarded with the alerting limit of greatest used/limit ratio, or with none if none alerts.
   */
  method PreCheckBudget(limits: seq<BudgetLimit>, s: State, q: Query) returns (r: Outcome)
    ensures r.Blocked? <==> exists i :: FirstBlock(s, q, limits, i)
    ensures r.Blocked? ==> exists i :: FirstBlock(s, q, limits, i) && r.status == StatusOf(s, q, limits[i])
    ensures r.DivisionByZero? <==> exists i :: FirstFault(s, q, limits, i)
    ensures r.Forward? <==> Quiet(s, q, limits, |limits|)
    ensures r.Forward? ==> NearestSoFar(s, q, limits, |limits|, r.nearest)
    ensures (forall i :: 0 <= i < |limits| ==> limits[i].amount != 0) ==>
              !r.DivisionByZero? && (r.Blocked? <==> exists i :: 0 <= i < |limits| && Blocks(s, q, limits[i]))
  {
    hide Used, Applies;
    var nearest: Option<BudgetStatus> := None;
    for i := 0 to |limits|
      invariant Quiet(s, q, limits, i)
      invariant NearestSoFar(s, q, limits, i, nearest)
    {
      var l := limits[i];
      if Applies(q, l) {
        var effective := Used(s, q, l);
        var thresholdAmount := l.amount as real * l.threshold / 100.0;
        if (l.action == "block" || l.action == "alert_block") && effective >= l.amount {
          assert FirstBlock(s, q, limits, i);
          return Blocked(BudgetStatus(l.scopeType, l.period, l.amount, effective, l.threshold));
        }
        if effective as real >= thresholdAmount {
          if l.amount == 0 {
            assert FirstFault(s, q, limits, i);
            return DivisionByZero;
          }
          if nearest.None? || effective as real / l.amount as real > Ratio(nearest.value) {
            nearest := Some(BudgetStatus(l.scopeType, l.period, l.amount, effective, l.threshold));
          }
          assert Alerts(s, q, l);
        }
      }
    }
    return Forward(nearest);
  }

  /** A zero-amount alert limit faults on an account that has spent nothing at all. */
  lemma ZeroAlertLimitFaults(l: BudgetLimit, q: Query, s: State)
    requires l.amount == 0 && l.action == "alert" && Applies(q, l) && Used(s, q, l) == 0
    ensures FirstFault(s, q, [l], 0)
  {
    hide Used, Applies;
    assert l.amount as real * l.threshold == 0.0;
  }
}
