/**
 * How far check-then-act can overrun a blocking budget: with at most n processing calls in flight,
 * each costing at most maxCost, a counter governed by a limit L stays within L + (n-1)*maxCost.
 */
module BudgetOvershoot {
  import opened Sums
  import opened Calendar
  import opened RedisKeys
  import opened UsagePipeline

  /** The fixed environment: blocking limits, the tenant owning each API key, and the two bounds. */
  datatype Setting = Setting(limits: seq<BlockLimit>, owner: string -> nat, inFlight: int, maxCost: int)

  ghost predicate SettingOk(c: Setting) {
    c.inFlight >= 1 && c.maxCost >= 0 &&
    forall l :: l in c.limits ==> l.amount >= 0 && (l.scope.ApiKey? ==> l.tenant == c.owner(l.scope.id))
  }

  ghost predicate EventOk(c: Setting, e: Event) {
    0 <= e.cost <= c.maxCost && (e.keyId != "" ==> e.tenant == c.owner(e.keyId))
  }

  /** At most n processing calls in flight, every event priced within bounds. */
  ghost predicate WithinSetting(c: Setting, s: State) {
    InFlight(s) <= c.inFlight && forall e :: e in s.stream ==> EventOk(c, e)
  }

  ghost predicate Basic(c: Setting, s: State) {
    && (forall i :: 0 <= i < |s.tasks| ==> TaskOk(c.limits, s.tasks[i]) && EventOk(c, s.tasks[i].event))
    && (forall j :: 0 <= j < |s.ledger| ==> s.ledger[j].cost >= 0)
    && (forall e :: e in s.stream ==> EventOk(c, e))
  }

  ghost predicate Bounded(c: Setting, s: State, l: BlockLimit, k: BudgetKey) {
    Get(s.counters, k) + Sum(s.tasks, Owed(c.limits, l, k)) <= l.amount + (c.inFlight - 1) * c.maxCost
  }

  ghost predicate Inv(c: Setting, s: State) {
    Basic(c, s) && forall l, u :: l in c.limits ==> Bounded(c, s, l, SpendKey(l, u))
  }

  // ---------------------------------------------------------------- limits and their counters

  lemma {:induction false} LimitsForCorrect(limits: seq<BlockLimit>, e: Event, l: BlockLimit)
    ensures l in LimitsFor(limits, e) <==> l in limits && Concerns(l, e)
  {
    if limits != [] {
      var n := |limits| - 1;
      LimitsForCorrect(limits[..n], e, l);
      assert limits == limits[..n] + [limits[n]];
    }
  }

  lemma InPeriodKeys(e: Event, p: Period, k: BudgetKey)
    ensures k in PeriodKeys(e, p) <==>
            k.bucket == BucketOf(p, e.time) &&
            match k
            case AccountSpend(t, _) => t == e.tenant
            case ProviderSpend(t, v, _) => t == e.tenant && v == e.provider && v != ""
            case KeySpend(id, _) => id == e.keyId && id != ""
            case KeyProviderSpend(id, v, _) => id == e.keyId && v == e.provider && id != "" && v != ""
            case AccountReserved(_, _) => false
            case KeyReserved(_, _) => false
  {
    hide BucketOf;
    var b := BucketOf(p, e.time);
    var ks := PeriodKeys(e, p);
    assert ks[0] == AccountSpend(e.tenant, b);
    if e.provider != "" {
      assert ks[1] == ProviderSpend(e.tenant, e.provider, b);
      if e.keyId != "" {
        assert ks[2] == KeySpend(e.keyId, b) && ks[3] == KeyProviderSpend(e.keyId, e.provider, b);
      }
    } else if e.keyId != "" {
      assert ks[1] == KeySpend(e.keyId, b);
    }
  }

  /** An event that bumps a limit's counter is one that had to pass that limit. */
  lemma BumpsOnlyWhatItChecks(c: Setting, l: BlockLimit, u: Instant, e: Event)
    requires SettingOk(c) && EventOk(c, e) && l in c.limits && SpendKey(l, u) in KeysFor(e)
    ensures Concerns(l, e) && l in LimitsFor(c.limits, e) && SpendKey(l, e.time) == SpendKey(l, u)
  {
    hide PeriodKeys, CivilDate, IsoYear, IsoWeek;
    var k := SpendKey(l, u);
    InPeriodKeys(e, Monthly, k);
    InPeriodKeys(e, Weekly, k);
    InPeriodKeys(e, Daily, k);
    LimitsForCorrect(c.limits, e, l);
  }

  /** Reading a counter never shows less than it holds. */
  lemma SpendSeesCounter(c: Setting, s: State, l: BlockLimit, t: Instant)
    requires Basic(c, s)
    ensures Spend(s, l, t) >= Get(s.counters, SpendKey(l, t))
  {
    hide PeriodStart, BucketOf;
    forall j | 0 <= j < |s.ledger| ensures Nought(s.ledger[j]) <= DbRow(l, t)(s.ledger[j]) {}
    SumMonotone(s.ledger, Nought, DbRow(l, t));
    SumZero(s.ledger, Nought);
  }

  ghost function Nought(r: LedgerRow): int { 0 }

  // ---------------------------------------------------------------- one task moves

  lemma OwesWhileBusy(c: Setting, t: Task, l: BlockLimit, k: BudgetKey)
    requires TaskOk(c.limits, t) && EventOk(c, t.event) && c.maxCost >= 0
    ensures Owed(c.limits, l, k)(t) <= Busy(c.maxCost)(t)
  {
    hide KeysFor, LimitsFor;
  }

  /** The other processing calls owe at most maxCost each, and deliveries past processing nothing. */
  lemma OthersOwe(c: Setting, ts: seq<Task>, i: nat, l: BlockLimit, k: BudgetKey)
    requires i < |ts| && Processing(ts[i]) && Sum(ts, Busy(1)) <= c.inFlight && c.maxCost >= 0
    requires forall j :: 0 <= j < |ts| ==> TaskOk(c.limits, ts[j]) && EventOk(c, ts[j].event)
    ensures Sum(ts, Owed(c.limits, l, k)) - Owed(c.limits, l, k)(ts[i]) <= (c.inFlight - 1) * c.maxCost
  {
    hide Owed, TaskOk, EventOk, Sum;
    forall j | 0 <= j < |ts| ensures Owed(c.limits, l, k)(ts[j]) <= Busy(c.maxCost)(ts[j]) {
      OwesWhileBusy(c, ts[j], l, k);
    }
    SumMonotoneExcept(ts, i, Owed(c.limits, l, k), Busy(c.maxCost));
    BusyScale(ts, c.maxCost);
    Scale(Sum(ts, Busy(1)), c.inFlight, c.maxCost);
  }

  lemma Scale(a: int, b: int, m: int)
    requires a <= b && m >= 0
    ensures m * a - m <= (b - 1) * m
  {
    assert m * a <= m * b;
  }

  /** A move books no more on a counter than the task owed, or leaves the bound plainly true. */
  ghost predicate MoveOk(c: Setting, s: State, i: nat, t': Task, counters': map<BudgetKey, int>)
    requires i < |s.tasks|
  {
    forall l, u :: l in c.limits ==>
      var k := SpendKey(l, u);
      || Get(counters', k) + Owed(c.limits, l, k)(t') <= Get(s.counters, k) + Owed(c.limits, l, k)(s.tasks[i])
      || Get(counters', k) + Sum(s.tasks[i := t'], Owed(c.limits, l, k)) <= l.amount + (c.inFlight - 1) * c.maxCost
  }

  lemma MoveKeepsBound(c: Setting, s: State, i: nat, t': Task, counters': map<BudgetKey, int>, l: BlockLimit, u: Instant)
    requires Inv(c, s) && i < |s.tasks| && MoveOk(c, s, i, t', counters') && l in c.limits
    ensures var k := SpendKey(l, u);
            Get(counters', k) + Sum(s.tasks[i := t'], Owed(c.limits, l, k)) <= l.amount + (c.inFlight - 1) * c.maxCost
  {
    hide Owed, SpendKey, Basic;
    assert Bounded(c, s, l, SpendKey(l, u));
    SumUpdate(s.tasks, i, t', Owed(c.limits, l, SpendKey(l, u)));
  }

  lemma CheckMove(c: Setting, s: State, i: nat)
    requires SettingOk(c) && Inv(c, s) && WithinSetting(c, s) && Enabled(c.limits, s, CheckOne(i))
    ensures MoveOk(c, s, i, Apply(c.limits, s, CheckOne(i)).tasks[i], s.counters)
  {
    hide SpendKey, KeysFor, Spend;
    var t := s.tasks[i];
    var ls := LimitsFor(c.limits, t.event);
    var t' := Apply(c.limits, s, CheckOne(i)).tasks[i];
    assert t'.live ==> ls[..t.checked + 1] == ls[..t.checked] + [ls[t.checked]];
    forall l, u | l in c.limits
      ensures var k := SpendKey(l, u);
              || Owed(c.limits, l, k)(t') <= Owed(c.limits, l, k)(t)
              || Get(s.counters, k) + Sum(s.tasks[i := t'], Owed(c.limits, l, k)) <= l.amount + (c.inFlight - 1) * c.maxCost
    {
      var k := SpendKey(l, u);
      if Owed(c.limits, l, k)(t') > Owed(c.limits, l, k)(t) {
        assert k in KeysFor(t.event) && l == ls[t.checked];
        BumpsOnlyWhatItChecks(c, l, u, t.event);
        SpendSeesCounter(c, s, l, t.event.time);
        OthersOwe(c, s.tasks, i, l, k);
        SumUpdate(s.tasks, i, t', Owed(c.limits, l, k));
      }
    }
  }

  lemma EndChecksMove(c: Setting, s: State, i: nat)
    requires SettingOk(c) && Inv(c, s) && Enabled(c.limits, s, EndChecks(i))
    ensures MoveOk(c, s, i, s.tasks[i].(stage := Writing), s.counters)
  {
    hide SpendKey, KeysFor;
    var t := s.tasks[i];
    forall l, u | l in c.limits
      ensures var k := SpendKey(l, u); Owed(c.limits, l, k)(t.(stage := Writing)) <= Owed(c.limits, l, k)(t)
    {
      var k := SpendKey(l, u);
      if k in KeysFor(t.event) {
        BumpsOnlyWhatItChecks(c, l, u, t.event);
        var ls := LimitsFor(c.limits, t.event);
        assert ls[..t.checked] == ls;
      }
    }
  }

  lemma BumpMove(c: Setting, s: State, i: nat)
    requires SettingOk(c) && Inv(c, s) && Enabled(c.limits, s, Bump(i))
    ensures var t := s.tasks[i];
            MoveOk(c, s, i, t.(bumped := t.bumped + 1), IncrBy(s.counters, KeysFor(t.event)[t.bumped], t.event.cost))
  {
    hide SpendKey, KeysFor, LimitsFor;
    var t := s.tasks[i];
    KeysDistinct(t.event);
    var ks := KeysFor(t.event);
    assert ks[t.bumped..] == [ks[t.bumped]] + ks[t.bumped + 1..];
  }

  /** Moves that touch no counter and let a task owe nothing new. */
  lemma QuietMove(c: Setting, s: State, a: Action)
    requires SettingOk(c) && Inv(c, s) && Enabled(c.limits, s, a)
    requires a.WriteLedger? || a.EndBumps? || a.WriteLog? || a.Ack? || a.Stop?
    ensures MoveOk(c, s, a.i, Apply(c.limits, s, a).tasks[a.i], s.counters)
  {
    hide SpendKey, KeysFor, LimitsFor;
  }

  lemma TaskOkKept(c: Setting, s: State, a: Action)
    requires Basic(c, s) && Enabled(c.limits, s, a)
    ensures Basic(c, Apply(c.limits, s, a)) || a.Publish?
  {
    hide KeysFor, LimitsFor;
    if !a.Publish? {
      var s' := Apply(c.limits, s, a);
      assert forall i :: 0 <= i < |s'.tasks| && (i < |s.tasks| && (a.Deliver? || i != a.i)) ==> s'.tasks[i] == s.tasks[i];
    }
  }

  lemma DeliverKeeps(c: Setting, s: State, m: nat)
    requires SettingOk(c) && Inv(c, s) && Enabled(c.limits, s, Deliver(m))
    ensures Inv(c, Apply(c.limits, s, Deliver(m)))
  {
    hide SpendKey, KeysFor, LimitsFor, Owed, TaskOk, EventOk;
    TaskOkKept(c, s, Deliver(m));
    var s' := Apply(c.limits, s, Deliver(m));
    forall l, u | l in c.limits ensures Bounded(c, s', l, SpendKey(l, u)) {
      var k := SpendKey(l, u);
      assert Bounded(c, s, l, k);
      SumAppend(s.tasks, Start(m, s.stream[m]), Owed(c.limits, l, k));
      StartOwesNothing(c, m, s.stream[m], l, k);
    }
  }

  /** Every other action moves one task. */
  lemma MoveShape(c: Setting, s: State, a: Action)
    requires Enabled(c.limits, s, a) && !a.Publish? && !a.Deliver?
    ensures a.i < |s.tasks| && |Apply(c.limits, s, a).tasks| == |s.tasks|
    ensures var s' := Apply(c.limits, s, a); s'.tasks == s.tasks[a.i := s'.tasks[a.i]]
  {
    hide KeysFor, LimitsFor, Spend;
  }

  lemma EveryMoveOk(c: Setting, s: State, a: Action)
    requires SettingOk(c) && Inv(c, s) && WithinSetting(c, s) && Enabled(c.limits, s, a) && !a.Publish? && !a.Deliver?
    requires a.i < |s.tasks| && |Apply(c.limits, s, a).tasks| == |s.tasks|
    ensures var s' := Apply(c.limits, s, a); MoveOk(c, s, a.i, s'.tasks[a.i], s'.counters)
  {
    hide MoveOk, Inv, SettingOk, WithinSetting, KeysFor, LimitsFor, Spend;
    match a
    case CheckOne(i) => CheckMove(c, s, i);
    case EndChecks(i) => EndChecksMove(c, s, i);
    case Bump(i) => BumpMove(c, s, i);
    case _ => QuietMove(c, s, a);
  }

  lemma MoveKeeps(c: Setting, s: State, a: Action)
    requires SettingOk(c) && Inv(c, s) && WithinSetting(c, s) && Enabled(c.limits, s, a) && !a.Publish? && !a.Deliver?
    ensures Inv(c, Apply(c.limits, s, a))
  {
    hide SettingOk, WithinSetting, SpendKey, Apply, Enabled, MoveOk, Basic, Owed;
    var s' := Apply(c.limits, s, a);
    TaskOkKept(c, s, a);
    MoveShape(c, s, a);
    EveryMoveOk(c, s, a);
    forall l, u | l in c.limits ensures Bounded(c, s', l, SpendKey(l, u)) {
      MoveKeepsBound(c, s, a.i, s'.tasks[a.i], s'.counters, l, u);
    }
  }

  lemma NextKeeps(c: Setting, s: State, s': State)
    requires SettingOk(c) && Inv(c, s) && WithinSetting(c, s) && WithinSetting(c, s') && Next(c.limits, s, s')
    ensures Inv(c, s')
  {
    hide SpendKey, KeysFor, LimitsFor, TaskOk, EventOk;
    var a :| Enabled(c.limits, s, a) && s' == Apply(c.limits, s, a);
    if a.Deliver? {
      DeliverKeeps(c, s, a.msg);
    } else if a.Publish? {
      forall l, u | l in c.limits ensures Bounded(c, s', l, SpendKey(l, u)) {
        assert Bounded(c, s, l, SpendKey(l, u));
      }
    } else {
      MoveKeeps(c, s, a);
    }
  }

  lemma StartOwesNothing(c: Setting, m: nat, e: Event, l: BlockLimit, k: BudgetKey)
    ensures Owed(c.limits, l, k)(Start(m, e)) == 0
  {}

  lemma {:induction false} Reachable(c: Setting, tr: seq<State>, n: nat)
    requires SettingOk(c) && Behaviour(c.limits, tr) && n < |tr|
    requires forall i :: 0 <= i <= n ==> WithinSetting(c, tr[i])
    ensures Inv(c, tr[n])
  {
    if n == 0 {
      forall l, u | l in c.limits ensures Bounded(c, tr[0], l, SpendKey(l, u)) {
        assert (c.inFlight - 1) * c.maxCost >= 0;
      }
    } else {
      Reachable(c, tr, n - 1);
      NextKeeps(c, tr[n - 1], tr[n]);
    }
  }

  // ---------------------------------------------------------------- the bound

  lemma OwedNonNegative(c: Setting, s: State, l: BlockLimit, k: BudgetKey)
    requires Basic(c, s)
    ensures Sum(s.tasks, Owed(c.limits, l, k)) >= 0
  {
    SumZero(s.tasks, Busy(0));
    SumMonotone(s.tasks, Busy(0), Owed(c.limits, l, k));
  }

  /**
   * With at most n processing calls in flight, each costing between 0 and maxCost, no counter governed
   * by a blocking limit ever exceeds the limit by more than (n-1)*maxCost, however many deliveries
   * are still logging or acknowledging.
   */
  lemma OvershootBound(c: Setting, tr: seq<State>, n: nat, l: BlockLimit, t: Instant)
    requires SettingOk(c) && Behaviour(c.limits, tr) && n < |tr| && l in c.limits
    requires forall i :: 0 <= i <= n ==> WithinSetting(c, tr[i])
    ensures Get(tr[n].counters, SpendKey(l, t)) <= l.amount + (c.inFlight - 1) * c.maxCost
  {
    hide SpendKey;
    Reachable(c, tr, n);
    assert Bounded(c, tr[n], l, SpendKey(l, t));
    OwedNonNegative(c, tr[n], l, SpendKey(l, t));
  }

  /** A single worker never overruns a blocking limit at all. */
  lemma SequentialNeverOverruns(c: Setting, tr: seq<State>, n: nat, l: BlockLimit, t: Instant)
    requires SettingOk(c) && Behaviour(c.limits, tr) && n < |tr| && l in c.limits
    requires c.inFlight == 1 && forall i :: 0 <= i <= n ==> WithinSetting(c, tr[i])
    ensures Get(tr[n].counters, SpendKey(l, t)) <= l.amount
  {
    hide SpendKey;
    OvershootBound(c, tr, n, l, t);
  }
}
