/**
 * What the two budget checks make of the same request: PreCheckBudget decides before forwarding,
 * checkBudget decides again when the usage is booked, on other rows and other amounts. A request
 * that passes the first and fails the second is answered, and its usage is never acknowledged.
 */
module StuckUsage {
  import opened Basics
  import opened Sums
  import opened Calendar
  import opened RedisKeys
  import opened UsagePipeline
  import opened BudgetOvershoot
  import opened UsageWorker
  import opened BudgetCheck
  import opened PipelineWitnesses

  // ---------------------------------------------------------------- a message that no delivery gets through

  /** A delivery of the message waits in its checks, before limit l, or has stopped. */
  ghost predicate HeldUp(c: Setting, e: Event, l: BlockLimit, t: Task) {
    && t.event == e
    && (t.live ==> t.stage == Checking && t.checked <= |LimitsFor(c.limits, e)| && l !in LimitsFor(c.limits, e)[..t.checked])
  }

  /** Limit l stops message m now, and its counter is one that checks read. */
  ghost predicate Stuck(c: Setting, s: State, m: nat, l: BlockLimit) {
    && m < |s.stream| && m !in s.acked
    && var e := s.stream[m];
    && e.catalogued && l in LimitsFor(c.limits, e)
    && (l.scope == Account ==> SpendKey(l, e.time) in s.counters)
    && Get(s.counters, SpendKey(l, e.time)) + e.cost > l.amount
    && (forall i :: 0 <= i < |s.tasks| && s.tasks[i].msg == m ==> HeldUp(c, e, l, s.tasks[i]))
    && (forall i :: 0 <= i < |s.tasks| ==> s.tasks[i].event.cost >= 0)
  }

  lemma CheckHolds(c: Setting, s: State, m: nat, l: BlockLimit, i: nat)
    requires Stuck(c, s, m, l) && Enabled(c.limits, s, CheckOne(i)) && s.tasks[i].msg == m
    ensures HeldUp(c, s.stream[m], l, Apply(c.limits, s, CheckOne(i)).tasks[i])
  {
    hide LimitsFor, SpendKey, DbRow;
    var t := s.tasks[i];
    var ls := LimitsFor(c.limits, t.event);
    assert HeldUp(c, s.stream[m], l, t);
    assert ls[..t.checked + 1] == ls[..t.checked] + [ls[t.checked]];
  }

  /** The moved delivery is still held up, if it is one of message m. */
  lemma MovedHolds(c: Setting, s: State, m: nat, l: BlockLimit, a: Action)
    requires Stuck(c, s, m, l) && Enabled(c.limits, s, a) && !a.Publish? && !a.Deliver? && s.tasks[a.i].msg == m
    ensures HeldUp(c, s.stream[m], l, Apply(c.limits, s, a).tasks[a.i]) && !a.Ack?
  {
    hide LimitsFor, KeysFor, SpendKey, Get, IncrBy, Spend;
    var ls := LimitsFor(c.limits, s.stream[m]);
    assert ls[..|ls|] == ls && HeldUp(c, s.stream[m], l, s.tasks[a.i]);
    if a.CheckOne? {
      CheckHolds(c, s, m, l, a.i);
    }
  }

  /** Counters only grow, and stay once they are there. */
  lemma CountersGrow(c: Setting, s: State, a: Action, k: BudgetKey)
    requires Enabled(c.limits, s, a) && forall i :: 0 <= i < |s.tasks| ==> s.tasks[i].event.cost >= 0
    ensures Get(Apply(c.limits, s, a).counters, k) >= Get(s.counters, k)
    ensures k in s.counters ==> k in Apply(c.limits, s, a).counters
  {
    hide LimitsFor, KeysFor, Spend;
  }

  /** The message stays in the stream, and no step acknowledges it. */
  lemma MessageStays(c: Setting, s: State, a: Action, m: nat, l: BlockLimit)
    requires Stuck(c, s, m, l) && Enabled(c.limits, s, a)
    ensures var s' := Apply(c.limits, s, a); m < |s'.stream| && s'.stream[m] == s.stream[m] && m !in s'.acked
  {
    hide LimitsFor, KeysFor, Spend, SpendKey, Get, IncrBy, HeldUp, InLedger, InLog;
    if a.Ack? && s.tasks[a.i].msg == m { MovedHolds(c, s, m, l, a); }
  }

  /** Every delivery of the message is held up after a step as it was before. */
  lemma DeliveriesHeldUp(c: Setting, s: State, a: Action, m: nat, l: BlockLimit, j: nat)
    requires Stuck(c, s, m, l) && Enabled(c.limits, s, a) && j < |Apply(c.limits, s, a).tasks|
    requires forall e :: e in s.stream ==> e.cost >= 0
    ensures var t := Apply(c.limits, s, a).tasks[j];
            t.event.cost >= 0 && (t.msg == m ==> HeldUp(c, s.stream[m], l, t))
  {
    hide LimitsFor, KeysFor, Spend, SpendKey, Get, IncrBy, HeldUp, InLedger, InLog;
    if a.Deliver? && j == |s.tasks| {
      StartsHeldUp(c, a.msg, s.stream[a.msg], l);
      assert s.stream[a.msg] in s.stream;
    } else if !a.Publish? && !a.Deliver? && j == a.i {
      if s.tasks[j].msg == m { MovedHolds(c, s, m, l, a); }
    } else {
      assert Apply(c.limits, s, a).tasks[j] == s.tasks[j];
    }
  }

  lemma StuckStays(c: Setting, s: State, s': State, m: nat, l: BlockLimit)
    requires Stuck(c, s, m, l) && Next(c.limits, s, s') && WithinSetting(c, s')
    ensures Stuck(c, s', m, l)
  {
    hide LimitsFor, SpendKey, Get, InFlight, HeldUp, Apply, Enabled;
    var a :| Enabled(c.limits, s, a) && s' == Apply(c.limits, s, a);
    StreamCosts(c, s, a);
    CountersGrow(c, s, a, SpendKey(l, s.stream[m].time));
    MessageStays(c, s, a, m, l);
    forall j: nat | j < |s'.tasks| ensures s'.tasks[j].event.cost >= 0 && (s'.tasks[j].msg == m ==> HeldUp(c, s.stream[m], l, s'.tasks[j])) {
      DeliveriesHeldUp(c, s, a, m, l, j);
    }
  }

  lemma StreamCosts(c: Setting, s: State, a: Action)
    requires Enabled(c.limits, s, a) && WithinSetting(c, Apply(c.limits, s, a))
    ensures forall e :: e in s.stream ==> e.cost >= 0
  {
    hide LimitsFor, KeysFor, Spend, InFlight, IncrBy, InLedger, InLog;
    var s' := Apply(c.limits, s, a);
    assert forall i :: 0 <= i < |s.stream| ==> s'.stream[i] == s.stream[i];
    forall e | e in s.stream ensures e.cost >= 0 {
      var i :| 0 <= i < |s.stream| && s.stream[i] == e;
      assert s'.stream[i] in s'.stream;
    }
  }

  lemma StartsHeldUp(c: Setting, m: nat, e: Event, l: BlockLimit)
    ensures e.catalogued ==> HeldUp(c, e, l, Start(m, e))
  {
    hide LimitsFor;
  }

  lemma {:induction false} StuckForGood(c: Setting, tr: seq<State>, n: nat, m: nat, l: BlockLimit)
    requires n < |tr| && (forall i :: 0 <= i < |tr| - 1 ==> Next(c.limits, tr[i], tr[i + 1]))
    requires (forall i :: 0 <= i < |tr| ==> WithinSetting(c, tr[i])) && Stuck(c, tr[0], m, l)
    ensures Stuck(c, tr[n], m, l)
  {
    hide Stuck, Next, WithinSetting;
    if n > 0 {
      StuckForGood(c, tr, n - 1, m, l);
      StuckStays(c, tr[n - 1], tr[n], m, l);
    }
  }

  /** Message m is delivered or not, but nobody is working on it; deliveries carry their messages. */
  ghost predicate Idle(s: State, m: nat) {
    && m < |s.stream| && m !in s.acked
    && (forall i :: 0 <= i < |s.tasks| ==> s.tasks[i].msg < |s.stream| && s.tasks[i].event == s.stream[s.tasks[i].msg])
    && (forall i :: 0 <= i < |s.tasks| && s.tasks[i].msg == m ==> !s.tasks[i].live)
  }

  /** Redis has the counter of every account limit that concerns the event. */
  ghost predicate CountersThere(limits: seq<BlockLimit>, s: State, e: Event) {
    forall l :: l in limits && Concerns(l, e) && l.scope == Account ==> SpendKey(l, e.time) in s.counters
  }

  lemma ExceedsSticks(c: Setting, s: State, m: nat, l: BlockLimit)
    requires WithinSetting(c, s) && Idle(s, m) && CountersThere(c.limits, s, s.stream[m])
    requires s.stream[m].catalogued && l in c.limits && Exceeds(s, l, s.stream[m])
    ensures Stuck(c, s, m, l)
  {
    hide SpendKey, DbRow;
    LimitsForCorrect(c.limits, s.stream[m], l);
    hide LimitsFor;
    forall i | 0 <= i < |s.tasks| ensures s.tasks[i].event.cost >= 0 {
      assert s.tasks[i].event in s.stream;
    }
  }

  /**
   * A message can still be acknowledged, in some continuation of the run, if and only if no
   * blocking limit stops it now: spend only grows, so what stops it once stops it for good.
   */
  lemma AcknowledgeableIff(c: Setting, s: State, m: nat)
    requires Room(c, s) && Idle(s, m) && CountersThere(c.limits, s, s.stream[m])
    ensures (exists s' :: Leads(c, s, s') && m in s'.acked) <==> Allowed(c.limits, s, s.stream[m])
  {
    hide WithinSetting, Exceeds, CountersThere;
    var e := s.stream[m];
    if Allowed(c.limits, s, e) {
      MayDeliver(c, s, m);
      var t := ProcessIsRun(c, s, m);
      var s' := Settled(c.limits, s, m).(tasks := s.tasks + [t]);
      assert Leads(c, s, s') && m in s'.acked;
    } else {
      var i :| 0 <= i < |c.limits| && Exceeds(s, c.limits[i], e);
      ExceedsSticks(c, s, m, c.limits[i]);
      forall s' | Leads(c, s, s') ensures m !in s'.acked {
        var tr :| Links(c, tr, s, s');
        StuckForGood(c, tr, |tr| - 1, m, c.limits[i]);
      }
    }
  }

  lemma MayDeliver(c: Setting, s: State, m: nat)
    requires Idle(s, m)
    ensures Enabled(c.limits, s, Deliver(m))
  {}

  // ---------------------------------------------------------------- why the counter has to be there

  /** Three events on the counter of an account limit, of which the first and the third do not fit together. */
  ghost predicate Trio(c: Setting, l: BlockLimit, u: Instant, e: Event, f: Event, g: Event) {
    && l.scope == Account && Bidders(c, l, SpendKey(l, u), [e, f, g]) && (l.provider == "" || e.provider == e.resolved)
    && e.cost + f.cost <= l.amount && e.cost + g.cost > l.amount && f.cost + g.cost <= l.amount
  }

  lemma TrioMembers(c: Setting, l: BlockLimit, u: Instant, e: Event, f: Event, g: Event)
    requires Trio(c, l, u, e, f, g)
    ensures forall x :: x == e || x == f || x == g ==>
              EventOk(c, x) && x.catalogued && x.cost >= 0 && SpendKey(l, u) in KeysFor(x) && LimitsFor(c.limits, x) == [l]
              && Concerns(l, x) && SpendKey(l, x.time) == SpendKey(l, u)
  {
    hide SpendKey, KeysFor, SettingOk, LimitsFor;
    assert e in [e, f, g] && f in [e, f, g] && g in [e, f, g];
    OneLimit(c, l, u, e);
    OneLimit(c, l, u, f);
    OneLimit(c, l, u, g);
  }

  /** A delivery whose one check passes writes its ledger row and stops. */
  lemma WritesAndStops(c: Setting, s1: State, e: Event) returns (s: State)
    requires Leads(c, INIT, s1) && Running(c, s1, 0) && s1.tasks == [Start(0, e)] && s1.ledger == [] && e.catalogued
    requires forall l :: l in LimitsFor(c.limits, e) ==> Spend(s1, l, e.time) + e.cost <= l.amount
    ensures Leads(c, INIT, s) && s == s1.(ledger := [RowOf(e)], tasks := s.tasks)
    ensures |s.tasks| == 1 && !s.tasks[0].live && s.tasks[0].msg == 0 && s.tasks[0].event == e
  {
    hide Leads, KeysFor, EventOk, LimitsFor, Spend;
    var t := Start(0, e);
    assert At(s1, 0, t) == s1;
    ChecksRun(c, INIT, s1, 0, t);
    var t1 := t.(checked := |LimitsFor(c.limits, e)|);
    var t2 := t1.(stage := Writing);
    assert Apply(c.limits, At(s1, 0, t1), EndChecks(0)) == At(s1, 0, t2);
    StepAt(c, INIT, s1, 0, t1, EndChecks(0), s1, t2);
    var s3, t3 := s1.(ledger := [RowOf(e)]), t2.(stage := Bumping, wrote := true);
    assert Apply(c.limits, At(s1, 0, t2), WriteLedger(0)) == At(s3, 0, t3);
    StepAt(c, INIT, s1, 0, t2, WriteLedger(0), s3, t3);
    var t4 := t3.(live := false);
    assert Apply(c.limits, At(s3, 0, t3), Stop(0)) == At(s3, 0, t4);
    StepAt(c, INIT, s3, 0, t3, Stop(0), s3, t4);
    s := At(s3, 0, t4);
  }

  /** A delivery writes its ledger row and stops before its first increment. */
  lemma RowThenStops(c: Setting, l: BlockLimit, u: Instant, e: Event, f: Event, g: Event) returns (s: State)
    requires Trio(c, l, u, e, f, g)
    ensures Leads(c, INIT, s) && s.stream == [e, f, g] && s.acked == {} && s.ledger == [RowOf(e)] && s.log == [] && s.counters == map[]
    ensures |s.tasks| == 1 && !s.tasks[0].live && s.tasks[0].msg == 0 && s.tasks[0].event == e
  {
    hide Leads, KeysFor, SpendKey, EventOk, SettingOk, LimitsFor, DbRow, Running;
    TrioMembers(c, l, u, e, f, g);
    var es, t := [e, f, g], Start(0, e);
    PublishAll(c, es);
    var s0 := INIT.(stream := es);
    WithinAtEnd(c, INIT, s0);
    OneFits(c);
    DeliverRun(c, INIT, s0, 0);
    var s1 := s0.(tasks := [] + [t]);
    assert s1.tasks == [t];
    SpendIsCounter(s1, l, e.time);
    NoCounter(SpendKey(l, e.time));
    s := WritesAndStops(c, s1, e);
  }

  /** Without the counter the check reads the row of the first event. */
  lemma ReadsTheRow(l: BlockLimit, s: State, e: Event, x: Event)
    requires s.ledger == [RowOf(e)] && s.counters == map[] && l.scope == Account && Concerns(l, e) && e.billed
    requires l.provider == "" || e.provider == e.resolved
    requires SpendKey(l, x.time) == SpendKey(l, e.time)
    ensures Spend(s, l, x.time) == e.cost
  {
    BucketIsPeriod(l.period, x.time, e.time);
    hide BucketOf, PeriodStart;
    assert s.ledger == [] + [RowOf(e)];
    SumAppend([], RowOf(e), DbRow(l, x.time));
  }

  /**
   * Where Redis has no counter yet, a message that is stopped may still get through: the check read
   * the ledger, and the first increment of another message puts a smaller counter in its place.
   */
  lemma FallbackUnsticks(c: Setting, l: BlockLimit, u: Instant, e: Event, f: Event, g: Event) returns (s: State, s': State)
    requires Trio(c, l, u, e, f, g)
    ensures Leads(c, INIT, s) && Room(c, s) && Idle(s, 2) && s.stream[2] == g && !Allowed(c.limits, s, g)
    ensures Leads(c, s, s') && 2 in s'.acked
  {
    hide Leads, KeysFor, SpendKey, EventOk, SettingOk, LimitsFor, Spend, BumpAll, Get;
    TrioMembers(c, l, u, e, f, g);
    s := RowThenStops(c, l, u, e, f, g);
    WithinAtEnd(c, INIT, s);
    OneFits(c);
    NobodyLive(s);
    assert e.billed by { BilledKeys(e, SpendKey(l, u)); }
    ReadsTheRow(l, s, e, f);
    ReadsTheRow(l, s, e, g);
    assert Exceeds(s, c.limits[0], g);
    var s1, t := PassesSecond(c, l, u, s, f);
    WithinAtEnd(c, s, s1);
    SpendIsCounter(s1, l, g.time);
    SumAppend(s.tasks, t, Busy(1));
    assert Allowed(c.limits, s1, g);
    var t' := ProcessIsRun(c, s1, 2);
    s' := Settled(c.limits, s1, 2).(tasks := s1.tasks + [t']);
    LeadsOn(c, s, s1, s');
  }

  lemma NobodyLive(s: State)
    requires |s.tasks| == 1 && !s.tasks[0].live
    ensures InFlight(s) == 0
  {
    assert s.tasks == [] + [s.tasks[0]];
    SumAppend([], s.tasks[0], Busy(1));
  }

  lemma BilledKeys(e: Event, k: BudgetKey)
    requires k in KeysFor(e)
    ensures e.billed
  {}

  /** The second message is handled, and the counter shows its cost alone. */
  lemma PassesSecond(c: Setting, l: BlockLimit, u: Instant, s: State, f: Event) returns (s1: State, t: Task)
    requires Room(c, s) && |s.stream| == 3 && s.stream[1] == f && s.acked == {} && s.counters == map[]
    requires c.limits == [l] && f.catalogued && Spend(s, l, f.time) + f.cost <= l.amount && SpendKey(l, u) in KeysFor(f)
    ensures Leads(c, s, s1) && !t.live && s1.tasks == s.tasks + [t] && s1.stream == s.stream && s1.acked == {1}
    ensures SpendKey(l, u) in s1.counters && Get(s1.counters, SpendKey(l, u)) == f.cost
  {
    hide Leads, KeysFor, SpendKey, EventOk, LimitsFor, Spend, BumpAll, Get, Entered, Logged;
    assert Allowed(c.limits, s, f);
    t := ProcessIsRun(c, s, 1);
    s1 := Settled(c.limits, s, 1).(tasks := s.tasks + [t]);
    KeysDistinct(f);
    NoCounter(SpendKey(l, u));
    BumpAllAdds(map[], KeysFor(f), f.cost, SpendKey(l, u));
    BumpAllHas(map[], KeysFor(f), f.cost, SpendKey(l, u));
  }

  // ---------------------------------------------------------------- the rows of the two checks

  /** checkBudget's query: action "block", account or key scope, enabled or not. */
  predicate Enforces(l: BudgetLimit) {
    l.action == "block" && (l.scopeType == "account" || l.scopeType == "api_key")
  }

  function Enforced(rows: seq<BudgetLimit>): seq<BlockLimit> {
    if rows == [] then []
    else
      var l := rows[|rows| - 1];
      Enforced(rows[..|rows| - 1]) + (if Enforces(l) then [BudgetOf(l)] else [])
  }

  lemma {:induction false} EnforcedCorrect(rows: seq<BudgetLimit>, b: BlockLimit)
    ensures b in Enforced(rows) <==> exists i :: 0 <= i < |rows| && Enforces(rows[i]) && BudgetOf(rows[i]) == b
  {
    if rows != [] {
      var n := |rows| - 1;
      EnforcedCorrect(rows[..n], b);
      assert forall i :: 0 <= i < n ==> rows[..n][i] == rows[i];
    }
  }

  /** The request that the usage event belongs to, in the same budget periods. */
  ghost predicate SameRequest(q: Query, e: Event) {
    && q.tenant == e.tenant && q.keyId == e.keyId && q.provider == e.provider
    && forall p :: BucketOf(p, q.now) == BucketOf(p, e.time)
  }

  lemma SpendInBucket(s: State, b: BlockLimit, t: Instant, u: Instant)
    requires BucketOf(b.period, t) == BucketOf(b.period, u)
    ensures Spend(s, b, t) == Spend(s, b, u)
  {
    SameBucketIffSameStart(b.period, t, u);
    hide BucketOf, PeriodStart;
    assert Sum(s.ledger, DbRow(b, t)) == Sum(s.ledger, DbRow(b, u)) by {
      SumMonotone(s.ledger, DbRow(b, t), DbRow(b, u));
      SumMonotone(s.ledger, DbRow(b, u), DbRow(b, t));
    }
  }

  /**
   * A row that lets the request pass in s0 and stops its usage in s: it blocks and concerns the
   * request, the cost takes the spend past it, and either it is switched off, which only the first
   * check honours, or spend and reservations had not reached it.
   */
  ghost predicate SlipsThrough(s0: State, s: State, q: Query, l: BudgetLimit, cost: int) {
    && l.action == "block" && InScope(q, l) && (l.provider == "" || l.provider == q.provider)
    && Spend(s, BudgetOf(l), q.now) + cost > l.amount
    && (!l.enabled || Spend(s0, BudgetOf(l), q.now) + Reserved(s0, q, l) < l.amount)
  }

  /** The worker stops on the rows that slip through, and on rows that would have blocked. */
  lemma StopsIff(s0: State, s: State, q: Query, l: BudgetLimit, e: Event)
    requires SameRequest(q, e)
    ensures Enforces(l) && Exceeds(s, BudgetOf(l), e) <==>
            || SlipsThrough(s0, s, q, l, e.cost)
            || (Blocks(s0, q, l) && l.action == "block" && Spend(s, BudgetOf(l), q.now) + e.cost > l.amount)
  {
    SpendInBucket(s, BudgetOf(l), q.now, e.time);
    hide Spend, Reserved;
  }

  lemma AllowedIff(rows: seq<BudgetLimit>, s0: State, s: State, q: Query, e: Event)
    requires SameRequest(q, e) && Quiet(s0, q, rows, |rows|)
    ensures Allowed(Enforced(rows), s, e) <==> !e.catalogued || forall i :: 0 <= i < |rows| ==> !SlipsThrough(s0, s, q, rows[i], e.cost)
  {
    hide Exceeds, Spend, Reserved, Enforced, SlipsThrough, SameRequest, Enforces, Used, Applies;
    var ls := Enforced(rows);
    if i :| 0 <= i < |rows| && SlipsThrough(s0, s, q, rows[i], e.cost) {
      StopsIff(s0, s, q, rows[i], e);
      EnforcedCorrect(rows, BudgetOf(rows[i]));
      assert BudgetOf(rows[i]) in ls;
    }
    if j :| 0 <= j < |ls| && Exceeds(s, ls[j], e) {
      EnforcedCorrect(rows, ls[j]);
      var i :| 0 <= i < |rows| && Enforces(rows[i]) && BudgetOf(rows[i]) == ls[j];
      StopsIff(s0, s, q, rows[i], e);
      assert !Blocks(s0, q, rows[i]);
    }
  }

  /**
   * A request is forwarded in s0 and its usage is booked in a later s. Exactly the rows that slip
   * through between the two keep it from ever being acknowledged; with none it can be.
   */
  lemma ForwardedNeverAcknowledgedIff(c: Setting, rows: seq<BudgetLimit>, s0: State, s: State, q: Query, m: nat)
    requires Quiet(s0, q, rows, |rows|) && Leads(c, s0, s)
    requires c.limits == Enforced(rows) && Room(c, s) && Idle(s, m) && CountersThere(c.limits, s, s.stream[m]) && SameRequest(q, s.stream[m])
    ensures !(exists s' :: Leads(c, s, s') && m in s'.acked) <==>
            s.stream[m].catalogued && exists i :: 0 <= i < |rows| && SlipsThrough(s0, s, q, rows[i], s.stream[m].cost)
  {
    hide Leads, Room, CountersThere, SameRequest, Quiet, SlipsThrough, Allowed;
    AcknowledgeableIff(c, s, m);
    AllowedIff(rows, s0, s, q, s.stream[m]);
  }

  // ---------------------------------------------------------------- decided when the request is forwarded

  ghost predicate CostsCount(s: State) {
    forall i :: 0 <= i < |s.tasks| ==> s.tasks[i].event.cost >= 0
  }

  lemma CostsStillCount(c: Setting, s: State, a: Action)
    requires CostsCount(s) && Enabled(c.limits, s, a) && WithinSetting(c, s)
    ensures CostsCount(Apply(c.limits, s, a))
  {
    hide LimitsFor, KeysFor, Spend, InFlight, IncrBy, InLedger, InLog;
    assert a.Deliver? ==> s.stream[a.msg] in s.stream;
  }

  lemma {:induction false} CountersGrowAlong(c: Setting, tr: seq<State>, n: nat, k: BudgetKey)
    requires n < |tr| && (forall i :: 0 <= i < |tr| - 1 ==> Next(c.limits, tr[i], tr[i + 1]))
    requires (forall i :: 0 <= i < |tr| ==> WithinSetting(c, tr[i])) && CostsCount(tr[0])
    ensures CostsCount(tr[n]) && Get(tr[n].counters, k) >= Get(tr[0].counters, k) && (k in tr[0].counters ==> k in tr[n].counters)
  {
    hide WithinSetting, Get, Apply, Enabled;
    if n > 0 {
      CountersGrowAlong(c, tr, n - 1, k);
      assert Next(c.limits, tr[n - 1], tr[n]);
      var a :| Enabled(c.limits, tr[n - 1], a) && tr[n] == Apply(c.limits, tr[n - 1], a);
      CountersGrow(c, tr[n - 1], a, k);
      CostsStillCount(c, tr[n - 1], a);
    }
  }

  lemma SpendGrows(c: Setting, s0: State, s: State, b: BlockLimit, t: Instant)
    requires Leads(c, s0, s) && CostsCount(s0) && (b.scope == Account ==> SpendKey(b, t) in s0.counters)
    ensures Spend(s, b, t) >= Spend(s0, b, t)
  {
    hide WithinSetting, Next, CostsCount, SpendKey, DbRow;
    var tr :| Links(c, tr, s0, s);
    CountersGrowAlong(c, tr, |tr| - 1, SpendKey(b, t));
  }

  /**
   * PreCheckBudget looks at reservations and not at the cost: a row that the cost alone would take
   * past its amount when the request is forwarded slips through whatever is booked in between.
   */
  lemma SlipsFromTheStart(c: Setting, s0: State, s: State, q: Query, l: BudgetLimit, cost: int)
    requires Leads(c, s0, s) && CostsCount(s0) && SlipsThrough(s0, s0, q, l, cost)
    requires l.scopeType == "account" ==> SpendKey(BudgetOf(l), q.now) in s0.counters
    ensures SlipsThrough(s0, s, q, l, cost)
  {
    hide Leads, CostsCount, SpendKey, Spend, Reserved;
    SpendGrows(c, s0, s, BudgetOf(l), q.now);
  }
}
