/**
 * The worker and the engine as one thread runs them: the loops of checkBudget, dbBudgetSpend,
 * incrementBudget, writeLedger and process over a store changed in place, and the proof that
 * handling a message is a run of the concurrent machine of UsagePipeline.
 */
module UsageWorker {
  import opened Sums
  import opened Calendar
  import opened RedisKeys
  import opened UsagePipeline
  import opened BudgetOvershoot

  // ---------------------------------------------------------------- what handling a message does

  ghost predicate Exceeds(s: State, l: BlockLimit, e: Event) {
    Concerns(l, e) && Spend(s, l, e.time) + e.cost > l.amount
  }

  /** No blocking limit stands in the way. */
  ghost predicate Allowed(limits: seq<BlockLimit>, s: State, e: Event) {
    !e.catalogued || forall i :: 0 <= i < |limits| ==> !Exceeds(s, limits[i], e)
  }

  function BumpAll(counters: map<BudgetKey, int>, ks: seq<BudgetKey>, cost: int): map<BudgetKey, int> {
    if ks == [] then counters else IncrBy(BumpAll(counters, ks[..|ks| - 1], cost), ks[|ks| - 1], cost)
  }

  function Entered(s: State, e: Event): seq<LedgerRow> {
    if InLedger(s, e.id) then s.ledger else s.ledger + [RowOf(e)]
  }

  function Logged(s: State, e: Event): seq<LogRow> {
    if InLog(s, e.id) then s.log else s.log + [LogOf(e)]
  }

  /** The books after a message was handled from start to end. */
  ghost function Handled(limits: seq<BlockLimit>, s: State, e: Event): State {
    if !Allowed(limits, s, e) then s
    else if !e.catalogued then s.(log := Logged(s, e))
    else s.(ledger := Entered(s, e), counters := BumpAll(s.counters, KeysFor(e), e.cost), log := Logged(s, e))
  }

  /** Each of an event's counters moves by exactly its cost, and no other counter moves. */
  lemma {:induction false} BumpAllAdds(counters: map<BudgetKey, int>, ks: seq<BudgetKey>, cost: int, k: BudgetKey)
    requires Distinct(ks)
    ensures Get(BumpAll(counters, ks, cost), k) == Get(counters, k) + (if k in ks then cost else 0)
  {
    if ks != [] {
      var n := |ks| - 1;
      BumpAllAdds(counters, ks[..n], cost, k);
      assert ks == ks[..n] + [ks[n]];
    }
  }

  lemma {:induction false} BumpMore(counters: map<BudgetKey, int>, ks: seq<BudgetKey>, js: seq<BudgetKey>, cost: int)
    ensures BumpAll(counters, ks + js, cost) == BumpAll(BumpAll(counters, ks, cost), js, cost)
  {
    if js == [] {
      assert ks + js == ks;
    } else {
      var n := |js| - 1;
      BumpMore(counters, ks, js[..n], cost);
      assert (ks + js)[..|ks| + n] == ks + js[..n];
    }
  }

  lemma BumpOne(counters: map<BudgetKey, int>, ks: seq<BudgetKey>, k: BudgetKey, cost: int)
    ensures BumpAll(counters, ks + [k], cost) == IncrBy(BumpAll(counters, ks, cost), k, cost)
  {
    assert (ks + [k])[..|ks|] == ks;
  }

  const PERIODS := [Monthly, Weekly, Daily]

  class Worker {
    const limits: seq<BlockLimit>
    var ledger: seq<LedgerRow>
    var log: seq<LogRow>
    var counters: map<BudgetKey, int>

    constructor (limits: seq<BlockLimit>)
      ensures this.limits == limits && Books() == INIT
    {
      this.limits := limits;
      ledger, log, counters := [], [], map[];
    }

    ghost function Books(): State
      reads this
    {
      State([], {}, ledger, log, counters, [])
    }

    /** dbBudgetSpend */
    method DbBudgetSpend(l: BlockLimit, t: Instant) returns (total: int)
      ensures total == Sum(ledger, DbRow(l, t))
    {
      hide PeriodStart;
      var start := PeriodStart(l.period, t);
      total := 0;
      for j := 0 to |ledger|
        invariant total == Sum(ledger[..j], DbRow(l, t))
      {
        var r := ledger[j];
        assert ledger[..j + 1] == ledger[..j] + [r];
        SumAppend(ledger[..j], r, DbRow(l, t));
        if r.tenant == l.tenant && r.time >= start && r.billed && (l.provider == "" || r.provider == l.provider) {
          total := total + r.cost;
        }
      }
      assert ledger[..|ledger|] == ledger;
    }

    /** getSpend */
    method GetSpend(l: BlockLimit, t: Instant) returns (spend: int)
      ensures spend == Spend(Books(), l, t)
    {
      hide SpendKey, DbRow;
      var k := SpendKey(l, t);
      if k in counters {
        return counters[k];
      }
      if l.scope == Account {
        spend := DbBudgetSpend(l, t);
      } else {
        spend := 0;
      }
    }

    /** checkBudget: the index of the first limit exceeded, or the number of limits. */
    method CheckBudget(e: Event) returns (first: nat)
      ensures first <= |limits|
      ensures forall i :: 0 <= i < first ==> !Exceeds(Books(), limits[i], e)
      ensures first < |limits| ==> Exceeds(Books(), limits[first], e)
    {
      hide Spend;
      for i := 0 to |limits|
        invariant forall j :: 0 <= j < i ==> !Exceeds(Books(), limits[j], e)
      {
        if Concerns(limits[i], e) {
          var spend := GetSpend(limits[i], e.time);
          if spend + e.cost > limits[i].amount {
            return i;
          }
        }
      }
      return |limits|;
    }

    /** writeLedger: a duplicate idempotency key is not an error, and leaves no second row. */
    method WriteLedger(e: Event)
      modifies this`ledger
      ensures ledger == Entered(old(Books()), e)
      ensures InLedger(Books(), e.id)
    {
      if !exists j :: 0 <= j < |ledger| && ledger[j].id == e.id {
        ledger := ledger + [RowOf(e)];
        assert ledger[|ledger| - 1].id == e.id;
      }
    }

    /** The up to four counters of one period. */
    method IncrementPeriod(e: Event, p: Period)
      modifies this`counters
      ensures counters == BumpAll(old(counters), PeriodKeys(e, p), e.cost)
    {
      hide BucketOf, IncrBy;
      var b := BucketOf(p, e.time);
      ghost var c, ks := counters, [AccountSpend(e.tenant, b)];
      assert [] + ks == ks;
      BumpOne(c, [], AccountSpend(e.tenant, b), e.cost);
      counters := IncrBy(counters, AccountSpend(e.tenant, b), e.cost);
      if e.provider != "" {
        BumpOne(c, ks, ProviderSpend(e.tenant, e.provider, b), e.cost);
        ks := ks + [ProviderSpend(e.tenant, e.provider, b)];
        counters := IncrBy(counters, ProviderSpend(e.tenant, e.provider, b), e.cost);
      }
      if e.keyId != "" {
        BumpOne(c, ks, KeySpend(e.keyId, b), e.cost);
        ks := ks + [KeySpend(e.keyId, b)];
        counters := IncrBy(counters, KeySpend(e.keyId, b), e.cost);
        if e.provider != "" {
          BumpOne(c, ks, KeyProviderSpend(e.keyId, e.provider, b), e.cost);
          ks := ks + [KeyProviderSpend(e.keyId, e.provider, b)];
          counters := IncrBy(counters, KeyProviderSpend(e.keyId, e.provider, b), e.cost);
        }
      }
      assert ks == PeriodKeys(e, p);
    }

    /** incrementBudget */
    method IncrementBudget(e: Event)
      modifies this`counters
      ensures counters == BumpAll(old(counters), KeysFor(e), e.cost)
      ensures forall k :: Get(counters, k) == Get(old(counters), k) + (if k in KeysFor(e) then e.cost else 0)
    {
      hide PeriodKeys, BumpAll;
      KeysDistinct(e);
      forall k ensures Get(BumpAll(counters, KeysFor(e), e.cost), k) == Get(counters, k) + (if k in KeysFor(e) then e.cost else 0) {
        BumpAllAdds(counters, KeysFor(e), e.cost, k);
      }
      BumpNone(counters, e.cost);
      if !e.billed {
        return;
      }
      ghost var c := counters;
      for i := 0 to 3
        invariant counters == BumpAll(c, FirstPeriods(e, i), e.cost)
      {
        IncrementPeriod(e, PERIODS[i]);
        BumpMore(c, FirstPeriods(e, i), PeriodKeys(e, PERIODS[i]), e.cost);
      }
      AllPeriods(e);
    }

    /** process: true when the message is to be acknowledged. */
    method Process(e: Event) returns (ack: bool)
      modifies this`ledger, this`log, this`counters
      ensures ack <==> Allowed(limits, old(Books()), e)
      ensures Books() == Handled(limits, old(Books()), e)
    {
      hide Exceeds, KeysFor, BumpAll, Distinct;
      ghost var s := Books();
      if e.catalogued {
        var first := CheckBudget(e);
        if first < |limits| {
          return false;
        }
        WriteLedger(e);
        IncrementBudget(e);
      }
      if !exists j :: 0 <= j < |log| && log[j].id == e.id {
        log := log + [LogOf(e)];
      }
      return true;
    }
  }

  lemma BumpNone(counters: map<BudgetKey, int>, cost: int)
    ensures BumpAll(counters, [], cost) == counters
  {}

  function FirstPeriods(e: Event, n: nat): seq<BudgetKey>
    requires n <= 3
  {
    if n == 0 then [] else FirstPeriods(e, n - 1) + PeriodKeys(e, PERIODS[n - 1])
  }

  lemma AllPeriods(e: Event)
    requires e.billed
    ensures FirstPeriods(e, 3) == KeysFor(e)
  {
    hide PeriodKeys;
    assert FirstPeriods(e, 1) == PeriodKeys(e, Monthly);
    assert FirstPeriods(e, 2) == PeriodKeys(e, Monthly) + PeriodKeys(e, Weekly);
  }

  // ---------------------------------------------------------------- a handled message is a run

  /** `tr` is a run of the machine from s to s' within the setting. */
  ghost predicate Links(c: Setting, tr: seq<State>, s: State, s': State) {
    && tr != [] && tr[0] == s && tr[|tr| - 1] == s'
    && (forall i :: 0 <= i < |tr| - 1 ==> Next(c.limits, tr[i], tr[i + 1]))
    && (forall i :: 0 <= i < |tr| ==> WithinSetting(c, tr[i]))
  }

  ghost predicate Leads(c: Setting, s: State, s': State) {
    exists tr :: Links(c, tr, s, s')
  }

  lemma LeadsNowhere(c: Setting, s: State)
    requires WithinSetting(c, s)
    ensures Leads(c, s, s)
  {
    hide WithinSetting;
    assert Links(c, [s], s, s);
  }

  lemma WithinAtEnd(c: Setting, s: State, s': State)
    requires Leads(c, s, s')
    ensures WithinSetting(c, s')
  {}

  lemma LeadsStep(c: Setting, s: State, s': State, a: Action)
    requires Leads(c, s, s') && Enabled(c.limits, s', a) && WithinSetting(c, Apply(c.limits, s', a))
    ensures Leads(c, s, Apply(c.limits, s', a))
  {
    hide WithinSetting, Apply, Enabled;
    var next := Apply(c.limits, s', a);
    var tr :| Links(c, tr, s, s');
    assert Next(c.limits, s', next);
    assert Links(c, tr + [next], s, next);
  }

  lemma LeadsOn(c: Setting, s: State, s': State, s'': State)
    requires Leads(c, s, s') && Leads(c, s', s'')
    ensures Leads(c, s, s'')
  {
    hide WithinSetting, Next;
    var a :| Links(c, a, s, s');
    var b :| Links(c, b, s', s'');
    var tr := a + b[1..];
    forall i | 0 <= i < |tr| - 1 ensures Next(c.limits, tr[i], tr[i + 1]) {
      if i >= |a| - 1 {
        assert tr[i] == b[i - |a| + 1] && tr[i + 1] == b[i - |a| + 2];
      }
    }
    assert Links(c, tr, s, s'');
  }

  /** State s with delivery i in another state. */
  function At(s: State, i: nat, t: Task): State
    requires i < |s.tasks|
  {
    s.(tasks := s.tasks[i := t])
  }

  /** The setting allows delivery i to be processing. */
  ghost predicate Running(c: Setting, s: State, i: nat) {
    WithinSetting(c, s) && i < |s.tasks| && InFlight(s) - Busy(1)(s.tasks[i]) < c.inFlight
  }

  lemma AtStaysWithin(c: Setting, s: State, i: nat, t: Task)
    requires Running(c, s, i)
    ensures WithinSetting(c, At(s, i, t))
  {
    hide EventOk;
    SumUpdate(s.tasks, i, t, Busy(1));
  }

  /** One step of delivery i. */
  lemma StepAt(c: Setting, s0: State, s: State, i: nat, t: Task, a: Action, s': State, t': Task)
    requires i < |s.tasks| && Leads(c, s0, At(s, i, t)) && Running(c, s', i)
    requires Enabled(c.limits, At(s, i, t), a) && Apply(c.limits, At(s, i, t), a) == At(s', i, t')
    ensures Leads(c, s0, At(s', i, t'))
  {
    hide Leads, At, WithinSetting, Enabled, Apply;
    AtStaysWithin(c, s', i, t');
    LeadsStep(c, s0, At(s, i, t), a);
  }

  /** The checks that are left either all pass or stop the delivery. */
  lemma {:induction false} ChecksRun(c: Setting, s0: State, s: State, i: nat, t: Task)
    requires Running(c, s, i) && Leads(c, s0, At(s, i, t)) && t.live && t.stage == Checking
    requires t.checked <= |LimitsFor(c.limits, t.event)|
    ensures var ls := LimitsFor(c.limits, t.event);
            if forall j :: t.checked <= j < |ls| ==> Spend(s, ls[j], t.event.time) + t.event.cost <= ls[j].amount
            then Leads(c, s0, At(s, i, t.(checked := |ls|)))
            else exists n :: Leads(c, s0, At(s, i, t.(checked := n, live := false)))
    decreases |LimitsFor(c.limits, t.event)| - t.checked
  {
    hide Leads, WithinSetting, LimitsFor, SpendKey;
    var ls := LimitsFor(c.limits, t.event);
    if t.checked < |ls| {
      var l := ls[t.checked];
      var m := At(s, i, t);
      assert Spend(m, l, t.event.time) == Spend(s, l, t.event.time);
      if Spend(s, l, t.event.time) + t.event.cost > l.amount {
        var t' := t.(live := false);
        assert Apply(c.limits, m, CheckOne(i)) == At(s, i, t');
        StepAt(c, s0, s, i, t, CheckOne(i), s, t');
        assert t' == t.(checked := t.checked, live := false);
      } else {
        var t' := t.(checked := t.checked + 1);
        assert Apply(c.limits, m, CheckOne(i)) == At(s, i, t');
        StepAt(c, s0, s, i, t, CheckOne(i), s, t');
        ChecksRun(c, s0, s, i, t');
      }
    } else {
      assert t == t.(checked := |ls|);
    }
  }

  lemma {:induction false} BumpsRun(c: Setting, s0: State, s: State, i: nat, t: Task, n: nat)
    requires Running(c, s, i) && Leads(c, s0, At(s, i, t)) && t.live && t.stage == Bumping && t.bumped == 0
    requires n <= |KeysFor(t.event)|
    ensures Leads(c, s0, At(s.(counters := BumpAll(s.counters, KeysFor(t.event)[..n], t.event.cost)), i, t.(bumped := n)))
  {
    hide Leads, KeysFor, EventOk;
    var ks := KeysFor(t.event);
    if n == 0 {
      assert ks[..0] == [] && s.(counters := s.counters) == s && t.(bumped := 0) == t;
    } else {
      BumpsRun(c, s0, s, i, t, n - 1);
      var before := s.(counters := BumpAll(s.counters, ks[..n - 1], t.event.cost));
      var after := s.(counters := BumpAll(s.counters, ks[..n], t.event.cost));
      assert ks[..n] == ks[..n - 1] + [ks[n - 1]];
      BumpOne(s.counters, ks[..n - 1], ks[n - 1], t.event.cost);
      var t' := t.(bumped := n - 1);
      assert Apply(c.limits, At(before, i, t'), Bump(i)) == At(after, i, t.(bumped := n));
      StepAt(c, s0, before, i, t', Bump(i), after, t.(bumped := n));
    }
  }

  lemma LogAckRun(c: Setting, s0: State, s: State, i: nat, t: Task)
    requires Running(c, s, i) && Leads(c, s0, At(s, i, t)) && t.live && t.stage == Logging
    ensures Leads(c, s0, At(s.(log := Logged(s, t.event), acked := s.acked + {t.msg}), i, t.(stage := Done, live := false)))
  {
    hide Leads, EventOk, LimitsFor, KeysFor;
    var s1, t1 := s.(log := Logged(s, t.event)), t.(stage := Acking);
    assert Apply(c.limits, At(s, i, t), WriteLog(i)) == At(s1, i, t1);
    StepAt(c, s0, s, i, t, WriteLog(i), s1, t1);
    var s2, t2 := s1.(acked := s.acked + {t.msg}), t.(stage := Done, live := false);
    assert Apply(c.limits, At(s1, i, t1), Ack(i)) == At(s2, i, t2);
    StepAt(c, s0, s1, i, t1, Ack(i), s2, t2);
  }

  /** The books after the ledger write and the increments. */
  function Booked(s: State, e: Event): State {
    s.(ledger := Entered(s, e), counters := BumpAll(s.counters, KeysFor(e), e.cost))
  }

  /** From the last check to the last counter. */
  lemma BookRun(c: Setting, s0: State, s: State, i: nat, t: Task) returns (t': Task)
    requires Running(c, s, i) && Leads(c, s0, At(s, i, t)) && t.live && t.stage == Checking && t.bumped == 0
    requires t.checked == |LimitsFor(c.limits, t.event)|
    ensures t'.live && t'.stage == Logging && t'.event == t.event && t'.msg == t.msg
    ensures Leads(c, s0, At(Booked(s, t.event), i, t'))
  {
    hide Leads, EventOk, LimitsFor, KeysFor, BumpAll;
    var t1 := t.(stage := Writing);
    assert Apply(c.limits, At(s, i, t), EndChecks(i)) == At(s, i, t1);
    StepAt(c, s0, s, i, t, EndChecks(i), s, t1);
    var s2, t2 := s.(ledger := Entered(s, t.event)), t.(stage := Bumping, wrote := t.wrote || !InLedger(s, t.event.id));
    assert Apply(c.limits, At(s, i, t1), WriteLedger(i)) == At(s2, i, t2);
    StepAt(c, s0, s, i, t1, WriteLedger(i), s2, t2);
    var ks := KeysFor(t.event);
    assert ks[..|ks|] == ks;
    BumpsRun(c, s0, s2, i, t2, |ks|);
    var s3, t3 := Booked(s, t.event), t2.(bumped := |ks|);
    t' := t3.(stage := Logging);
    assert Apply(c.limits, At(s3, i, t3), EndBumps(i)) == At(s3, i, t');
    StepAt(c, s0, s3, i, t3, EndBumps(i), s3, t');
  }

  lemma AllowedMeans(limits: seq<BlockLimit>, ls: seq<BlockLimit>, s: State, e: Event)
    requires e.catalogued && forall l :: l in ls <==> l in limits && Concerns(l, e)
    ensures Allowed(limits, s, e) <==> forall j :: 0 <= j < |ls| ==> Spend(s, ls[j], e.time) + e.cost <= ls[j].amount
  {
    hide Spend;
    if Allowed(limits, s, e) {
      assert forall l :: l in limits ==> !Exceeds(s, l, e);
      assert forall j :: 0 <= j < |ls| ==> ls[j] in ls && !Exceeds(s, ls[j], e);
    } else {
      var i :| 0 <= i < |limits| && Exceeds(s, limits[i], e);
      assert limits[i] in ls;
    }
  }

  /** The books after message m was handled, with its acknowledgement. */
  ghost function Settled(limits: seq<BlockLimit>, s: State, m: nat): State
    requires m < |s.stream|
  {
    var e := s.stream[m];
    Handled(limits, s, e).(acked := if Allowed(limits, s, e) then s.acked + {m} else s.acked)
  }

  /** There is room for one more delivery. */
  ghost predicate Room(c: Setting, s: State) {
    WithinSetting(c, s) && InFlight(s) + 1 <= c.inFlight
  }

  /** A delivery is taken up. */
  lemma DeliverRun(c: Setting, s0: State, s: State, m: nat)
    requires Leads(c, s0, s) && Room(c, s) && Enabled(c.limits, s, Deliver(m))
    ensures var t := Start(m, s.stream[m]);
            var s' := s.(tasks := s.tasks + [t]);
            Running(c, s', |s.tasks|) && At(s', |s.tasks|, t) == s' && Leads(c, s0, s')
  {
    hide Leads, EventOk;
    SumAppend(s.tasks, Start(m, s.stream[m]), Busy(1));
    LeadsStep(c, s0, s, Deliver(m));
  }

  /**
   * Handling a message from start to end is one of the machine's runs: deliver, check limit by
   * limit, write the ledger row, bump counter by counter, log, acknowledge.
   */
  lemma ProcessIsRun(c: Setting, s: State, m: nat) returns (t: Task)
    requires Room(c, s) && Enabled(c.limits, s, Deliver(m))
    ensures !t.live
    ensures Leads(c, s, Settled(c.limits, s, m).(tasks := s.tasks + [t]))
  {
    hide Leads, WithinSetting, LimitsFor, KeysFor, BumpAll, Allowed, Entered, Logged, Spend;
    var i, e := |s.tasks|, s.stream[m];
    t := Start(m, e);
    LeadsNowhere(c, s);
    DeliverRun(c, s, s, m);
    var s1 := s.(tasks := s.tasks + [t]);
    if !e.catalogued {
      NothingToCheck(c.limits, s, e);
      SameLog(s, s1, e);
      LogAckRun(c, s, s1, i, t);
      t := t.(stage := Done, live := false);
    } else {
      ChecksRun(c, s, s1, i, t);
      var ls := LimitsFor(c.limits, e);
      forall l ensures l in ls <==> l in c.limits && Concerns(l, e) {
        LimitsForCorrect(c.limits, e, l);
      }
      AllowedMeans(c.limits, ls, s1, e);
      SameBooks(c.limits, s, s1, e);
      if Allowed(c.limits, s, e) {
        t := BookRun(c, s, s1, i, t.(checked := |ls|));
        BookedWithin(c, s1, e);
        SameLog(s, Booked(s1, e), e);
        LogAckRun(c, s, Booked(s1, e), i, t);
        t := t.(stage := Done, live := false);
      } else {
        var n :| Leads(c, s, At(s1, i, t.(checked := n, live := false)));
        t := t.(checked := n, live := false);
      }
    }
    assert (s.tasks + [Start(m, e)])[i := t] == s.tasks + [t];
  }

  lemma BookedWithin(c: Setting, s: State, e: Event)
    requires WithinSetting(c, s)
    ensures WithinSetting(c, Booked(s, e))
  {
    hide EventOk, BumpAll, KeysFor, Entered;
  }

  /** Only the books matter to a check and to what is written. */
  lemma SameBooks(limits: seq<BlockLimit>, s: State, s': State, e: Event)
    requires s.counters == s'.counters && s.ledger == s'.ledger
    ensures Allowed(limits, s, e) == Allowed(limits, s', e)
    ensures Entered(s, e) == Entered(s', e)
  {
    assert forall l :: Spend(s, l, e.time) == Spend(s', l, e.time);
    assert forall l :: Exceeds(s, l, e) == Exceeds(s', l, e);
  }

  lemma NothingToCheck(limits: seq<BlockLimit>, s: State, e: Event)
    requires !e.catalogued
    ensures Allowed(limits, s, e)
  {}

  lemma SameLog(s: State, s': State, e: Event)
    requires s.log == s'.log
    ensures Logged(s, e) == Logged(s', e)
  {}

  // ---------------------------------------------------------------- a worker handling a stream

  /** The books alone. */
  function Store(s: State): State {
    State([], {}, s.ledger, s.log, s.counters, [])
  }

  lemma HandledOnStore(limits: seq<BlockLimit>, s: State, e: Event)
    ensures Store(Handled(limits, s, e)) == Handled(limits, Store(s), e)
  {
    hide BumpAll, KeysFor, Allowed;
    SameBooks(limits, s, Store(s), e);
  }

  /** The books of a worker that handled the messages one after another. */
  ghost function HandledAll(limits: seq<BlockLimit>, es: seq<Event>): State {
    if es == [] then INIT else Handled(limits, HandledAll(limits, es[..|es| - 1]), es[|es| - 1])
  }

  lemma {:induction false} PublishAll(c: Setting, es: seq<Event>)
    requires SettingOk(c) && forall e :: e in es ==> EventOk(c, e)
    ensures Leads(c, INIT, INIT.(stream := es))
  {
    hide Leads, EventOk;
    if es == [] {
      LeadsNowhere(c, INIT);
    } else {
      var n := |es| - 1;
      PublishAll(c, es[..n]);
      assert es[..n] + [es[n]] == es;
      LeadsStep(c, INIT, INIT.(stream := es[..n]), Publish(es[n]));
    }
  }

  /** A machine state in which the first n messages of es were handled one after another. */
  ghost predicate Reached(c: Setting, es: seq<Event>, n: nat, s: State)
    requires n <= |es|
  {
    && Leads(c, INIT, s) && s.stream == es && InFlight(s) == 0
    && (forall m :: m in s.acked ==> m < n)
    && Store(s) == HandledAll(c.limits, es[..n])
  }

  lemma {:induction false} StreamIsRun(c: Setting, es: seq<Event>, n: nat) returns (s: State)
    requires SettingOk(c) && (forall e :: e in es ==> EventOk(c, e)) && n <= |es|
    ensures Reached(c, es, n, s)
  {
    hide Leads, EventOk, Handled, SettingOk;
    if n == 0 {
      PublishAll(c, es);
      s := INIT.(stream := es);
    } else {
      var s0 := StreamIsRun(c, es, n - 1);
      assert c.inFlight >= 1 by { OneFits(c); }
      s := StreamStep(c, es, n - 1, s0);
    }
  }

  lemma OneFits(c: Setting)
    requires SettingOk(c)
    ensures c.inFlight >= 1
  {}

  lemma SettledBooks(limits: seq<BlockLimit>, s: State, m: nat)
    requires m < |s.stream|
    ensures var s' := Settled(limits, s, m);
            s'.stream == s.stream && s'.tasks == s.tasks && s'.acked <= s.acked + {m} &&
            Store(s') == Handled(limits, Store(s), s.stream[m])
  {
    hide Allowed, KeysFor, BumpAll, Entered, Logged;
    HandledOnStore(limits, s, s.stream[m]);
  }

  lemma HandledOneMore(limits: seq<BlockLimit>, es: seq<Event>, m: nat)
    requires m < |es|
    ensures HandledAll(limits, es[..m + 1]) == Handled(limits, HandledAll(limits, es[..m]), es[m])
  {
    assert es[..m + 1][..m] == es[..m];
  }

  lemma StreamStep(c: Setting, es: seq<Event>, m: nat, s0: State) returns (s: State)
    requires (forall e :: e in es ==> EventOk(c, e)) && m < |es| && Reached(c, es, m, s0) && c.inFlight >= 1
    ensures Reached(c, es, m + 1, s)
  {
    hide Leads, EventOk, Handled, HandledAll, Settled;
    WithinAtEnd(c, INIT, s0);
    var t := ProcessIsRun(c, s0, m);
    var done := Settled(c.limits, s0, m);
    SettledBooks(c.limits, s0, m);
    s := done.(tasks := s0.tasks + [t]);
    SumAppend(s0.tasks, t, Busy(1));
    LeadsOn(c, INIT, s0, s);
    HandledOneMore(c.limits, es, m);
    assert Store(s) == Store(done);
  }

  /** One worker handling any messages in turn never takes a counter past a blocking limit. */
  lemma WorkerNeverOverruns(c: Setting, es: seq<Event>, l: BlockLimit, t: Instant)
    requires SettingOk(c) && c.inFlight == 1 && l in c.limits && forall e :: e in es ==> EventOk(c, e)
    ensures Get(HandledAll(c.limits, es).counters, SpendKey(l, t)) <= l.amount
  {
    hide EventOk, HandledAll, SettingOk, SpendKey;
    var s := StreamIsRun(c, es, |es|);
    assert es[..|es|] == es;
    var tr :| Links(c, tr, INIT, s);
    SequentialNeverOverruns(c, tr, |tr| - 1, l, t);
    assert Store(s).counters == s.counters;
  }
}
