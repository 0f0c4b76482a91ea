/**
 * Runs that show the statements about the usage pipeline to be exact: a redelivery that charges an
 * event twice, a provider name in another spelling that is recorded and not counted, and any number of
 * processing calls in flight that overrun a budget by the whole bound.
 */
module PipelineWitnesses {
  import opened Sums
  import opened Text
  import opened Calendar
  import opened RedisKeys
  import opened UsagePipeline
  import opened BudgetOvershoot
  import opened UsageWorker
  import LedgerConsistency

  // ---------------------------------------------------------------- a redelivery charges twice

  /** The setting of a single worker without limits. */
  function Alone(e: Event): Setting {
    Setting([], (id: string) => e.tenant, 1, e.cost)
  }

  /** A delivery books everything and stops before its log row. */
  lemma BooksThenStops(e: Event) returns (s: State)
    requires e.catalogued && e.cost >= 0
    ensures Leads(Alone(e), INIT, s) && s.stream == [e] && s.acked == {} && InFlight(s) == 0
    ensures s.ledger == [RowOf(e)] && s.log == [] && s.counters == BumpAll(map[], KeysFor(e), e.cost)
  {
    hide Leads, KeysFor, BumpAll;
    var c, t := Alone(e), Start(0, e);
    PublishAll(c, [e]);
    var s0 := INIT.(stream := [e]);
    WithinAtEnd(c, INIT, s0);
    DeliverRun(c, INIT, s0, 0);
    var s1 := s0.(tasks := [] + [t]);
    assert s1.tasks[0] == t && At(s1, 0, t) == s1;
    assert LimitsFor([], e) == [];
    var t' := BookRun(c, INIT, s1, 0, t);
    var s2 := At(Booked(s1, e), 0, t');
    assert s2.tasks == [t'];
    s := At(s2, 0, t'.(live := false));
    assert s.tasks == [] + [t'.(live := false)];
    SumAppend([], t'.(live := false), Busy(1));
    assert Sum<Task>([], Busy(1)) == 0;
    LeadsStep(c, INIT, s2, Stop(0));
  }

  /**
   * A counter can exceed the ledger, and by any event's cost: the first delivery of the message
   * stops after its increments, the second one goes through. Everything is acknowledged, the
   * ledger has the event once and each of its counters has it twice.
   */
  lemma RedeliveryChargesTwice(e: Event, k: BudgetKey) returns (tr: seq<State>)
    requires e.catalogued && e.cost > 0 && k in KeysFor(e) && LedgerConsistency.AccountLevel(k)
    requires k.AccountSpend? || e.provider == e.resolved
    ensures Behaviour([], tr)
    ensures var s := tr[|tr| - 1];
            && LedgerConsistency.AllAcked(s) && LedgerConsistency.SameEvents(s) && LedgerConsistency.OwnSpelling(s, k)
            && Get(s.counters, k) == 2 * e.cost && LedgerConsistency.LedgerTotal(s, k) == e.cost
  {
    hide Leads, KeysFor, BumpAll, Get, Allowed, WithinSetting, LedgerConsistency.AccountLevel, LedgerConsistency.LedgerTotal,
         LedgerConsistency.AllAcked;
    var s := DoneAgain(e);
    tr := RunTo(Alone(e), s);
    LedgerConsistency.Booked([], tr, |tr| - 1);
    FirstMessageOnly(s, e);
    KeysDistinct(e);
    NoCounter(k);
    BumpAllAdds(map[], KeysFor(e), e.cost, k);
    BumpAllAdds(BumpAll(map[], KeysFor(e), e.cost), KeysFor(e), e.cost, k);
    OneRowTotal(s, e, k);
  }

  /** The second delivery goes through: the row is already there, the counters move again. */
  lemma DoneAgain(e: Event) returns (s: State)
    requires e.catalogued && e.cost >= 0
    ensures Leads(Alone(e), INIT, s) && s.stream == [e] && s.acked == {0} && s.ledger == [RowOf(e)]
    ensures s.counters == BumpAll(BumpAll(map[], KeysFor(e), e.cost), KeysFor(e), e.cost)
  {
    hide Leads, KeysFor, BumpAll;
    var s0 := BooksThenStops(e);
    WithinAtEnd(Alone(e), INIT, s0);
    var t := ProcessIsRun(Alone(e), s0, 0);
    s := Settled([], s0, 0).(tasks := s0.tasks + [t]);
    assert s0.ledger[0].id == e.id;
    LeadsOn(Alone(e), INIT, s0, s);
  }

  lemma FirstMessageOnly(s: State, e: Event)
    requires s.stream == [e] && s.acked == {0} && LedgerConsistency.Books([], s)
    ensures LedgerConsistency.AllAcked(s) && LedgerConsistency.SameEvents(s)
  {
    forall i | 0 <= i < |s.tasks| ensures s.tasks[i].msg in s.acked {
      assert LedgerConsistency.TaskBooked([], s, s.tasks[i]);
    }
  }

  lemma OneRowTotal(s: State, e: Event, k: BudgetKey)
    requires s.ledger == [RowOf(e)] && k in KeysFor(e) && LedgerConsistency.AccountLevel(k)
    requires k.AccountSpend? || e.provider == e.resolved
    ensures LedgerConsistency.LedgerTotal(s, k) == e.cost
  {
    hide KeysFor, LedgerConsistency.RowSpend;
    assert s.ledger == [] + [RowOf(e)];
    SumAppend([], RowOf(e), LedgerConsistency.RowSpend(k));
    assert Sum([], LedgerConsistency.RowSpend(k)) == 0;
    LedgerConsistency.RowMatchesCounters(e, k);
  }

  /** An event is handled once, from start to end. */
  lemma DoneOnce(e: Event) returns (s: State)
    requires e.catalogued && e.cost >= 0
    ensures Leads(Alone(e), INIT, s) && s.stream == [e] && s.acked == {0} && s.ledger == [RowOf(e)]
    ensures s.counters == BumpAll(map[], KeysFor(e), e.cost)
  {
    hide Leads, KeysFor, BumpAll;
    PublishAll(Alone(e), [e]);
    var s0 := INIT.(stream := [e]);
    WithinAtEnd(Alone(e), INIT, s0);
    var t := ProcessIsRun(Alone(e), s0, 0);
    s := Settled([], s0, 0).(tasks := s0.tasks + [t]);
    LeadsOn(Alone(e), INIT, s0, s);
  }

  /**
   * The provider's counter under its catalogue name falls behind the ledger when the event spells
   * the name differently: one message, handled once, leaves a row of its cost and no counter.
   */
  lemma MisspelledFallsBehind(e: Event, p: Period) returns (tr: seq<State>)
    requires e.catalogued && e.billed && e.cost > 0 && e.provider != e.resolved && e.resolved != ""
    ensures Behaviour([], tr)
    ensures var s, k := tr[|tr| - 1], ProviderSpend(e.tenant, e.resolved, BucketOf(p, e.time));
            && LedgerConsistency.AllAcked(s) && LedgerConsistency.SameEvents(s)
            && Get(s.counters, k) == 0 && LedgerConsistency.LedgerTotal(s, k) == e.cost
  {
    hide Leads, KeysFor, BumpAll, Get, Allowed, WithinSetting, BucketOf, LedgerConsistency.AllAcked, LedgerConsistency.RowSpend;
    var s := DoneOnce(e);
    var k := ProviderSpend(e.tenant, e.resolved, BucketOf(p, e.time));
    tr := RunTo(Alone(e), s);
    LedgerConsistency.Booked([], tr, |tr| - 1);
    FirstMessageOnly(s, e);
    LedgerConsistency.MisspelledRow(e, p);
    KeysDistinct(e);
    NoCounter(k);
    BumpAllAdds(map[], KeysFor(e), e.cost, k);
    assert s.ledger == [] + [RowOf(e)];
    SumAppend([], RowOf(e), LedgerConsistency.RowSpend(k));
    assert Sum([], LedgerConsistency.RowSpend(k)) == 0;
  }

  lemma RunTo(c: Setting, s: State) returns (tr: seq<State>)
    requires Leads(c, INIT, s)
    ensures Behaviour(c.limits, tr) && tr[|tr| - 1] == s && forall i :: 0 <= i < |tr| ==> WithinSetting(c, tr[i])
  {
    hide Next, WithinSetting;
    tr :| Links(c, tr, INIT, s);
  }

  lemma NoCounter(k: BudgetKey)
    ensures Get(map[], k) == 0
  {}

  // ---------------------------------------------------------------- the overshoot bound is reached

  ghost function Price(e: Event): int { e.cost }

  /** Every event counts towards the limit's counter k, which the setting's one limit governs. */
  ghost predicate Bidders(c: Setting, l: BlockLimit, k: BudgetKey, es: seq<Event>) {
    && SettingOk(c) && c.limits == [l]
    && (forall e :: e in es ==> EventOk(c, e) && e.catalogued && k in KeysFor(e))
  }

  lemma OneLimit(c: Setting, l: BlockLimit, u: Instant, e: Event)
    requires SettingOk(c) && c.limits == [l] && EventOk(c, e) && SpendKey(l, u) in KeysFor(e)
    ensures LimitsFor(c.limits, e) == [l] && Concerns(l, e) && SpendKey(l, e.time) == SpendKey(l, u)
  {
    hide SpendKey, KeysFor;
    BumpsOnlyWhatItChecks(c, l, u, e);
    assert [l][..0] == [] && LimitsFor([], e) == [];
  }

  /** The books are such that a check of limit l reads its counter k. */
  ghost predicate ReadsCounter(s: State, k: BudgetKey) {
    k in s.counters || s.ledger == []
  }

  lemma SpendIsCounter(s: State, l: BlockLimit, t: Instant)
    requires ReadsCounter(s, SpendKey(l, t))
    ensures Spend(s, l, t) == Get(s.counters, SpendKey(l, t))
  {
    hide SpendKey;
  }

  lemma {:induction false} BumpAllHas(counters: map<BudgetKey, int>, ks: seq<BudgetKey>, cost: int, k: BudgetKey)
    requires k in ks
    ensures k in BumpAll(counters, ks, cost)
  {
    var n := |ks| - 1;
    if ks[n] != k {
      assert ks == ks[..n] + [ks[n]];
      BumpAllHas(counters, ks[..n], cost, k);
    }
  }

  /** An event within the limit is booked, and its counter is there afterwards. */
  lemma HandledBids(c: Setting, l: BlockLimit, u: Instant, s: State, e: Event)
    requires Bidders(c, l, SpendKey(l, u), [e]) && ReadsCounter(s, SpendKey(l, u))
    requires Get(s.counters, SpendKey(l, u)) + e.cost <= l.amount
    ensures var s', k := Handled(c.limits, s, e), SpendKey(l, u);
            Get(s'.counters, k) == Get(s.counters, k) + e.cost && k in s'.counters
  {
    hide SpendKey, KeysFor, EventOk, SettingOk, BumpAll, Get, Spend;
    assert e in [e];
    OneLimit(c, l, u, e);
    SpendIsCounter(s, l, e.time);
    assert Allowed(c.limits, s, e);
    KeysDistinct(e);
    BumpAllAdds(s.counters, KeysFor(e), e.cost, SpendKey(l, u));
    BumpAllHas(s.counters, KeysFor(e), e.cost, SpendKey(l, u));
  }

  lemma {:induction false} PrefixPrice(es: seq<Event>, n: nat)
    requires n <= |es| && forall e :: e in es ==> e.cost >= 0
    ensures Sum(es[..n], Price) <= Sum(es, Price)
  {
    if n == |es| {
      assert es[..n] == es;
    } else {
      var m := |es| - 1;
      PrefixPrice(es[..m], n);
      assert es[..m][..n] == es[..n] && es[m] in es;
    }
  }

  /** Handled one after another, events whose total is within the limit fill its counter exactly. */
  lemma {:induction false} Filled(c: Setting, l: BlockLimit, u: Instant, fs: seq<Event>, n: nat)
    requires Bidders(c, l, SpendKey(l, u), fs) && Sum(fs, Price) <= l.amount && n <= |fs|
    ensures var s := HandledAll(c.limits, fs[..n]);
            Get(s.counters, SpendKey(l, u)) == Sum(fs[..n], Price) && ReadsCounter(s, SpendKey(l, u))
  {
    hide SpendKey, KeysFor, SettingOk, EventOk, Get, Handled, Price;
    if n == 0 {
      assert fs[..0] == [];
      NoCounter(SpendKey(l, u));
    } else {
      hide HandledAll, Sum;
      Filled(c, l, u, fs, n - 1);
      FilledSoFar(c, l, SpendKey(l, u), fs, n);
      HandledOneMore(c.limits, fs, n - 1);
      HandledBids(c, l, u, HandledAll(c.limits, fs[..n - 1]), fs[n - 1]);
    }
  }

  lemma FilledSoFar(c: Setting, l: BlockLimit, k: BudgetKey, fs: seq<Event>, n: nat)
    requires Bidders(c, l, k, fs) && 0 < n <= |fs|
    ensures Bidders(c, l, k, [fs[n - 1]]) && Sum(fs[..n], Price) == Sum(fs[..n - 1], Price) + fs[n - 1].cost <= Sum(fs, Price)
  {
    hide KeysFor, SettingOk, Sum;
    PrefixPrice(fs, n);
    assert fs[..n] == fs[..n - 1] + [fs[n - 1]] && fs[n - 1] in fs;
    SumAppend(fs[..n - 1], fs[n - 1], Price);
  }

  /** A delivery that has passed the one limit and not yet booked anything. */
  function Waiting(es: seq<Event>, m: nat): Task
    requires m < |es|
  {
    Start(m, es[m]).(checked := 1)
  }

  /** The contest: from state s0 on, all messages from number b on are delivered and checked. */
  ghost predicate Contest(c: Setting, l: BlockLimit, u: Instant, es: seq<Event>, b: nat, s0: State) {
    && Bidders(c, l, SpendKey(l, u), es) && b <= |es| && c.inFlight == |es| - b
    && Leads(c, INIT, s0) && s0.stream == es && InFlight(s0) == 0 && (forall m :: m in s0.acked ==> m < b)
    && ReadsCounter(s0, SpendKey(l, u)) && Get(s0.counters, SpendKey(l, u)) + c.maxCost == l.amount
    && (forall m :: b <= m < |es| ==> es[m].cost == c.maxCost)
  }

  /** The first n contenders have passed the check; the books are as before. */
  ghost predicate AllWaiting(es: seq<Event>, b: nat, s0: State, s: State, n: nat) {
    && b + n <= |es| && |s.tasks| == |s0.tasks| + n && s == s0.(tasks := s.tasks) && InFlight(s) == n
    && forall i: nat :: |s0.tasks| <= i < |s.tasks| ==> s.tasks[i] == Waiting(es, b + i - |s0.tasks|)
  }

  lemma {:induction false} AllChecked(c: Setting, l: BlockLimit, u: Instant, es: seq<Event>, b: nat, s0: State, n: nat) returns (s: State)
    requires Contest(c, l, u, es, b, s0) && b + n <= |es|
    ensures Leads(c, INIT, s) && AllWaiting(es, b, s0, s, n)
  {
    hide Leads;
    if n == 0 {
      s := s0;
    } else {
      hide Contest, AllWaiting;
      var s1 := AllChecked(c, l, u, es, b, s0, n - 1);
      s := CheckNext(c, l, u, es, b, s0, n - 1, s1);
    }
  }

  /** One more contender is delivered and passes. */
  lemma CheckNext(c: Setting, l: BlockLimit, u: Instant, es: seq<Event>, b: nat, s0: State, n: nat, s1: State) returns (s: State)
    requires Contest(c, l, u, es, b, s0) && b + n < |es| && Leads(c, INIT, s1) && AllWaiting(es, b, s0, s1, n)
    ensures Leads(c, INIT, s) && AllWaiting(es, b, s0, s, n + 1)
  {
    hide Leads, EventOk, SpendKey, Get, ReadsCounter, Bidders;
    WithinAtEnd(c, INIT, s1);
    var m, i := b + n, |s1.tasks|;
    DeliverRun(c, INIT, s1, m);
    var t := Start(m, es[m]);
    var s2 := s1.(tasks := s1.tasks + [t]);
    ContenderPasses(c, l, u, es, b, s0, s2, m);
    hide Contest, Running;
    ChecksRun(c, INIT, s2, i, t);
    s := At(s2, i, t.(checked := 1));
    assert s.tasks == s1.tasks + [Waiting(es, m)];
    SumAppend(s1.tasks, Waiting(es, m), Busy(1));
  }

  lemma ContenderPasses(c: Setting, l: BlockLimit, u: Instant, es: seq<Event>, b: nat, s0: State, s: State, m: nat)
    requires Contest(c, l, u, es, b, s0) && b <= m < |es| && s.counters == s0.counters && s.ledger == s0.ledger
    ensures LimitsFor(c.limits, es[m]) == [l] && es[m].catalogued && Spend(s, l, es[m].time) + es[m].cost <= l.amount
  {
    hide Leads, KeysFor, SpendKey, EventOk, SettingOk;
    assert es[m] in es;
    OneLimit(c, l, u, es[m]);
    SpendIsCounter(s, l, es[m].time);
  }

  /** The first n contenders have booked, the others still wait. */
  ghost predicate SomeBooked(c: Setting, l: BlockLimit, u: Instant, es: seq<Event>, b: nat, s0: State, s: State, n: nat) {
    && |s.tasks| == |s0.tasks| + (|es| - b) && s.stream == es
    && (forall i: nat :: |s0.tasks| + n <= i < |s.tasks| ==> s.tasks[i] == Waiting(es, b + i - |s0.tasks|))
    && Get(s.counters, SpendKey(l, u)) == Get(s0.counters, SpendKey(l, u)) + n * c.maxCost
  }

  lemma {:induction false} AllBooked(c: Setting, l: BlockLimit, u: Instant, es: seq<Event>, b: nat, s0: State, n: nat) returns (s: State)
    requires Contest(c, l, u, es, b, s0) && b + n <= |es|
    ensures Leads(c, INIT, s) && SomeBooked(c, l, u, es, b, s0, s, n)
  {
    hide Leads, EventOk, KeysFor, SpendKey, SettingOk, LimitsFor, BumpAll, Get, ReadsCounter;
    if n == 0 {
      s := AllChecked(c, l, u, es, b, s0, |es| - b);
    } else {
      var s1 := AllBooked(c, l, u, es, b, s0, n - 1);
      WithinAtEnd(c, INIT, s1);
      var m, i := b + n - 1, |s0.tasks| + n - 1;
      var e, t := es[m], Waiting(es, m);
      assert e in es && At(s1, i, t) == s1;
      OneLimit(c, l, u, e);
      var t' := BookRun(c, INIT, s1, i, t);
      KeysDistinct(e);
      BumpAllAdds(s1.counters, KeysFor(e), e.cost, SpendKey(l, u));
      s := At(Booked(s1, e), i, t');
      assert n * c.maxCost == (n - 1) * c.maxCost + c.maxCost;
    }
  }

  /** Fillers handled one after another leave room for exactly one more contender. */
  lemma FillUp(c: Setting, l: BlockLimit, u: Instant, fs: seq<Event>, cs: seq<Event>) returns (s0: State)
    requires Bidders(c, l, SpendKey(l, u), fs + cs) && Sum(fs, Price) + c.maxCost == l.amount
    requires |cs| == c.inFlight && forall e :: e in cs ==> e.cost == c.maxCost
    ensures Contest(c, l, u, fs + cs, |fs|, s0)
  {
    hide Leads, KeysFor, EventOk, SpendKey, SettingOk, HandledAll, Get, ReadsCounter, Sum;
    var es, b := fs + cs, |fs|;
    s0 := StreamIsRun(c, es, b);
    assert es[..b] == fs == fs[..b];
    SettingCosts(c);
    assert forall e :: e in fs ==> e in es;
    Filled(c, l, u, fs, b);
    SameReading(s0, SpendKey(l, u));
  }

  lemma SameReading(s: State, k: BudgetKey)
    ensures ReadsCounter(s, k) == ReadsCounter(Store(s), k) && Store(s).counters == s.counters
  {}

  /** Any fillers up to L - C, then as many contenders of cost C as may be in flight. */
  lemma OvershootRun(c: Setting, l: BlockLimit, u: Instant, fs: seq<Event>, cs: seq<Event>) returns (s: State)
    requires Bidders(c, l, SpendKey(l, u), fs + cs) && Sum(fs, Price) + c.maxCost == l.amount
    requires |cs| == c.inFlight && forall e :: e in cs ==> e.cost == c.maxCost
    ensures Leads(c, INIT, s) && Get(s.counters, SpendKey(l, u)) == l.amount + (c.inFlight - 1) * c.maxCost
  {
    hide Leads, SpendKey, Get, ReadsCounter, Sum, Bidders;
    var s0 := FillUp(c, l, u, fs, cs);
    s := AllBooked(c, l, u, fs + cs, |fs|, s0, |cs|);
    assert |cs| * c.maxCost == (c.inFlight - 1) * c.maxCost + c.maxCost;
  }

  lemma SettingCosts(c: Setting)
    requires SettingOk(c)
    ensures c.maxCost >= 0
  {}

  /** Like e, with an id and a cost of its own. */
  function Like(e: Event, tag: string, n: nat, cost: int): Event {
    e.(id := tag + Decimal(n), cost := cost)
  }

  /** Neither the id nor the cost of an event decides which counters it moves. */
  lemma LikeBids(c: Setting, l: BlockLimit, k: BudgetKey, e: Event, tag: string, n: nat, cost: int)
    requires Bidders(c, l, k, [e]) && 0 <= cost <= c.maxCost
    ensures Bidders(c, l, k, [Like(e, tag, n, cost)]) && Like(e, tag, n, cost).cost == cost
  {
    hide PeriodKeys, Decimal, SettingOk;
    var f := Like(e, tag, n, cost);
    assert e in [e];
    SamePeriodKeys(e, f, Monthly);
    SamePeriodKeys(e, f, Weekly);
    SamePeriodKeys(e, f, Daily);
  }

  lemma SamePeriodKeys(e: Event, f: Event, p: Period)
    requires f == e.(id := f.id, cost := f.cost)
    ensures PeriodKeys(f, p) == PeriodKeys(e, p)
  {}

  lemma MoreBidders(c: Setting, l: BlockLimit, k: BudgetKey, es: seq<Event>, fs: seq<Event>)
    requires Bidders(c, l, k, es) && Bidders(c, l, k, fs)
    ensures Bidders(c, l, k, es + fs)
  {
    hide SettingOk, EventOk, KeysFor;
  }

  /** Events like e that add up to `amount` in steps of at most `step`. */
  function Fill(e: Event, amount: nat, step: nat): seq<Event>
    requires step > 0
  {
    if amount == 0 then []
    else
      var part := if amount < step then amount else step;
      Fill(e, amount - part, step) + [Like(e, "fill-", amount, part)]
  }

  lemma {:induction false} FillAddsUp(c: Setting, l: BlockLimit, k: BudgetKey, e: Event, amount: nat, step: nat)
    requires 0 < step <= c.maxCost && Bidders(c, l, k, [e])
    ensures Bidders(c, l, k, Fill(e, amount, step)) && Sum(Fill(e, amount, step), Price) == amount
  {
    hide SettingOk, EventOk, KeysFor, Like;
    if amount > 0 {
      hide Bidders;
      var part := if amount < step then amount else step;
      FillAddsUp(c, l, k, e, amount - part, step);
      LikeBids(c, l, k, e, "fill-", amount, part);
      MoreBidders(c, l, k, Fill(e, amount - part, step), [Like(e, "fill-", amount, part)]);
      SumAppend(Fill(e, amount - part, step), Like(e, "fill-", amount, part), Price);
    }
  }

  /** n events like e, all of the same cost. */
  function Contenders(e: Event, n: nat, cost: int): seq<Event> {
    if n == 0 then [] else Contenders(e, n - 1, cost) + [Like(e, "bid-", n, cost)]
  }

  lemma {:induction false} ContendersBid(c: Setting, l: BlockLimit, k: BudgetKey, e: Event, n: nat, cost: int)
    requires Bidders(c, l, k, [e]) && 0 <= cost <= c.maxCost
    ensures var cs := Contenders(e, n, cost);
            Bidders(c, l, k, cs) && |cs| == n && forall f :: f in cs ==> f.cost == cost
  {
    hide SettingOk, EventOk, KeysFor, Like;
    if n > 0 {
      hide Bidders;
      ContendersBid(c, l, k, e, n - 1, cost);
      LikeBids(c, l, k, e, "bid-", n, cost);
      MoreBidders(c, l, k, Contenders(e, n - 1, cost), [Like(e, "bid-", n, cost)]);
    }
  }

  lemma AtLeastOne(c: Setting, l: BlockLimit, k: BudgetKey, e: Event)
    requires Bidders(c, l, k, [e])
    ensures c.inFlight >= 1
  {}

  /**
   * The overshoot bound is tight for any number n of processing calls in flight and any greatest cost
   * 0 < C <= L: a run exists whose costs are all within C and whose counter, filled to L - C before
   * n deliveries check together, ends at L + (n-1)*C.
   */
  lemma OvershootReached(c: Setting, l: BlockLimit, u: Instant, e: Event) returns (tr: seq<State>)
    requires Bidders(c, l, SpendKey(l, u), [e]) && 0 < c.maxCost <= l.amount
    ensures Behaviour(c.limits, tr) && forall i :: 0 <= i < |tr| ==> WithinSetting(c, tr[i])
    ensures Get(tr[|tr| - 1].counters, SpendKey(l, u)) == l.amount + (c.inFlight - 1) * c.maxCost
  {
    hide Leads, SpendKey, Get, WithinSetting, Bidders;
    AtLeastOne(c, l, SpendKey(l, u), e);
    var fs, cs := Fill(e, l.amount - c.maxCost, c.maxCost), Contenders(e, c.inFlight, c.maxCost);
    FillAddsUp(c, l, SpendKey(l, u), e, l.amount - c.maxCost, c.maxCost);
    ContendersBid(c, l, SpendKey(l, u), e, c.inFlight, c.maxCost);
    MoreBidders(c, l, SpendKey(l, u), fs, cs);
    var s := OvershootRun(c, l, u, fs, cs);
    tr := RunTo(c, s);
  }
}
