/**
 * What at-least-once delivery does to the books: the ledger and the usage log hold one row per
 * message id, and the account counters never fall behind the ledger once everything delivered
 * has been acknowledged, those of one provider if its name is spelled as in the catalogue.
 */
module LedgerConsistency {
  import opened Sums
  import opened Calendar
  import opened RedisKeys
  import opened UsagePipeline
  import opened BudgetOvershoot

  function PeriodOf(b: Bucket): Period {
    match b
    case MonthOf(_, _) => Monthly
    case WeekOf(_, _) => Weekly
    case DayOf(_, _, _) => Daily
  }

  predicate AccountLevel(k: BudgetKey) {
    k.AccountSpend? || (k.ProviderSpend? && k.provider != "")
  }

  /** What a ledger row contributes to the spend of an account-level bucket. */
  ghost function RowSpend(k: BudgetKey): LedgerRow -> int {
    (r: LedgerRow) =>
      if AccountLevel(k) && r.billed && r.tenant == k.tenant && BucketOf(PeriodOf(k.bucket), r.time) == k.bucket &&
         (k.ProviderSpend? ==> r.provider == k.provider)
      then r.cost else 0
  }

  /** The billed ledger total of a counter's bucket. */
  ghost function LedgerTotal(s: State, k: BudgetKey): int {
    Sum(s.ledger, RowSpend(k))
  }

  /** What a delivery's own ledger row contributes to counter k. */
  ghost function Written(k: BudgetKey): Task -> int {
    (t: Task) => if t.wrote && k in KeysFor(t.event) then t.event.cost else 0
  }

  /** What that row counts for in the ledger. */
  ghost function Recorded(k: BudgetKey): Task -> int {
    (t: Task) => if t.wrote then RowSpend(k)(RowOf(t.event)) else 0
  }

  // ---------------------------------------------------------------- the inductive invariant

  ghost predicate TaskBooked(limits: seq<BlockLimit>, s: State, t: Task) {
    && TaskOk(limits, t)
    && t.msg < |s.stream| && s.stream[t.msg] == t.event
    && (t.wrote ==> InLedger(s, t.event.id))
    && (t.event.catalogued && t.stage != Checking && t.stage != Writing ==> InLedger(s, t.event.id))
    && (t.stage == Acking || t.stage == Done ==> InLog(s, t.event.id))
  }

  ghost predicate WrittenBy(s: State, j: nat) {
    exists i :: 0 <= i < |s.tasks| && s.tasks[i].wrote && j < |s.ledger| && s.ledger[j] == RowOf(s.tasks[i].event)
  }

  ghost predicate LoggedBy(s: State, j: nat) {
    exists i :: 0 <= i < |s.tasks| && (s.tasks[i].stage == Acking || s.tasks[i].stage == Done) && j < |s.log|
                && s.log[j] == LogOf(s.tasks[i].event)
  }

  ghost predicate AckedBy(s: State, m: nat) {
    exists i :: 0 <= i < |s.tasks| && s.tasks[i].msg == m && s.tasks[i].stage == Done
  }

  ghost predicate OneRowPerId(s: State) {
    && (forall i, j :: 0 <= i < j < |s.ledger| ==> s.ledger[i].id != s.ledger[j].id)
    && (forall i, j :: 0 <= i < j < |s.log| ==> s.log[i].id != s.log[j].id)
  }

  ghost predicate OneWriterPerId(s: State) {
    forall i, j :: 0 <= i < j < |s.tasks| && s.tasks[i].wrote && s.tasks[j].wrote ==> s.tasks[i].event.id != s.tasks[j].event.id
  }

  ghost predicate Books(limits: seq<BlockLimit>, s: State) {
    && (forall i :: 0 <= i < |s.tasks| ==> TaskBooked(limits, s, s.tasks[i]))
    && (forall j :: 0 <= j < |s.ledger| ==> WrittenBy(s, j))
    && (forall j :: 0 <= j < |s.log| ==> LoggedBy(s, j))
    && (forall m :: m in s.acked ==> AckedBy(s, m))
    && OneRowPerId(s) && OneWriterPerId(s)
  }

  ghost predicate Totals(s: State) {
    && (forall k :: Get(s.counters, k) == Sum(s.tasks, Bumped(k)))
    && (forall k :: AccountLevel(k) ==> LedgerTotal(s, k) == Sum(s.tasks, Recorded(k)))
  }

  // ---------------------------------------------------------------- totals

  /** A ledger row counts towards a bucket exactly when its event bumps the counter of that bucket. */
  ghost predicate RowMatches(e: Event, k: BudgetKey) {
    RowSpend(k)(RowOf(e)) == if k in KeysFor(e) then e.cost else 0
  }

  lemma RowMatchesCounters(e: Event, k: BudgetKey)
    requires AccountLevel(k) && (k.AccountSpend? || e.provider == e.resolved)
    ensures RowMatches(e, k)
  {
    hide PeriodKeys, CivilDate, IsoYear, IsoWeek;
    InPeriodKeys(e, Monthly, k);
    InPeriodKeys(e, Weekly, k);
    InPeriodKeys(e, Daily, k);
  }

  /** The event is counted under one provider and recorded under another. */
  lemma MisspelledRow(e: Event, p: Period)
    requires e.billed && e.provider != e.resolved && e.resolved != ""
    ensures var k := ProviderSpend(e.tenant, e.resolved, BucketOf(p, e.time));
            AccountLevel(k) && k !in KeysFor(e) && RowSpend(k)(RowOf(e)) == e.cost
  {
    hide PeriodKeys, CivilDate, IsoYear, IsoWeek;
    var k := ProviderSpend(e.tenant, e.resolved, BucketOf(p, e.time));
    InPeriodKeys(e, Monthly, k);
    InPeriodKeys(e, Weekly, k);
    InPeriodKeys(e, Daily, k);
  }

  /**
   * For a provider that is in the catalogue under some name: the row matches every account-level
   * counter if and only if the event spells the provider as the catalogue does, unless nothing is billed.
   */
  lemma RowMatchesIff(e: Event)
    requires e.resolved != ""
    ensures (forall k :: AccountLevel(k) ==> RowMatches(e, k)) <==> e.provider == e.resolved || !e.billed || e.cost == 0
  {
    hide KeysFor, BucketOf;
    if e.provider == e.resolved {
      forall k | AccountLevel(k) ensures RowMatches(e, k) { RowMatchesCounters(e, k); }
    } else if !e.billed || e.cost == 0 {
      forall k | AccountLevel(k) ensures RowMatches(e, k) { NothingToMatch(e, k); }
    } else {
      MisspelledRow(e, Daily);
      assert !RowMatches(e, ProviderSpend(e.tenant, e.resolved, BucketOf(Daily, e.time)));
    }
  }

  lemma NothingToMatch(e: Event, k: BudgetKey)
    requires !e.billed || e.cost == 0
    ensures RowMatches(e, k)
  {
    hide PeriodKeys;
  }

  /** The provider of every event is written as in the catalogue, or the counter is not about a provider. */
  ghost predicate OwnSpelling(s: State, k: BudgetKey) {
    k.AccountSpend? || forall e :: e in s.stream ==> e.provider == e.resolved
  }

  /** Then what the rows record is what the writers' events bump. */
  lemma RecordedIsWritten(limits: seq<BlockLimit>, s: State, k: BudgetKey)
    requires Books(limits, s) && OwnSpelling(s, k) && AccountLevel(k)
    ensures Sum(s.tasks, Recorded(k)) == Sum(s.tasks, Written(k))
  {
    hide KeysFor, RowSpend, Sum, InLedger, InLog, TaskOk, WrittenBy, LoggedBy, AckedBy, OneRowPerId, OneWriterPerId;
    forall i | 0 <= i < |s.tasks| ensures Recorded(k)(s.tasks[i]) == Written(k)(s.tasks[i]) {
      assert TaskBooked(limits, s, s.tasks[i]);
      assert s.tasks[i].event in s.stream;
      RowMatchesCounters(s.tasks[i].event, k);
    }
    SumMonotone(s.tasks, Recorded(k), Written(k));
    SumMonotone(s.tasks, Written(k), Recorded(k));
  }

  /** A task moves without writing or bumping: nothing is booked. */
  lemma SameTotals(s: State, s': State, i: nat)
    requires Totals(s) && i < |s.tasks| && |s'.tasks| == |s.tasks| && s'.tasks == s.tasks[i := s'.tasks[i]]
    requires s'.counters == s.counters && s'.ledger == s.ledger
    requires s'.tasks[i].event == s.tasks[i].event && s'.tasks[i].bumped == s.tasks[i].bumped && s'.tasks[i].wrote == s.tasks[i].wrote
    ensures Totals(s')
  {
    hide KeysFor;
    forall k ensures Sum(s'.tasks, Bumped(k)) == Sum(s.tasks, Bumped(k)) && Sum(s'.tasks, Recorded(k)) == Sum(s.tasks, Recorded(k)) {
      SumUpdate(s.tasks, i, s'.tasks[i], Bumped(k));
      SumUpdate(s.tasks, i, s'.tasks[i], Recorded(k));
    }
  }

  lemma DeliverTotals(limits: seq<BlockLimit>, s: State, m: nat)
    requires Totals(s) && Enabled(limits, s, Deliver(m))
    ensures Totals(Apply(limits, s, Deliver(m)))
  {
    hide KeysFor;
    var t := Start(m, s.stream[m]);
    forall k ensures Sum(s.tasks + [t], Bumped(k)) == Sum(s.tasks, Bumped(k)) && Sum(s.tasks + [t], Recorded(k)) == Sum(s.tasks, Recorded(k)) {
      SumAppend(s.tasks, t, Bumped(k));
      SumAppend(s.tasks, t, Recorded(k));
    }
  }

  lemma WriteTotals(limits: seq<BlockLimit>, s: State, i: nat)
    requires Totals(s) && Enabled(limits, s, WriteLedger(i)) && !InLedger(s, s.tasks[i].event.id) && !s.tasks[i].wrote
    ensures Totals(Apply(limits, s, WriteLedger(i)))
  {
    hide KeysFor, RowSpend;
    var t := s.tasks[i];
    var s' := Apply(limits, s, WriteLedger(i));
    forall k ensures Get(s'.counters, k) == Sum(s'.tasks, Bumped(k)) {
      SumUpdate(s.tasks, i, s'.tasks[i], Bumped(k));
    }
    forall k | AccountLevel(k) ensures LedgerTotal(s', k) == Sum(s'.tasks, Recorded(k)) {
      SumUpdate(s.tasks, i, s'.tasks[i], Recorded(k));
      SumAppend(s.ledger, RowOf(t.event), RowSpend(k));
    }
  }

  lemma BumpTotals(limits: seq<BlockLimit>, s: State, i: nat)
    requires Totals(s) && Enabled(limits, s, Bump(i))
    ensures Totals(Apply(limits, s, Bump(i)))
  {
    hide KeysFor, RowSpend;
    var t := s.tasks[i];
    var ks := KeysFor(t.event);
    var s' := Apply(limits, s, Bump(i));
    KeysDistinct(t.event);
    assert ks[..t.bumped + 1] == ks[..t.bumped] + [ks[t.bumped]];
    forall k ensures Get(s'.counters, k) == Sum(s'.tasks, Bumped(k)) && Sum(s'.tasks, Recorded(k)) == Sum(s.tasks, Recorded(k)) {
      SumUpdate(s.tasks, i, s'.tasks[i], Bumped(k));
      SumUpdate(s.tasks, i, s'.tasks[i], Recorded(k));
    }
  }

  lemma NextTotals(limits: seq<BlockLimit>, s: State, a: Action)
    requires Books(limits, s) && Totals(s) && Enabled(limits, s, a)
    ensures Totals(Apply(limits, s, a))
  {
    hide KeysFor, LimitsFor, Totals, Spend;
    match a
    case Deliver(m) => DeliverTotals(limits, s, m);
    case Bump(i) => BumpTotals(limits, s, i);
    case Publish(e) => PublishTotals(s, s.stream + [e]);
    case WriteLedger(i) =>
      assert TaskBooked(limits, s, s.tasks[i]);
      if InLedger(s, s.tasks[i].event.id) {
        SameTotals(s, Apply(limits, s, a), i);
      } else {
        WriteTotals(limits, s, i);
      }
    case _ => SameTotals(s, Apply(limits, s, a), a.i);
  }

  lemma PublishTotals(s: State, stream: seq<Event>)
    requires Totals(s)
    ensures Totals(s.(stream := stream))
  {}

  // ---------------------------------------------------------------- rows

  /** Deliveries only move forward, and rows are only added. */
  ghost predicate Extends(s: State, s': State) {
    && s.stream <= s'.stream && s.ledger <= s'.ledger && s.log <= s'.log && |s.tasks| <= |s'.tasks|
    && forall i :: 0 <= i < |s.tasks| ==> Later(s.tasks[i], s'.tasks[i])
  }

  ghost predicate Later(t: Task, t': Task) {
    && t'.msg == t.msg && t'.event == t.event && (t.wrote ==> t'.wrote)
    && (t.stage == Done ==> t'.stage == Done)
    && (t.stage == Acking ==> t'.stage == Acking || t'.stage == Done)
  }

  lemma StepExtends(limits: seq<BlockLimit>, s: State, a: Action)
    requires Enabled(limits, s, a)
    ensures Extends(s, Apply(limits, s, a))
  {
    hide KeysFor, LimitsFor, Spend, InLedger, InLog;
    var s' := Apply(limits, s, a);
    assert forall i :: 0 <= i < |s.tasks| && (a.Publish? || a.Deliver? || i != a.i) ==> s'.tasks[i] == s.tasks[i];
  }

  lemma RowsPersist(s: State, s': State)
    requires Extends(s, s')
    ensures forall id :: InLedger(s, id) ==> InLedger(s', id)
    ensures forall id :: InLog(s, id) ==> InLog(s', id)
    ensures forall j: nat :: WrittenBy(s, j) ==> WrittenBy(s', j)
    ensures forall j: nat :: LoggedBy(s, j) ==> LoggedBy(s', j)
    ensures forall m: nat :: AckedBy(s, m) ==> AckedBy(s', m)
  {
    forall id | InLedger(s, id) ensures InLedger(s', id) {
      var j :| 0 <= j < |s.ledger| && s.ledger[j].id == id;
      assert s'.ledger[j].id == id;
    }
    forall id | InLog(s, id) ensures InLog(s', id) {
      var j :| 0 <= j < |s.log| && s.log[j].id == id;
      assert s'.log[j].id == id;
    }
    forall j: nat | WrittenBy(s, j) ensures WrittenBy(s', j) {
      var i :| 0 <= i < |s.tasks| && s.tasks[i].wrote && s.ledger[j] == RowOf(s.tasks[i].event);
      assert Later(s.tasks[i], s'.tasks[i]);
    }
    forall j: nat | LoggedBy(s, j) ensures LoggedBy(s', j) {
      var i :| 0 <= i < |s.tasks| && (s.tasks[i].stage == Acking || s.tasks[i].stage == Done)
               && s.log[j] == LogOf(s.tasks[i].event);
      assert Later(s.tasks[i], s'.tasks[i]);
    }
    forall m: nat | AckedBy(s, m) ensures AckedBy(s', m) {
      var i :| 0 <= i < |s.tasks| && s.tasks[i].msg == m && s.tasks[i].stage == Done;
      assert Later(s.tasks[i], s'.tasks[i]);
    }
  }

  /** The row a step adds is where the step's task will look for it. */
  lemma NewRows(limits: seq<BlockLimit>, s: State, a: Action)
    requires Enabled(limits, s, a)
    ensures a.WriteLedger? ==> InLedger(Apply(limits, s, a), s.tasks[a.i].event.id)
    ensures a.WriteLog? ==> InLog(Apply(limits, s, a), s.tasks[a.i].event.id)
  {
    hide KeysFor, LimitsFor, Spend;
    var s' := Apply(limits, s, a);
    if a.WriteLedger? && !InLedger(s, s.tasks[a.i].event.id) {
      assert s'.ledger[|s.ledger|].id == s.tasks[a.i].event.id;
    }
    if a.WriteLog? && !InLog(s, s.tasks[a.i].event.id) {
      assert s'.log[|s.log|].id == s.tasks[a.i].event.id;
    }
  }

  lemma UntouchedTask(limits: seq<BlockLimit>, s: State, s': State, t: Task)
    requires TaskBooked(limits, s, t) && Extends(s, s')
    ensures TaskBooked(limits, s', t)
  {
    hide TaskOk, InLedger, InLog;
    RowsPersist(s, s');
  }

  lemma MovedTask(limits: seq<BlockLimit>, s: State, a: Action)
    requires Books(limits, s) && Enabled(limits, s, a) && !a.Publish? && !a.Deliver?
    ensures a.i < |Apply(limits, s, a).tasks|
    ensures TaskBooked(limits, Apply(limits, s, a), Apply(limits, s, a).tasks[a.i])
  {
    hide KeysFor, LimitsFor, Spend, InLedger, InLog, WrittenBy, LoggedBy, AckedBy, OneRowPerId, OneWriterPerId;
    assert TaskBooked(limits, s, s.tasks[a.i]);
    StepExtends(limits, s, a);
    UntouchedTask(limits, s, Apply(limits, s, a), s.tasks[a.i]);
    NewRows(limits, s, a);
  }

  lemma NextTasks(limits: seq<BlockLimit>, s: State, a: Action, i: nat)
    requires Books(limits, s) && Enabled(limits, s, a) && i < |Apply(limits, s, a).tasks|
    ensures TaskBooked(limits, Apply(limits, s, a), Apply(limits, s, a).tasks[i])
  {
    hide KeysFor, LimitsFor, Spend, InLedger, InLog, WrittenBy, LoggedBy, AckedBy, OneRowPerId, OneWriterPerId;
    var s' := Apply(limits, s, a);
    StepExtends(limits, s, a);
    if !a.Publish? && !a.Deliver? && i == a.i {
      MovedTask(limits, s, a);
    } else if i < |s.tasks| {
      assert s'.tasks[i] == s.tasks[i];
      UntouchedTask(limits, s, s', s.tasks[i]);
    }
  }

  lemma NextWritten(limits: seq<BlockLimit>, s: State, a: Action)
    requires Books(limits, s) && Enabled(limits, s, a)
    ensures var s' := Apply(limits, s, a);
            && (forall j :: 0 <= j < |s'.ledger| ==> WrittenBy(s', j))
            && (forall j :: 0 <= j < |s'.log| ==> LoggedBy(s', j))
            && (forall m :: m in s'.acked ==> AckedBy(s', m))
  {
    hide KeysFor, LimitsFor, Spend, InLedger, InLog, TaskBooked, OneRowPerId, OneWriterPerId;
    var s' := Apply(limits, s, a);
    StepExtends(limits, s, a);
    RowsPersist(s, s');
    if |s'.ledger| > |s.ledger| {
      assert s'.tasks[a.i].wrote && s'.ledger[|s.ledger|] == RowOf(s'.tasks[a.i].event);
      assert WrittenBy(s', |s.ledger|);
    }
    if |s'.log| > |s.log| {
      assert s'.tasks[a.i].stage == Acking && s'.log[|s.log|] == LogOf(s'.tasks[a.i].event);
      assert LoggedBy(s', |s.log|);
    }
    if a.Ack? {
      assert s'.tasks[a.i].stage == Done;
      assert AckedBy(s', s.tasks[a.i].msg);
    }
  }

  lemma NextUnique(limits: seq<BlockLimit>, s: State, a: Action)
    requires Books(limits, s) && Enabled(limits, s, a)
    ensures OneRowPerId(Apply(limits, s, a)) && OneWriterPerId(Apply(limits, s, a))
  {
    hide KeysFor, LimitsFor, Spend, WrittenBy, LoggedBy, AckedBy;
    var s' := Apply(limits, s, a);
    if a.WriteLedger? && !InLedger(s, s.tasks[a.i].event.id) {
      forall i | 0 <= i < |s.tasks| && i != a.i && s.tasks[i].wrote ensures s.tasks[i].event.id != s.tasks[a.i].event.id {
        assert TaskBooked(limits, s, s.tasks[i]);
      }
    }
  }

  lemma NextBooks(limits: seq<BlockLimit>, s: State, a: Action)
    requires Books(limits, s) && Enabled(limits, s, a)
    ensures Books(limits, Apply(limits, s, a))
  {
    hide TaskBooked, Apply, Enabled;
    var s' := Apply(limits, s, a);
    forall i | 0 <= i < |s'.tasks| ensures TaskBooked(limits, s', s'.tasks[i]) { NextTasks(limits, s, a, i); }
    NextWritten(limits, s, a);
    NextUnique(limits, s, a);
  }

  lemma NextKeepsBooks(limits: seq<BlockLimit>, s: State, s': State)
    requires Books(limits, s) && Totals(s) && Next(limits, s, s')
    ensures Books(limits, s') && Totals(s')
  {
    hide Apply, Enabled, Books, Totals;
    var a :| Enabled(limits, s, a) && s' == Apply(limits, s, a);
    NextBooks(limits, s, a);
    NextTotals(limits, s, a);
  }

  lemma {:induction false} Booked(limits: seq<BlockLimit>, tr: seq<State>, n: nat)
    requires Behaviour(limits, tr) && n < |tr|
    ensures Books(limits, tr[n]) && Totals(tr[n])
  {
    if n > 0 {
      Booked(limits, tr, n - 1);
      NextKeepsBooks(limits, tr[n - 1], tr[n]);
    }
  }

  // ---------------------------------------------------------------- what holds over whole runs

  /** Redelivered copies of one message id carry the same usage, hence the same price. */
  ghost predicate IdsAgree(s: State) {
    forall m, n :: 0 <= m < |s.stream| && 0 <= n < |s.stream| && s.stream[m].id == s.stream[n].id ==>
      s.stream[m].cost == s.stream[n].cost && s.stream[m].catalogued == s.stream[n].catalogued
  }

  ghost predicate HasRows(s: State, m: nat) {
    m < |s.stream| && InLog(s, s.stream[m].id) && (s.stream[m].catalogued ==> InLedger(s, s.stream[m].id))
  }

  /**
   * However deliveries interleave, stop and repeat: one ledger row and one log row per message id,
   * equal costs where both exist, no log row of a catalogued model without its ledger row, and both
   * rows present for every acknowledged message.
   */
  lemma RowsAgree(limits: seq<BlockLimit>, tr: seq<State>, n: nat)
    requires Behaviour(limits, tr) && n < |tr| && IdsAgree(tr[n])
    ensures var s := tr[n];
            && OneRowPerId(s)
            && (forall i, j :: 0 <= i < |s.ledger| && 0 <= j < |s.log| && s.ledger[i].id == s.log[j].id ==> s.ledger[i].cost == s.log[j].cost)
            && (forall m, j :: 0 <= m < |s.stream| && 0 <= j < |s.log| && s.stream[m].id == s.log[j].id && s.stream[m].catalogued ==>
                  InLedger(s, s.log[j].id))
            && (forall j :: 0 <= j < |s.log| && !InLedger(s, s.log[j].id) ==> s.log[j].cost == 0)
            && (forall m :: m in s.acked ==> HasRows(s, m))
  {
    hide LimitsFor, KeysFor, OneWriterPerId;
    var s := tr[n];
    Booked(limits, tr, n);
    forall i, j | 0 <= i < |s.ledger| && 0 <= j < |s.log| && s.ledger[i].id == s.log[j].id ensures s.ledger[i].cost == s.log[j].cost {
      assert WrittenBy(s, i) && LoggedBy(s, j);
      var a :| 0 <= a < |s.tasks| && s.tasks[a].wrote && s.ledger[i] == RowOf(s.tasks[a].event);
      var b :| 0 <= b < |s.tasks| && s.log[j] == LogOf(s.tasks[b].event);
      assert TaskBooked(limits, s, s.tasks[a]) && TaskBooked(limits, s, s.tasks[b]);
    }
    forall m, j | 0 <= m < |s.stream| && 0 <= j < |s.log| && s.stream[m].id == s.log[j].id && s.stream[m].catalogued
      ensures InLedger(s, s.log[j].id)
    {
      assert LoggedBy(s, j);
      var b :| 0 <= b < |s.tasks| && (s.tasks[b].stage == Acking || s.tasks[b].stage == Done)
               && s.log[j] == LogOf(s.tasks[b].event);
      assert TaskBooked(limits, s, s.tasks[b]);
    }
    forall j | 0 <= j < |s.log| && !InLedger(s, s.log[j].id) ensures s.log[j].cost == 0 {
      assert LoggedBy(s, j);
      var b :| 0 <= b < |s.tasks| && (s.tasks[b].stage == Acking || s.tasks[b].stage == Done)
               && s.log[j] == LogOf(s.tasks[b].event);
      assert TaskBooked(limits, s, s.tasks[b]);
    }
    forall m | m in s.acked
      ensures HasRows(s, m)
    {
      assert AckedBy(s, m);
      var b :| 0 <= b < |s.tasks| && s.tasks[b].msg == m && s.tasks[b].stage == Done;
      assert TaskBooked(limits, s, s.tasks[b]);
    }
  }

  ghost predicate Covered(w: Task, bs: seq<Task>, f: Task -> int, g: Task -> int) {
    f(w) == 0 || exists j :: 0 <= j < |bs| && bs[j].event.id == w.event.id && f(w) <= g(bs[j])
  }

  /** If each amount has its own message id and some delivery of that id covers it, totals follow. */
  lemma {:induction false} CoveredTotals(ws: seq<Task>, bs: seq<Task>, f: Task -> int, g: Task -> int)
    requires forall i :: 0 <= i < |ws| ==> Covered(ws[i], bs, f, g)
    requires forall i, j :: 0 <= i < j < |ws| && f(ws[i]) != 0 && f(ws[j]) != 0 ==> ws[i].event.id != ws[j].event.id
    requires forall j :: 0 <= j < |bs| ==> g(bs[j]) >= 0
    ensures Sum(ws, f) <= Sum(bs, g)
  {
    if ws == [] {
      NonNegativeTotal(bs, g);
    } else {
      var n := |ws| - 1;
      var w := ws[n];
      if f(w) == 0 {
        CoveredTotals(ws[..n], bs, f, g);
      } else {
        assert Covered(w, bs, f, g);
        var j :| 0 <= j < |bs| && bs[j].event.id == w.event.id && f(w) <= g(bs[j]);
        var rest := bs[..j] + bs[j + 1..];
        forall i | 0 <= i < n ensures Covered(ws[..n][i], rest, f, g) {
          assert Covered(ws[i], bs, f, g);
          if f(ws[i]) != 0 {
            var b :| 0 <= b < |bs| && bs[b].event.id == ws[i].event.id && f(ws[i]) <= g(bs[b]);
            assert b != j;
            assert rest[if b < j then b else b - 1] == bs[b];
          }
        }
        CoveredTotals(ws[..n], rest, f, g);
        SumRemove(bs, j, g);
      }
    }
  }

  lemma NonNegativeTotal(bs: seq<Task>, g: Task -> int)
    requires forall j :: 0 <= j < |bs| ==> g(bs[j]) >= 0
    ensures Sum(bs, g) >= 0
  {
    SumZero(bs, Busy(0));
    SumMonotone(bs, Busy(0), g);
  }

  /** Every message that was ever delivered has been acknowledged. */
  ghost predicate AllAcked(s: State) {
    forall i :: 0 <= i < |s.tasks| ==> s.tasks[i].msg in s.acked
  }

  /**
   * Once all deliveries are acknowledged, an account-level counter is at least the billed ledger
   * total of its bucket: stopped deliveries may make it larger, never smaller.
   */
  lemma CounterCoversLedger(limits: seq<BlockLimit>, tr: seq<State>, n: nat, k: BudgetKey)
    requires Behaviour(limits, tr) && n < |tr| && AccountLevel(k) && OwnSpelling(tr[n], k) && AllAcked(tr[n])
    requires forall e :: e in tr[n].stream ==> e.cost >= 0
    ensures Get(tr[n].counters, k) >= LedgerTotal(tr[n], k)
  {
    hide Books, AllAcked, KeysFor, Sum, Covered, AccountLevel, LedgerTotal, OwnSpelling;
    var s := tr[n];
    Booked(limits, tr, n);
    RecordedIsWritten(limits, s, k);
    TaskCosts(limits, s);
    forall i | 0 <= i < |s.tasks| ensures Covered(s.tasks[i], s.tasks, Written(k), Bumped(k)) {
      WriterCovered(limits, s, i, k);
    }
    WritersDiffer(limits, s, k);
    assert forall b :: 0 <= b < |s.tasks| ==> s.tasks[b] in s.tasks;
    CoveredTotals(s.tasks, s.tasks, Written(k), Bumped(k));
  }

  /** Some delivery of a writer's message went through, and bumped what the writer's row counts towards. */
  lemma WriterCovered(limits: seq<BlockLimit>, s: State, i: nat, k: BudgetKey)
    requires Books(limits, s) && AllAcked(s) && i < |s.tasks|
    ensures Covered(s.tasks[i], s.tasks, Written(k), Bumped(k))
  {
    hide LimitsFor, KeysFor, Sum, OneRowPerId, InLedger, InLog;
    assert TaskBooked(limits, s, s.tasks[i]);
    assert AckedBy(s, s.tasks[i].msg);
    var b :| 0 <= b < |s.tasks| && s.tasks[b].msg == s.tasks[i].msg && s.tasks[b].stage == Done;
    assert TaskBooked(limits, s, s.tasks[b]);
    var ks := KeysFor(s.tasks[b].event);
    assert ks[..|ks|] == ks;
  }

  /** No message id was taken up by more than one delivery. */
  ghost predicate ProcessedOnce(s: State) {
    forall i, j :: 0 <= i < j < |s.tasks| ==> s.tasks[i].event.id != s.tasks[j].event.id
  }

  /** With every message id processed exactly once, counter and ledger agree to the unit. */
  lemma CounterEqualsLedger(limits: seq<BlockLimit>, tr: seq<State>, n: nat, k: BudgetKey)
    requires Behaviour(limits, tr) && n < |tr| && AccountLevel(k) && OwnSpelling(tr[n], k) && AllAcked(tr[n]) && ProcessedOnce(tr[n])
    ensures Get(tr[n].counters, k) == LedgerTotal(tr[n], k)
  {
    hide LimitsFor, KeysFor, Sum, InLog;
    var s := tr[n];
    Booked(limits, tr, n);
    RecordedIsWritten(limits, s, k);
    forall i | 0 <= i < |s.tasks| ensures Written(k)(s.tasks[i]) == Bumped(k)(s.tasks[i]) {
      OnceDone(limits, s, i, k);
    }
    SumMonotone(s.tasks, Written(k), Bumped(k));
    SumMonotone(s.tasks, Bumped(k), Written(k));
  }

  lemma OnceDone(limits: seq<BlockLimit>, s: State, i: nat, k: BudgetKey)
    requires Books(limits, s) && AllAcked(s) && ProcessedOnce(s) && i < |s.tasks|
    ensures Written(k)(s.tasks[i]) == Bumped(k)(s.tasks[i])
  {
    hide LimitsFor, KeysFor, InLog;
    var t := s.tasks[i];
    assert TaskBooked(limits, s, t) && AckedBy(s, t.msg);
    var b :| 0 <= b < |s.tasks| && s.tasks[b].msg == t.msg && s.tasks[b].stage == Done;
    assert TaskBooked(limits, s, s.tasks[b]);
    assert b == i;
    var ks := KeysFor(t.event);
    assert ks[..|ks|] == ks;
    if t.event.catalogued {
      var j :| 0 <= j < |s.ledger| && s.ledger[j].id == t.event.id;
      assert WrittenBy(s, j);
      var w :| 0 <= w < |s.tasks| && s.tasks[w].wrote && s.ledger[j] == RowOf(s.tasks[w].event);
      assert w == i;
    }
  }

  // ---------------------------------------------------------------- exactly when they agree

  /** Copies of one message id are copies: they carry the same event. */
  ghost predicate SameEvents(s: State) {
    forall m, n :: 0 <= m < |s.stream| && 0 <= n < |s.stream| && s.stream[m].id == s.stream[n].id ==> s.stream[m] == s.stream[n]
  }

  /** Two deliveries of one message id both charged counter k. */
  ghost predicate ChargedTwice(s: State, k: BudgetKey, i: int, j: int) {
    0 <= i < j < |s.tasks| && s.tasks[i].event.id == s.tasks[j].event.id && Bumped(k)(s.tasks[i]) != 0 && Bumped(k)(s.tasks[j]) != 0
  }

  /** Whoever bumped a counter finds the row of its message id in the ledger, at the same cost. */
  lemma BumpCovered(limits: seq<BlockLimit>, s: State, i: nat, k: BudgetKey)
    requires Books(limits, s) && SameEvents(s) && i < |s.tasks|
    ensures Covered(s.tasks[i], s.tasks, Bumped(k), Written(k))
  {
    hide LimitsFor, KeysFor, Sum, OneRowPerId, InLog;
    var t := s.tasks[i];
    assert TaskBooked(limits, s, t);
    if Bumped(k)(t) != 0 {
      var j :| 0 <= j < |s.ledger| && s.ledger[j].id == t.event.id;
      assert WrittenBy(s, j);
      var w :| 0 <= w < |s.tasks| && s.tasks[w].wrote && s.ledger[j] == RowOf(s.tasks[w].event);
      assert TaskBooked(limits, s, s.tasks[w]);
      assert s.tasks[w].event == t.event;
    }
  }

  lemma SameEventOf(limits: seq<BlockLimit>, s: State, i: nat, j: nat)
    requires Books(limits, s) && SameEvents(s) && i < |s.tasks| && j < |s.tasks| && s.tasks[i].event.id == s.tasks[j].event.id
    ensures s.tasks[i].event == s.tasks[j].event
  {
    hide TaskOk, InLedger, InLog, WrittenBy, LoggedBy, AckedBy, OneRowPerId, OneWriterPerId;
    assert TaskBooked(limits, s, s.tasks[i]) && TaskBooked(limits, s, s.tasks[j]);
  }

  /** With delivery j left out, its twin i still covers the writer of their message id. */
  lemma TwinCovers(s: State, k: BudgetKey, i: int, j: int, w: nat)
    requires ChargedTwice(s, k, i, j) && s.tasks[i].event == s.tasks[j].event && w < |s.tasks|
    requires Covered(s.tasks[w], s.tasks, Written(k), Bumped(k))
    ensures Covered(s.tasks[w], s.tasks[..j] + s.tasks[j + 1..], Written(k), Bumped(k))
  {
    hide KeysFor;
    var rest := s.tasks[..j] + s.tasks[j + 1..];
    if Written(k)(s.tasks[w]) != 0 {
      var b :| 0 <= b < |s.tasks| && s.tasks[b].event.id == s.tasks[w].event.id && Written(k)(s.tasks[w]) <= Bumped(k)(s.tasks[b]);
      var b' := if b == j then i else b;
      assert rest[if b' < j then b' else b' - 1] == s.tasks[b'];
    }
  }

  lemma WritersDiffer(limits: seq<BlockLimit>, s: State, k: BudgetKey)
    requires Books(limits, s)
    ensures forall i, j :: 0 <= i < j < |s.tasks| && Written(k)(s.tasks[i]) != 0 && Written(k)(s.tasks[j]) != 0 ==>
              s.tasks[i].event.id != s.tasks[j].event.id
  {
    hide KeysFor, TaskBooked, WrittenBy, LoggedBy, AckedBy, OneRowPerId;
  }

  /** A second charge for one message id is more than the ledger knows of. */
  lemma ChargedTwiceExceeds(limits: seq<BlockLimit>, s: State, k: BudgetKey, i: int, j: int)
    requires Books(limits, s) && AllAcked(s) && SameEvents(s) && ChargedTwice(s, k, i, j)
    requires forall t :: t in s.tasks ==> t.event.cost >= 0
    ensures Sum(s.tasks, Written(k)) < Sum(s.tasks, Bumped(k))
  {
    hide Books, AllAcked, SameEvents, KeysFor, Sum, Covered;
    var rest := s.tasks[..j] + s.tasks[j + 1..];
    SameEventOf(limits, s, i, j);
    forall w | 0 <= w < |s.tasks| ensures Covered(s.tasks[w], rest, Written(k), Bumped(k)) {
      WriterCovered(limits, s, w, k);
      TwinCovers(s, k, i, j, w);
    }
    WritersDiffer(limits, s, k);
    assert forall b :: 0 <= b < |rest| ==> rest[b] in s.tasks;
    CoveredTotals(s.tasks, rest, Written(k), Bumped(k));
    SumRemove(s.tasks, j, Bumped(k));
    assert s.tasks[j] in s.tasks;
  }

  /** Without a second charge the counter is no more than the ledger. */
  lemma ChargedOnceWithin(limits: seq<BlockLimit>, s: State, k: BudgetKey)
    requires Books(limits, s) && SameEvents(s) && !exists i, j :: ChargedTwice(s, k, i, j)
    requires forall t :: t in s.tasks ==> t.event.cost >= 0
    ensures Sum(s.tasks, Bumped(k)) <= Sum(s.tasks, Written(k))
  {
    hide Books, SameEvents, KeysFor, Sum, Covered;
    forall i | 0 <= i < |s.tasks| ensures Covered(s.tasks[i], s.tasks, Bumped(k), Written(k)) {
      BumpCovered(limits, s, i, k);
    }
    forall i, j | 0 <= i < j < |s.tasks| && Bumped(k)(s.tasks[i]) != 0 && Bumped(k)(s.tasks[j]) != 0
      ensures s.tasks[i].event.id != s.tasks[j].event.id
    {
      assert !ChargedTwice(s, k, i, j);
    }
    assert forall b :: 0 <= b < |s.tasks| ==> s.tasks[b] in s.tasks;
    CoveredTotals(s.tasks, s.tasks, Bumped(k), Written(k));
  }

  lemma TaskCosts(limits: seq<BlockLimit>, s: State)
    requires Books(limits, s) && forall e :: e in s.stream ==> e.cost >= 0
    ensures forall t :: t in s.tasks ==> t.event.cost >= 0
  {
    hide TaskOk, InLedger, InLog, WrittenBy, LoggedBy, AckedBy, OneRowPerId, OneWriterPerId;
    forall t | t in s.tasks ensures t.event.cost >= 0 {
      var i :| 0 <= i < |s.tasks| && s.tasks[i] == t;
      assert TaskBooked(limits, s, s.tasks[i]);
    }
  }

  /**
   * Once everything delivered is acknowledged, an account-level counter equals the ledger total of
   * its bucket if and only if no message id was charged to it by two deliveries. A delivery that
   * stopped before its increments and was repeated does no harm; one that stopped after them does.
   */
  lemma CounterEqualsLedgerIff(limits: seq<BlockLimit>, tr: seq<State>, n: nat, k: BudgetKey)
    requires Behaviour(limits, tr) && n < |tr| && AccountLevel(k) && OwnSpelling(tr[n], k) && AllAcked(tr[n]) && SameEvents(tr[n])
    requires forall e :: e in tr[n].stream ==> e.cost >= 0
    ensures Get(tr[n].counters, k) == LedgerTotal(tr[n], k) <==> !exists i, j :: ChargedTwice(tr[n], k, i, j)
  {
    hide Books, AllAcked, SameEvents, AccountLevel, LedgerTotal, ChargedTwice, OwnSpelling;
    var s := tr[n];
    Booked(limits, tr, n);
    RecordedIsWritten(limits, s, k);
    TaskCosts(limits, s);
    if i, j :| ChargedTwice(s, k, i, j) {
      ChargedTwiceExceeds(limits, s, k, i, j);
    } else {
      CounterCoversLedger(limits, tr, n, k);
      ChargedOnceWithin(limits, s, k);
    }
  }

  // ---------------------------------------------------------------- what the ledger fallback reads

  /** Billed rows of the limit's tenant and provider from the end of the period on. */
  ghost function LaterRow(l: BlockLimit, t: Instant): LedgerRow -> int {
    (r: LedgerRow) =>
      if r.tenant == l.tenant && r.billed && (l.provider == "" || r.provider == l.provider) && r.time >= PeriodEnd(l.period, t)
      then r.cost else 0
  }

  lemma RowReadOnce(l: BlockLimit, t: Instant, r: LedgerRow)
    requires l.scope == Account
    ensures DbRow(l, t)(r) == RowSpend(SpendKey(l, t))(r) + LaterRow(l, t)(r)
  {
    BucketIsPeriod(l.period, t, r.time);
    PeriodOfBucket(l.period, t);
    hide BucketOf, PeriodStart, PeriodEnd;
  }

  lemma PeriodOfBucket(p: Period, t: Instant)
    ensures PeriodOf(BucketOf(p, t)) == p
  {
    hide CivilDate, IsoYear, IsoWeek;
  }

  /**
   * Without a counter the spend of an account limit is the ledger total of its bucket if and only if
   * the billed rows of its tenant and provider after the period add up to nothing: the query has a
   * lower bound on the time and no upper one.
   */
  lemma FallbackReadsBucketIff(s: State, l: BlockLimit, t: Instant)
    requires l.scope == Account && SpendKey(l, t) !in s.counters
    ensures Spend(s, l, t) == LedgerTotal(s, SpendKey(l, t)) <==> Sum(s.ledger, LaterRow(l, t)) == 0
  {
    hide SpendKey, DbRow, RowSpend, LaterRow, Sum;
    forall j | 0 <= j < |s.ledger|
      ensures DbRow(l, t)(s.ledger[j]) == RowSpend(SpendKey(l, t))(s.ledger[j]) + LaterRow(l, t)(s.ledger[j])
    {
      RowReadOnce(l, t, s.ledger[j]);
    }
    SumAdd(s.ledger, DbRow(l, t), RowSpend(SpendKey(l, t)), LaterRow(l, t));
  }

  /** The row bears on the limit: same tenant, a provider the limit is about, billed, not before the period. */
  predicate Bears(l: BlockLimit, t: Instant, r: LedgerRow) {
    r.tenant == l.tenant && r.billed && l.provider in {"", r.provider} && PeriodStart(l.period, t) <= r.time
  }

  /**
   * A row anywhere in the ledger changes the spend of an account limit without a counter by its cost
   * if it bears on the limit; rows of other tenants, other providers, unbilled or earlier ones never
   * change any spend, nor does any row change the spend of a limit with a counter or of a key.
   */
  lemma RowChangesSpendIff(s: State, l: BlockLimit, t: Instant, above: seq<LedgerRow>, r: LedgerRow, below: seq<LedgerRow>)
    ensures var read := l.scope == Account && SpendKey(l, t) !in s.counters && Bears(l, t, r);
            Spend(s.(ledger := above + [r] + below), l, t) == Spend(s.(ledger := above + below), l, t) + (if read then r.cost else 0)
  {
    hide SpendKey, PeriodStart, Sum;
    SumConcat(above + [r], below, DbRow(l, t));
    SumAppend(above, r, DbRow(l, t));
    SumConcat(above, below, DbRow(l, t));
  }
}
