/**
 * The usage worker and the pricing engine as one concurrent machine: messages are delivered at
 * least once, each delivery checks the blocking budgets, inserts an idempotent ledger row, bumps
 * up to twelve spend counters, inserts a usage log row and acknowledges; it may stop for good at
 * any point. Each Redis or database command is one atomic step. Money is in integer units.
 */
module UsagePipeline {
  import opened Sums
  import opened Calendar
  import opened RedisKeys

  /**
   * A usage event. If the model is catalogued, `resolved` is the catalogue's name of the provider, which
   * is found without regard to case, and `cost` is what the fixed prices give.
   */
  datatype Event = Event(id: string, tenant: nat, keyId: string, provider: string, time: Instant,
                         billed: bool, catalogued: bool, resolved: string, cost: int)

  datatype Scope = Account | ApiKey(id: string)

  /** A budget row whose action is "block". */
  datatype BlockLimit = BlockLimit(tenant: nat, scope: Scope, provider: string, period: Period, amount: int)

  datatype LedgerRow = LedgerRow(id: string, tenant: nat, provider: string, time: Instant, billed: bool, cost: int)

  datatype LogRow = LogRow(id: string, cost: int)

  datatype Stage = Checking | Writing | Bumping | Logging | Acking | Done

  /** One delivery of a message. */
  datatype Task = Task(msg: nat, event: Event, stage: Stage, checked: nat, wrote: bool, bumped: nat, live: bool)

  datatype State = State(stream: seq<Event>, acked: set<nat>, ledger: seq<LedgerRow>, log: seq<LogRow>,
                         counters: map<BudgetKey, int>, tasks: seq<Task>)

  const INIT := State([], {}, [], [], map[], [])

  // ---------------------------------------------------------------- counters and limits

  function PeriodKeys(e: Event, p: Period): seq<BudgetKey> {
    var b := BucketOf(p, e.time);
    [AccountSpend(e.tenant, b)]
    + (if e.provider != "" then [ProviderSpend(e.tenant, e.provider, b)] else [])
    + (if e.keyId != "" then
         [KeySpend(e.keyId, b)] + (if e.provider != "" then [KeyProviderSpend(e.keyId, e.provider, b)] else [])
       else [])
  }

  /** The counters incrementBudget bumps, in order; none for usage that is not billed. */
  function KeysFor(e: Event): seq<BudgetKey> {
    if e.billed then PeriodKeys(e, Monthly) + PeriodKeys(e, Weekly) + PeriodKeys(e, Daily) else []
  }

  /** The rows checkBudget compares against. */
  predicate Concerns(l: BlockLimit, e: Event) {
    && l.tenant == e.tenant
    && (l.scope.ApiKey? ==> l.scope.id == e.keyId)
    && (l.provider == "" || l.provider == e.provider)
  }

  function LimitsFor(limits: seq<BlockLimit>, e: Event): seq<BlockLimit> {
    if limits == [] then []
    else
      var l := limits[|limits| - 1];
      LimitsFor(limits[..|limits| - 1], e) + (if Concerns(l, e) then [l] else [])
  }

  /** The counter getSpend reads for a limit. */
  function SpendKey(l: BlockLimit, t: Instant): BudgetKey {
    var b := BucketOf(l.period, t);
    if l.provider != "" then
      if l.scope.ApiKey? then KeyProviderSpend(l.scope.id, l.provider, b) else ProviderSpend(l.tenant, l.provider, b)
    else
      if l.scope.ApiKey? then KeySpend(l.scope.id, b) else AccountSpend(l.tenant, b)
  }

  function DbRow(l: BlockLimit, t: Instant): LedgerRow -> int {
    (r: LedgerRow) =>
      if r.tenant == l.tenant && r.time >= PeriodStart(l.period, t) && r.billed && (l.provider == "" || r.provider == l.provider)
      then r.cost else 0
  }

  /** getSpend: the counter if Redis has it, else the ledger for account limits and zero for keys. */
  function Spend(s: State, l: BlockLimit, t: Instant): int {
    var k := SpendKey(l, t);
    if k in s.counters then s.counters[k]
    else if l.scope == Account then Sum(s.ledger, DbRow(l, t))
    else 0
  }

  // ---------------------------------------------------------------- steps

  datatype Action =
    | Publish(event: Event)
    | Deliver(msg: nat)      // first delivery or redelivery of a message that is not acknowledged
    | CheckOne(i: nat)
    | EndChecks(i: nat)
    | WriteLedger(i: nat)
    | Bump(i: nat)
    | EndBumps(i: nat)
    | WriteLog(i: nat)
    | Ack(i: nat)
    | Stop(i: nat)           // a crash or an error return: no acknowledgement

  predicate LiveAt(s: State, i: nat, stage: Stage) {
    i < |s.tasks| && s.tasks[i].live && s.tasks[i].stage == stage
  }

  predicate Enabled(limits: seq<BlockLimit>, s: State, a: Action) {
    match a
    case Publish(_) => true
    case Deliver(m) => m < |s.stream| && m !in s.acked
    case CheckOne(i) => LiveAt(s, i, Checking) && s.tasks[i].checked < |LimitsFor(limits, s.tasks[i].event)|
    case EndChecks(i) => LiveAt(s, i, Checking) && s.tasks[i].checked == |LimitsFor(limits, s.tasks[i].event)|
    case WriteLedger(i) => LiveAt(s, i, Writing)
    case Bump(i) => LiveAt(s, i, Bumping) && s.tasks[i].bumped < |KeysFor(s.tasks[i].event)|
    case EndBumps(i) => LiveAt(s, i, Bumping) && s.tasks[i].bumped == |KeysFor(s.tasks[i].event)|
    case WriteLog(i) => LiveAt(s, i, Logging)
    case Ack(i) => LiveAt(s, i, Acking)
    case Stop(i) => i < |s.tasks| && s.tasks[i].live
  }

  predicate InLedger(s: State, id: string) {
    exists j :: 0 <= j < |s.ledger| && s.ledger[j].id == id
  }

  predicate InLog(s: State, id: string) {
    exists j :: 0 <= j < |s.log| && s.log[j].id == id
  }

  /** The ledger row names the resolved provider; limits and counters use the event's own spelling. */
  function RowOf(e: Event): LedgerRow {
    LedgerRow(e.id, e.tenant, e.resolved, e.time, e.billed, e.cost)
  }

  /** The usage log row; an uncatalogued model is logged at zero cost. */
  function LogOf(e: Event): LogRow {
    LogRow(e.id, if e.catalogued then e.cost else 0)
  }

  function Start(m: nat, e: Event): Task {
    Task(m, e, if e.catalogued then Checking else Logging, 0, false, 0, true)
  }

  ghost function Apply(limits: seq<BlockLimit>, s: State, a: Action): State
    requires Enabled(limits, s, a)
  {
    match a
    case Publish(e) => s.(stream := s.stream + [e])
    case Deliver(m) => s.(tasks := s.tasks + [Start(m, s.stream[m])])
    case CheckOne(i) =>
      var t := s.tasks[i];
      var l := LimitsFor(limits, t.event)[t.checked];
      if Spend(s, l, t.event.time) + t.event.cost > l.amount
      then s.(tasks := s.tasks[i := t.(live := false)])
      else s.(tasks := s.tasks[i := t.(checked := t.checked + 1)])
    case EndChecks(i) => s.(tasks := s.tasks[i := s.tasks[i].(stage := Writing)])
    case WriteLedger(i) =>
      var t := s.tasks[i];
      if InLedger(s, t.event.id)
      then s.(tasks := s.tasks[i := t.(stage := Bumping)])
      else s.(ledger := s.ledger + [RowOf(t.event)], tasks := s.tasks[i := t.(stage := Bumping, wrote := true)])
    case Bump(i) =>
      var t := s.tasks[i];
      s.(counters := IncrBy(s.counters, KeysFor(t.event)[t.bumped], t.event.cost),
         tasks := s.tasks[i := t.(bumped := t.bumped + 1)])
    case EndBumps(i) => s.(tasks := s.tasks[i := s.tasks[i].(stage := Logging)])
    case WriteLog(i) =>
      var t := s.tasks[i];
      s.(log := if InLog(s, t.event.id) then s.log else s.log + [LogOf(t.event)],
         tasks := s.tasks[i := t.(stage := Acking)])
    case Ack(i) => s.(acked := s.acked + {s.tasks[i].msg}, tasks := s.tasks[i := s.tasks[i].(stage := Done, live := false)])
    case Stop(i) => s.(tasks := s.tasks[i := s.tasks[i].(live := false)])
  }

  ghost predicate Next(limits: seq<BlockLimit>, s: State, s': State) {
    exists a :: Enabled(limits, s, a) && s' == Apply(limits, s, a)
  }

  ghost predicate Behaviour(limits: seq<BlockLimit>, tr: seq<State>) {
    tr != [] && tr[0] == INIT && forall i :: 0 <= i < |tr| - 1 ==> Next(limits, tr[i], tr[i + 1])
  }

  // ---------------------------------------------------------------- distinct counters

  ghost predicate Distinct(ks: seq<BudgetKey>) {
    forall i, j :: 0 <= i < j < |ks| ==> ks[i] != ks[j]
  }

  lemma PeriodKeysShape(e: Event, p: Period)
    ensures Distinct(PeriodKeys(e, p))
    ensures forall k :: k in PeriodKeys(e, p) ==> k.bucket == BucketOf(p, e.time)
  {
    hide BucketOf;
  }

  lemma KeysDistinct(e: Event)
    ensures Distinct(KeysFor(e))
  {
    hide PeriodKeys, CivilDate, IsoYear, IsoWeek;
    PeriodKeysShape(e, Monthly);
    PeriodKeysShape(e, Weekly);
    PeriodKeysShape(e, Daily);
  }

  // ---------------------------------------------------------------- the machine on Redis itself

  lemma EventKeysValid(e: Event)
    requires ':' !in e.keyId
    ensures forall k :: k in KeysFor(e) ==> ValidBudgetKey(k)
  {
    hide BucketOf, ValidBucket, PeriodKeys;
    BucketsAreValid(Monthly, e.time);
    BucketsAreValid(Weekly, e.time);
    BucketsAreValid(Daily, e.time);
    PeriodKeysValid(e, Monthly);
    PeriodKeysValid(e, Weekly);
    PeriodKeysValid(e, Daily);
  }

  lemma PeriodKeysValid(e: Event, p: Period)
    requires ':' !in e.keyId && ValidBucket(BucketOf(p, e.time))
    ensures forall k :: k in PeriodKeys(e, p) ==> ValidBudgetKey(k)
  {
    hide BucketOf, ValidBucket;
  }

  /** While key ids are free of colons, a bump of the machine is one INCRBY on one Redis key. */
  lemma BumpOnRedis(limits: seq<BlockLimit>, s: State, i: nat, store: map<string, int>)
    requires HoldsBudgets(store, s.counters)
    requires i < |s.tasks| && Enabled(limits, s, Bump(i)) && ':' !in s.tasks[i].event.keyId
    ensures var e := s.tasks[i].event;
            var k := KeysFor(e)[s.tasks[i].bumped];
            ValidBudgetKey(k) && HoldsBudgets(IncrBy(store, RenderBudgetKey(k), e.cost), Apply(limits, s, Bump(i)).counters)
  {
    hide RenderBudgetKey, KeysFor, BucketOf, ValidBucket;
    var e := s.tasks[i].event;
    EventKeysValid(e);
    IncrByOnBudgetKey(store, s.counters, KeysFor(e)[s.tasks[i].bumped], e.cost);
  }

  /** And the spend a check reads is what Redis holds under the limit's key, if it holds anything. */
  lemma SpendOnRedis(s: State, store: map<string, int>, l: BlockLimit, t: Instant)
    requires HoldsBudgets(store, s.counters) && (l.scope.ApiKey? ==> ':' !in l.scope.id)
    ensures var k := SpendKey(l, t);
            && ValidBudgetKey(k)
            && (k in s.counters <==> RenderBudgetKey(k) in store)
            && (k in s.counters ==> Spend(s, l, t) == store[RenderBudgetKey(k)])
  {
    hide RenderBudgetKey, BucketOf, ValidBucket;
    BucketsAreValid(l.period, t);
    assert ValidBudgetKey(SpendKey(l, t));
  }

  // ---------------------------------------------------------------- what a delivery has done

  ghost predicate TaskOk(limits: seq<BlockLimit>, t: Task) {
    && t.checked <= |LimitsFor(limits, t.event)|
    && t.bumped <= |KeysFor(t.event)|
    && (t.stage == Checking || t.stage == Writing ==> t.bumped == 0 && !t.wrote)
    && (t.stage != Checking && t.event.catalogued ==> t.checked == |LimitsFor(limits, t.event)|)
    && (t.event.catalogued && (t.stage == Logging || t.stage == Acking || t.stage == Done) ==> t.bumped == |KeysFor(t.event)|)
    && (!t.event.catalogued ==> t.bumped == 0 && !t.wrote && (t.stage == Logging || t.stage == Acking || t.stage == Done))
  }

  /** What the delivery has added to counter k. */
  ghost function Bumped(k: BudgetKey): Task -> int {
    (t: Task) => if t.bumped <= |KeysFor(t.event)| && k in KeysFor(t.event)[..t.bumped] then t.event.cost else 0
  }

  ghost predicate PassedLimit(limits: seq<BlockLimit>, t: Task, l: BlockLimit) {
    t.stage != Checking || (t.checked <= |LimitsFor(limits, t.event)| && l in LimitsFor(limits, t.event)[..t.checked])
  }

  /** What a delivery that passed limit l may still add to counter k. */
  ghost function Owed(limits: seq<BlockLimit>, l: BlockLimit, k: BudgetKey): Task -> int {
    (t: Task) =>
      if t.live && t.event.catalogued && PassedLimit(limits, t, l) &&
         t.bumped <= |KeysFor(t.event)| && k in KeysFor(t.event)[t.bumped..]
      then t.event.cost else 0
  }

  /** The call that checks, inserts and bumps is under way; logging and acknowledging come after it. */
  predicate Processing(t: Task) {
    t.live && (t.stage == Checking || t.stage == Writing || t.stage == Bumping)
  }

  ghost function Busy(c: int): Task -> int {
    (t: Task) => if Processing(t) then c else 0
  }

  /** Processing calls in flight. */
  ghost function InFlight(s: State): int {
    Sum(s.tasks, Busy(1))
  }

  lemma {:induction false} BusyScale(ts: seq<Task>, c: int)
    ensures Sum(ts, Busy(c)) == c * Sum(ts, Busy(1))
  {
    if ts != [] {
      BusyScale(ts[..|ts| - 1], c);
    }
  }
}
