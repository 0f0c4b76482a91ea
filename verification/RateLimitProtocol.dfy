/**
 * The rate limiter under concurrency. Every INCRBY and DECRBY is one atomic step on the shared
 * store; the steps of any number of requests interleave freely. A request increments all its
 * counters, inspects the values Redis returned, and then keeps or rolls back all of them; once
 * answered it may give part of its output-token reservation back.
 */
module RateLimitProtocol {
  import opened Sums
  import opened RedisKeys
  import opened RateLimits

  datatype Status = Incrementing | RollingBack | Admitted | Rejected

  datatype Request = Request(
    call: Call,
    now: nat,                // Unix seconds at which Check read the clock
    entries: seq<Entry>,
    seen: seq<int>,          // values returned by the INCRBYs executed so far
    undone: nat,             // DECRBYs of the rollback executed so far
    status: Status,
    reconciled: bool,        // Reconcile was called
    actual: int,             // output tokens reported to Reconcile
    reconciledAt: nat,       // Unix seconds at which Reconcile read the clock
    releases: seq<Entry>,    // DECRBYs Reconcile issues
    released: nat            // how many of them have been executed
  )

  datatype State = State(counters: map<RateKey, int>, requests: seq<Request>)

  datatype Action =
    | Arrive(call: Call, now: nat)
    | Increment(i: nat)
    | Decide(i: nat)
    | Undo(i: nat)
    | Reject(i: nat)
    | BeginReconcile(i: nat, actual: int, now: nat)
    | Release(i: nat)

  const INIT := State(map[], [])

  predicate Passed(r: Request) {
    |r.seen| == |r.entries| && forall j :: 0 <= j < |r.seen| ==> r.seen[j] <= r.entries[j].limit.value
  }

  predicate Enabled(s: State, a: Action) {
    match a
    case Arrive(_, _) => true
    case Increment(i) => i < |s.requests| && s.requests[i].status == Incrementing && |s.requests[i].seen| < |s.requests[i].entries|
    case Decide(i) => i < |s.requests| && s.requests[i].status == Incrementing && |s.requests[i].seen| == |s.requests[i].entries|
    case Undo(i) => i < |s.requests| && s.requests[i].status == RollingBack && s.requests[i].undone < |s.requests[i].entries|
    case Reject(i) => i < |s.requests| && s.requests[i].status == RollingBack && s.requests[i].undone == |s.requests[i].entries|
    case BeginReconcile(i, _, _) => i < |s.requests| && s.requests[i].status == Admitted && s.requests[i].releases == []
    case Release(i) => i < |s.requests| && s.requests[i].status == Admitted && s.requests[i].released < |s.requests[i].releases|
  }

  function Apply(limits: seq<Limit>, s: State, a: Action): State
    requires Enabled(s, a)
  {
    match a
    case Arrive(call, now) =>
      s.(requests := s.requests + [Request(call, now, Entries(limits, call, now), [], 0, Incrementing, false, 0, now, [], 0)])
    case Increment(i) =>
      var r := s.requests[i];
      var e := r.entries[|r.seen|];
      var c := IncrBy(s.counters, e.key, e.amount);
      State(c, s.requests[i := r.(seen := r.seen + [Get(c, e.key)])])
    case Decide(i) =>
      var r := s.requests[i];
      s.(requests := s.requests[i := r.(status := if Passed(r) then Admitted else RollingBack)])
    case Undo(i) =>
      var r := s.requests[i];
      var e := r.entries[r.undone];
      State(IncrBy(s.counters, e.key, -e.amount), s.requests[i := r.(undone := r.undone + 1)])
    case Reject(i) =>
      s.(requests := s.requests[i := s.requests[i].(status := Rejected)])
    case BeginReconcile(i, actual, now) =>
      var r := s.requests[i];
      s.(requests := s.requests[i := r.(reconciled := true, actual := actual, reconciledAt := now, releases := Releases(limits, r.call, actual, now))])
    case Release(i) =>
      var r := s.requests[i];
      var e := r.releases[r.released];
      State(IncrBy(s.counters, e.key, -e.amount), s.requests[i := r.(released := r.released + 1)])
  }

  ghost predicate Next(limits: seq<Limit>, s: State, s': State) {
    exists a :: Enabled(s, a) && s' == Apply(limits, s, a)
  }

  /** A finite interleaving, as the sequence of states it passes through. */
  ghost predicate Behaviour(limits: seq<Limit>, tr: seq<State>) {
    tr != [] && tr[0] == INIT && forall i :: 0 <= i < |tr| - 1 ==> Next(limits, tr[i], tr[i + 1])
  }

  // ---------------------------------------------------------------- what a request holds

  ghost predicate WellFormed(limits: seq<Limit>, r: Request) {
    && r.entries == Entries(limits, r.call, r.now)
    && r.undone <= |r.seen| <= |r.entries|
    && (r.undone > 0 ==> r.status == RollingBack || r.status == Rejected)
    && (r.status != Incrementing ==> |r.seen| == |r.entries|)
    && (r.status == Rejected ==> r.undone == |r.entries|)
    && (r.status == Admitted ==> Passed(r))
    && r.released <= |r.releases|
    && (r.reconciled ==> r.status == Admitted && r.releases == Releases(limits, r.call, r.actual, r.reconciledAt))
    && (!r.reconciled ==> r.releases == [])
  }

  /** Amount the request has added to counter k and not rolled back. */
  ghost function Taken(r: Request, k: RateKey): int
    requires r.undone <= |r.seen| <= |r.entries|
  {
    Sum(r.entries[r.undone..|r.seen|], AmountOn(k))
  }

  /** Amount Reconcile has subtracted from counter k. */
  ghost function Given(r: Request, k: RateKey): int
    requires r.released <= |r.releases|
  {
    Sum(r.releases[..r.released], AmountOn(k))
  }

  ghost predicate Touches(r: Request, k: RateKey) {
    exists j :: 0 <= j < |r.entries| && r.entries[j].key == k
  }

  /** The request incremented k and Redis answered with a value within the limit. */
  ghost predicate Cleared(r: Request, k: RateKey) {
    exists j :: 0 <= j < |r.seen| && j < |r.entries| && r.entries[j].key == k && r.seen[j] <= r.entries[j].limit.value
  }

  ghost function NetOf(r: Request, k: RateKey): int {
    if r.undone <= |r.seen| <= |r.entries| && r.released <= |r.releases| then Taken(r, k) - Given(r, k) else 0
  }

  /** The effect of a request on counter k. */
  ghost function Net(k: RateKey): Request -> int {
    (r: Request) => NetOf(r, k)
  }

  ghost function ClearedNet(k: RateKey): Request -> int {
    (r: Request) => if Cleared(r, k) then NetOf(r, k) else 0
  }

  /** What an admitted request uses of counter k: its amount, less what it gave back. */
  ghost function Held(k: RateKey): Request -> int {
    (r: Request) => if r.status == Admitted && Touches(r, k) then NetOf(r, k) else 0
  }

  /** What a request gave back to a counter it never incremented. */
  ghost function Stray(k: RateKey): Request -> int {
    (r: Request) => if Touches(r, k) then 0 else -NetOf(r, k)
  }

  function Max(a: int, b: int): int { if a < b then b else a }
  function Min(a: int, b: int): int { if a < b then a else b }

  // ---------------------------------------------------------------- the inductive invariant

  /** The counter of limit l in window w. */
  function CounterOf(l: Limit, w: int): RateKey {
    RateKey(l.tenant, l.provider, l.model, l.scopeType, l.scopeId, l.metric, w)
  }

  ghost predicate Accounted(s: State) {
    forall k :: Get(s.counters, k) == Sum(s.requests, Net(k))
  }

  ghost predicate Bounded(s: State, l: Limit, k: RateKey) {
    Sum(s.requests, ClearedNet(k)) <= Max(l.value, 0) + Sum(s.requests, Stray(k))
  }

  ghost predicate Inv(limits: seq<Limit>, s: State) {
    && (forall i :: 0 <= i < |s.requests| ==> WellFormed(limits, s.requests[i]))
    && Accounted(s)
    && (forall l, w :: l in limits ==> Bounded(s, l, CounterOf(l, w)))
  }

  lemma {:induction false} TakenBounds(es: seq<Entry>, k: RateKey)
    requires forall i :: 0 <= i < |es| ==> es[i].amount > 0
    ensures Sum(es, AmountOn(k)) >= 0
    ensures (forall i :: 0 <= i < |es| ==> es[i].key != k) ==> Sum(es, AmountOn(k)) == 0
  {
    if es != [] {
      TakenBounds(es[..|es| - 1], k);
    }
  }

  /** A request has one entry per counter, all from the configuration and all positive. */
  lemma RequestShape(limits: seq<Limit>, r: Request)
    requires Unique(limits) && WellFormed(limits, r)
    ensures DistinctKeys(r.entries) && DistinctKeys(r.releases)
    ensures forall i :: 0 <= i < |r.entries| ==> r.entries[i].amount > 0 && r.entries[i].limit in limits
    ensures forall i :: 0 <= i < |r.releases| ==> r.releases[i].amount > 0
  {
    hide Entries, Releases, Unique, KeyOf;
    EntriesCorrect(limits, r.call, r.now);
    if r.releases != [] { ReleasesCorrect(limits, r.call, r.actual, r.reconciledAt); }
  }

  lemma RequestFacts(limits: seq<Limit>, r: Request, k: RateKey)
    requires Unique(limits) && WellFormed(limits, r)
    ensures Taken(r, k) >= 0 && Given(r, k) >= 0
    ensures !Touches(r, k) ==> Taken(r, k) == 0
  {
    hide Entries, Releases, Unique, DistinctKeys;
    RequestShape(limits, r);
    TakenBounds(r.entries[r.undone..|r.seen|], k);
    TakenBounds(r.releases[..r.released], k);
  }

  /** No request takes less off a counter than its cleared share minus its stray releases. */
  lemma NetDominates(limits: seq<Limit>, r: Request, k: RateKey)
    requires Unique(limits) && WellFormed(limits, r)
    ensures Net(k)(r) + Stray(k)(r) >= ClearedNet(k)(r)
    ensures Held(k)(r) <= ClearedNet(k)(r)
    ensures Stray(k)(r) >= 0
  {
    RequestFacts(limits, r, k);
    if r.status == Admitted && Touches(r, k) {
      var j :| 0 <= j < |r.entries| && r.entries[j].key == k;
      assert r.seen[j] <= r.entries[j].limit.value;
    }
    if r.status != Admitted {
      assert r.releases == [] && Given(r, k) == 0;
    }
  }

  ghost function Combined(k: RateKey): Request -> int {
    (r: Request) => Net(k)(r) + Stray(k)(r)
  }

  /** Whatever the counter, cleared shares never exceed its value plus the stray releases. */
  lemma ClearedBelowCounter(limits: seq<Limit>, s: State, k: RateKey)
    requires Unique(limits) && Accounted(s)
    requires forall i :: 0 <= i < |s.requests| ==> WellFormed(limits, s.requests[i])
    ensures Sum(s.requests, ClearedNet(k)) <= Get(s.counters, k) + Sum(s.requests, Stray(k))
  {
    forall i | 0 <= i < |s.requests| ensures ClearedNet(k)(s.requests[i]) <= Combined(k)(s.requests[i]) {
      NetDominates(limits, s.requests[i], k);
    }
    SumMonotone(s.requests, ClearedNet(k), Combined(k));
    SumAdd(s.requests, Combined(k), Net(k), Stray(k));
  }

  /**
   * One request moves from r to r'. Its change must be booked on the counters, and on each
   * limit's counter either its cleared share grows no more than its stray releases do, or the
   * counter is within the limit after the step.
   */
  ghost predicate StepOf(limits: seq<Limit>, s: State, i: nat, r': Request, counters': map<RateKey, int>)
    requires i < |s.requests|
  {
    var r := s.requests[i];
    && WellFormed(limits, r')
    && (forall k :: Get(counters', k) == Get(s.counters, k) - NetOf(r, k) + NetOf(r', k))
    && (forall l, w :: l in limits ==>
          var k := CounterOf(l, w);
          || ClearedNet(k)(r') - Stray(k)(r') <= ClearedNet(k)(r) - Stray(k)(r)
          || Get(counters', k) <= l.value)
  }

  lemma StepPreserves(limits: seq<Limit>, s: State, i: nat, r': Request, counters': map<RateKey, int>)
    requires Unique(limits) && Inv(limits, s) && i < |s.requests| && StepOf(limits, s, i, r', counters')
    ensures Inv(limits, State(counters', s.requests[i := r']))
  {
    hide NetOf, WellFormed, Cleared, Touches;
    var s' := State(counters', s.requests[i := r']);
    forall k ensures Get(s'.counters, k) == Sum(s'.requests, Net(k)) {
      SumUpdate(s.requests, i, r', Net(k));
    }
    assert Accounted(s');
    forall l, w | l in limits ensures Bounded(s', l, CounterOf(l, w)) {
      var k := CounterOf(l, w);
      assert Bounded(s, l, k);
      SumUpdate(s.requests, i, r', ClearedNet(k));
      SumUpdate(s.requests, i, r', Stray(k));
      ClearedBelowCounter(limits, s', k);
    }
  }

  // ---------------------------------------------------------------- each action keeps it

  lemma ArriveKeeps(limits: seq<Limit>, s: State, call: Call, now: nat)
    requires Unique(limits) && Inv(limits, s)
    ensures Inv(limits, Apply(limits, s, Arrive(call, now)))
  {
    var s' := Apply(limits, s, Arrive(call, now));
    var r := s'.requests[|s.requests|];
    forall k ensures Net(k)(r) == 0 && ClearedNet(k)(r) == 0 && Stray(k)(r) == 0 {
      assert r.entries[0..0] == [] && r.releases[..0] == [];
    }
    forall k ensures Get(s'.counters, k) == Sum(s'.requests, Net(k)) {
      SumAppend(s.requests, r, Net(k));
    }
    forall l, w | l in limits ensures Bounded(s', l, CounterOf(l, w)) {
      assert Bounded(s, l, CounterOf(l, w));
      SumAppend(s.requests, r, ClearedNet(CounterOf(l, w)));
      SumAppend(s.requests, r, Stray(CounterOf(l, w)));
    }
  }

  lemma SameLimit(limits: seq<Limit>, l: Limit, m: Limit, w: int, now: nat)
    requires Unique(limits) && l in limits && m in limits && CounterOf(l, w) == KeyOf(m, now)
    ensures l == m
  {
    var i :| 0 <= i < |limits| && limits[i] == l;
    var j :| 0 <= j < |limits| && limits[j] == m;
    assert SameScope(l, m);
    assert i == j;
  }

  lemma IncrementKeeps(limits: seq<Limit>, s: State, i: nat)
    requires Unique(limits) && Inv(limits, s) && Enabled(s, Increment(i))
    ensures Inv(limits, Apply(limits, s, Increment(i)))
  {
    hide Entries, Releases, Unique, Bounded;
    var r := s.requests[i];
    var n := |r.seen|;
    var e := r.entries[n];
    var c' := IncrBy(s.counters, e.key, e.amount);
    var r' := r.(seen := r.seen + [Get(c', e.key)]);
    assert r.undone == 0 && r.releases == [];
    assert r.entries[0..n + 1] == r.entries[0..n] + [e];
    forall k ensures NetOf(r', k) == NetOf(r, k) + AmountOn(k)(e) {
      SumAppend(r.entries[0..n], e, AmountOn(k));
    }
    forall l, w | l in limits
      ensures var k := CounterOf(l, w);
              || ClearedNet(k)(r') - Stray(k)(r') <= ClearedNet(k)(r) - Stray(k)(r)
              || Get(c', k) <= l.value
    {
      IncrementStep(limits, r, r', l, w);
    }
    StepPreserves(limits, s, i, r', c');
  }

  /** One more answer from Redis does not change what other counters answered. */
  lemma ClearedElsewhere(r: Request, r': Request, k: RateKey)
    requires |r.seen| < |r.entries| && r'.entries == r.entries && r.entries[|r.seen|].key != k
    requires |r'.seen| == |r.seen| + 1 && r'.seen[..|r.seen|] == r.seen
    ensures Cleared(r', k) == Cleared(r, k)
  {
    assert forall j :: 0 <= j < |r.seen| ==> r'.seen[j] == r'.seen[..|r.seen|][j] == r.seen[j];
    if Cleared(r, k) {
      var j :| 0 <= j < |r.seen| && r.entries[j].key == k && r.seen[j] <= r.entries[j].limit.value;
      assert r'.seen[j] <= r'.entries[j].limit.value;
    }
    if Cleared(r', k) {
      var j :| 0 <= j < |r'.seen| && r'.entries[j].key == k && r'.seen[j] <= r'.entries[j].limit.value;
      assert r.seen[j] <= r.entries[j].limit.value;
    }
  }

  /** An INCRBY either leaves the cleared shares alone or returns a value within the limit. */
  lemma IncrementStep(limits: seq<Limit>, r: Request, r': Request, l: Limit, w: int)
    requires Unique(limits) && WellFormed(limits, r) && r.status == Incrementing && |r.seen| < |r.entries|
    requires |r'.seen| == |r.seen| + 1 && r' == r.(seen := r'.seen) && r'.seen[..|r.seen|] == r.seen
    requires l in limits
    requires forall k :: NetOf(r', k) == NetOf(r, k) + AmountOn(k)(r.entries[|r.seen|])
    ensures var k := CounterOf(l, w);
            || ClearedNet(k)(r') - Stray(k)(r') <= ClearedNet(k)(r) - Stray(k)(r)
            || (k == r.entries[|r.seen|].key && r'.seen[|r.seen|] <= l.value)
  {
    hide NetOf, Entries, Releases, Unique, Counts;
    var k, n := CounterOf(l, w), |r.seen|;
    RequestShape(limits, r);
    assert Touches(r', k) == Touches(r, k);
    if r.entries[n].key == k {
      hide WellFormed;
      EntryLimit(limits, r, n, l, w);
      assert !Cleared(r, k);
      assert forall j :: 0 <= j < n ==> r'.entries[j].key != k;
    } else {
      hide WellFormed, DistinctKeys, Cleared, Touches;
      ClearedElsewhere(r, r', k);
    }
  }

  /** The entry on a limit's counter is that limit's. */
  lemma EntryLimit(limits: seq<Limit>, r: Request, n: nat, l: Limit, w: int)
    requires Unique(limits) && WellFormed(limits, r) && n < |r.entries| && l in limits
    requires r.entries[n].key == CounterOf(l, w)
    ensures r.entries[n].limit == l
  {
    hide Entries, Releases, Unique, Counts, KeyOf, Passed;
    EntriesCorrect(limits, r.call, r.now);
    SameLimit(limits, l, r.entries[n].limit, w, r.now);
  }

  /** Steps that touch no counter: deciding, answering, and reading the clock for Reconcile. */
  lemma LocalKeeps(limits: seq<Limit>, s: State, a: Action)
    requires Unique(limits) && Inv(limits, s) && Enabled(s, a)
    requires a.Decide? || a.Reject? || a.BeginReconcile?
    ensures Inv(limits, Apply(limits, s, a))
  {
    hide Entries, Unique, Bounded;
    var r := s.requests[a.i];
    var r' := Apply(limits, s, a).requests[a.i];
    forall k ensures NetOf(r', k) == NetOf(r, k) {
      assert r'.releases[..r'.released] == r.releases[..r.released];
    }
    forall l, w | l in limits
      ensures var k := CounterOf(l, w); ClearedNet(k)(r') - Stray(k)(r') <= ClearedNet(k)(r) - Stray(k)(r)
    {
      var k := CounterOf(l, w);
      assert Cleared(r', k) == Cleared(r, k) && Touches(r', k) == Touches(r, k);
    }
    StepPreserves(limits, s, a.i, r', s.counters);
  }

  /** A DECRBY takes from a cleared share, or is stray. */
  lemma DecrementStep(r: Request, r': Request, e: Entry, k: RateKey)
    requires r'.entries == r.entries && r'.seen == r.seen && e.amount > 0
    requires NetOf(r', k) == NetOf(r, k) - AmountOn(k)(e)
    ensures ClearedNet(k)(r') - Stray(k)(r') <= ClearedNet(k)(r) - Stray(k)(r)
  {
    hide NetOf;
    assert Cleared(r', k) == Cleared(r, k) && Touches(r', k) == Touches(r, k);
    assert Cleared(r, k) ==> Touches(r, k);
  }

  lemma UndoNet(r: Request, k: RateKey)
    requires r.undone < |r.seen| <= |r.entries| && r.released <= |r.releases|
    ensures NetOf(r.(undone := r.undone + 1), k) == NetOf(r, k) - AmountOn(k)(r.entries[r.undone])
  {
    var e, rest := r.entries[r.undone], r.entries[r.undone + 1..|r.seen|];
    assert r.entries[r.undone..|r.seen|] == [e] + rest;
    SumPrepend(e, rest, AmountOn(k));
  }

  lemma UndoKeeps(limits: seq<Limit>, s: State, i: nat)
    requires Unique(limits) && Inv(limits, s) && Enabled(s, Undo(i))
    ensures Inv(limits, Apply(limits, s, Undo(i)))
  {
    hide Entries, Releases, Unique, Bounded, DistinctKeys, NetOf, Passed, KeyOf, ClearedNet, Stray;
    var r := s.requests[i];
    RequestShape(limits, r);
    var e := r.entries[r.undone];
    var r' := r.(undone := r.undone + 1);
    forall k ensures NetOf(r', k) == NetOf(r, k) - AmountOn(k)(e) {
      UndoNet(r, k);
    }
    forall l, w | l in limits
      ensures var k := CounterOf(l, w); ClearedNet(k)(r') - Stray(k)(r') <= ClearedNet(k)(r) - Stray(k)(r)
    {
      DecrementStep(r, r', e, CounterOf(l, w));
    }
    StepPreserves(limits, s, i, r', IncrBy(s.counters, e.key, -e.amount));
  }

  lemma ReleaseNet(r: Request, k: RateKey)
    requires r.undone <= |r.seen| <= |r.entries| && r.released < |r.releases|
    ensures NetOf(r.(released := r.released + 1), k) == NetOf(r, k) - AmountOn(k)(r.releases[r.released])
  {
    var e := r.releases[r.released];
    assert r.releases[..r.released + 1] == r.releases[..r.released] + [e];
    SumAppend(r.releases[..r.released], e, AmountOn(k));
  }

  lemma ReleaseKeeps(limits: seq<Limit>, s: State, i: nat)
    requires Unique(limits) && Inv(limits, s) && Enabled(s, Release(i))
    ensures Inv(limits, Apply(limits, s, Release(i)))
  {
    hide Entries, Releases, Unique, Bounded, DistinctKeys, NetOf, KeyOf, ClearedNet, Stray;
    var r := s.requests[i];
    RequestShape(limits, r);
    var e := r.releases[r.released];
    var r' := r.(released := r.released + 1);
    forall k ensures NetOf(r', k) == NetOf(r, k) - AmountOn(k)(e) {
      ReleaseNet(r, k);
    }
    forall l, w | l in limits
      ensures var k := CounterOf(l, w); ClearedNet(k)(r') - Stray(k)(r') <= ClearedNet(k)(r) - Stray(k)(r)
    {
      DecrementStep(r, r', e, CounterOf(l, w));
    }
    StepPreserves(limits, s, i, r', IncrBy(s.counters, e.key, -e.amount));
  }

  lemma NextKeeps(limits: seq<Limit>, s: State, s': State)
    requires Unique(limits) && Inv(limits, s) && Next(limits, s, s')
    ensures Inv(limits, s')
  {
    hide Inv, Apply;
    var a :| Enabled(s, a) && s' == Apply(limits, s, a);
    match a
    case Arrive(call, now) => ArriveKeeps(limits, s, call, now);
    case Increment(i) => IncrementKeeps(limits, s, i);
    case Undo(i) => UndoKeeps(limits, s, i);
    case Release(i) => ReleaseKeeps(limits, s, i);
    case _ => LocalKeeps(limits, s, a);
  }

  lemma {:induction false} Reachable(limits: seq<Limit>, tr: seq<State>, n: nat)
    requires Unique(limits) && Behaviour(limits, tr) && n < |tr|
    ensures Inv(limits, tr[n])
  {
    if n == 0 {
      assert forall k :: Sum(INIT.requests, Net(k)) == 0;
    } else {
      Reachable(limits, tr, n - 1);
      NextKeeps(limits, tr[n - 1], tr[n]);
    }
  }

  // ---------------------------------------------------------------- safety over whole runs

  /** Reconcile read the clock in the window in which Check did, for every limit it touches. */
  ghost predicate SameWindow(limits: seq<Limit>, r: Request) {
    r.releases == [] ||
    forall l :: l in limits && Reconciles(l, r.call) ==> r.reconciledAt / WindowSec(l) == r.now / WindowSec(l)
  }

  /**
   * In every interleaving, what admitted requests hold on a limit's counter stays within the
   * limit plus whatever was given back to that counter from other windows.
   */
  lemma AdmittedWithinLimitPlusStray(limits: seq<Limit>, tr: seq<State>, n: nat, l: Limit, w: int)
    requires Unique(limits) && Behaviour(limits, tr) && n < |tr| && l in limits
    ensures Sum(tr[n].requests, Held(CounterOf(l, w))) <=
            Max(l.value, 0) + Sum(tr[n].requests, Stray(CounterOf(l, w)))
  {
    hide WellFormed;
    var s, k := tr[n], CounterOf(l, w);
    Reachable(limits, tr, n);
    assert Bounded(s, l, k);
    forall i | 0 <= i < |s.requests| ensures Held(k)(s.requests[i]) <= ClearedNet(k)(s.requests[i]) {
      NetDominates(limits, s.requests[i], k);
    }
    SumMonotone(s.requests, Held(k), ClearedNet(k));
  }

  /** A request reconciled in its own window strays nowhere. */
  lemma SameWindowNoStray(limits: seq<Limit>, r: Request, k: RateKey)
    requires Unique(limits) && WellFormed(limits, r) && SameWindow(limits, r)
    ensures Stray(k)(r) == 0
  {
    RequestFacts(limits, r, k);
    if !Touches(r, k) && r.releases != [] {
      ReleasesCorrect(limits, r.call, r.actual, r.reconciledAt);
      EntriesCorrect(limits, r.call, r.now);
      forall j | 0 <= j < r.released ensures r.releases[j].key != k {
        var l := r.releases[j].limit;
        assert Counts(l, r.call);
        assert EntryOf(l, r.call, r.now) in r.entries;
        assert r.releases[j].key == KeyOf(l, r.now);
      }
      TakenBounds(r.releases[..r.released], k);
    }
  }

  /** With every reconciliation inside its own window, no interleaving over-admits. */
  lemma AdmittedWithinLimit(limits: seq<Limit>, tr: seq<State>, n: nat, l: Limit, w: int)
    requires Unique(limits) && Behaviour(limits, tr) && n < |tr| && l in limits
    requires forall i :: 0 <= i < |tr[n].requests| ==> SameWindow(limits, tr[n].requests[i])
    ensures Sum(tr[n].requests, Held(CounterOf(l, w))) <= Max(l.value, 0)
  {
    var s, k := tr[n], CounterOf(l, w);
    AdmittedWithinLimitPlusStray(limits, tr, n, l, w);
    Reachable(limits, tr, n);
    forall i | 0 <= i < |s.requests| ensures Stray(k)(s.requests[i]) == 0 {
      SameWindowNoStray(limits, s.requests[i], k);
    }
    SumZero(s.requests, Stray(k));
  }

  /** With nobody between increment and rollback, counters show admitted requests and nothing else. */
  lemma QuiescentCounters(limits: seq<Limit>, tr: seq<State>, n: nat, k: RateKey)
    requires Unique(limits) && Behaviour(limits, tr) && n < |tr|
    requires forall i :: 0 <= i < |tr[n].requests| ==> tr[n].requests[i].status == Admitted || tr[n].requests[i].status == Rejected
    ensures Get(tr[n].counters, k) == Sum(tr[n].requests, Held(k)) - Sum(tr[n].requests, Stray(k))
  {
    var s := tr[n];
    Reachable(limits, tr, n);
    forall i | 0 <= i < |s.requests| ensures Held(k)(s.requests[i]) == Net(k)(s.requests[i]) + Stray(k)(s.requests[i]) {
      var r := s.requests[i];
      RequestFacts(limits, r, k);
      assert r.status == Rejected ==> r.entries[r.undone..|r.seen|] == [] && r.releases == [];
    }
    SumAdd(s.requests, Held(k), Net(k), Stray(k));
  }

  /** A request checked in one window does not touch the counter of another. */
  lemma OtherWindowUntouched(limits: seq<Limit>, r: Request, l: Limit, now: nat)
    requires Unique(limits) && WellFormed(limits, r) && l in limits && now / WindowSec(l) != r.now / WindowSec(l)
    ensures !Touches(r, KeyOf(l, now))
  {
    hide Entries, Releases, Unique, Counts, Passed, WellFormed;
    if Touches(r, KeyOf(l, now)) {
      var j :| 0 <= j < |r.entries| && r.entries[j].key == KeyOf(l, now);
      EntryLimit(limits, r, j, l, now / WindowSec(l));
      EntryTime(limits, r, j);
      assert false;
    }
  }

  lemma EntryTime(limits: seq<Limit>, r: Request, j: nat)
    requires WellFormed(limits, r) && j < |r.entries|
    ensures r.entries[j].key == KeyOf(r.entries[j].limit, r.now)
  {
    EntryAt(limits, r.call, r.now, j);
  }

  /** A reconciliation that reads the clock in another window gives back to a counter it never raised. */
  lemma OtherWindowStrays(limits: seq<Limit>, r: Request, l: Limit)
    requires Unique(limits) && WellFormed(limits, r) && r.releases != [] && r.released == |r.releases|
    requires l in limits && Reconciles(l, r.call) && r.reconciledAt / WindowSec(l) != r.now / WindowSec(l)
    ensures Stray(KeyOf(l, r.reconciledAt))(r) == Surplus(r.call, r.actual) > 0
  {
    hide Entries, Releases, Unique, Counts, Passed, KeyOf, Touches, Reconciles, Surplus, DistinctKeys;
    var k := KeyOf(l, r.reconciledAt);
    OtherWindowUntouched(limits, r, l, r.reconciledAt);
    RequestFacts(limits, r, k);
    GivenInFull(limits, r.call, r.actual, r.reconciledAt, l);
    assert r.releases[..r.released] == r.releases;
    ReleasesCorrect(limits, r.call, r.actual, r.reconciledAt);
    assert r.releases[0].amount > 0;
  }

  /**
   * A request whose releases are all executed gave back only what it took, on every counter, if
   * and only if its reconciliation read the clock in the window of its check.
   */
  lemma StrayFreeIffSameWindow(limits: seq<Limit>, r: Request)
    requires Unique(limits) && WellFormed(limits, r) && r.released == |r.releases|
    ensures (forall k :: Stray(k)(r) == 0) <==> SameWindow(limits, r)
  {
    hide WellFormed, Unique, Stray;
    if SameWindow(limits, r) {
      forall k ensures Stray(k)(r) == 0 { SameWindowNoStray(limits, r, k); }
    } else {
      var l :| l in limits && Reconciles(l, r.call) && r.reconciledAt / WindowSec(l) != r.now / WindowSec(l);
      OtherWindowStrays(limits, r, l);
    }
  }

  /** Nobody is between increment and rollback, or between the commands of a reconciliation. */
  ghost predicate AtRest(s: State) {
    forall i :: 0 <= i < |s.requests| ==>
      (s.requests[i].status == Admitted || s.requests[i].status == Rejected) && s.requests[i].released == |s.requests[i].releases|
  }

  lemma {:induction false} NoStrayTotal(limits: seq<Limit>, rs: seq<Request>, k: RateKey)
    requires Unique(limits) && forall i :: 0 <= i < |rs| ==> WellFormed(limits, rs[i])
    ensures Sum(rs, Stray(k)) >= 0
    ensures Sum(rs, Stray(k)) == 0 <==> forall i :: 0 <= i < |rs| ==> Stray(k)(rs[i]) == 0
  {
    hide WellFormed, Unique, Stray;
    if rs != [] {
      var n := |rs| - 1;
      NoStrayTotal(limits, rs[..n], k);
      NetDominates(limits, rs[n], k);
      assert forall i :: 0 <= i < n ==> rs[..n][i] == rs[i];
    }
  }

  /**
   * At rest the counters show exactly what admitted requests hold, on every counter, if and only
   * if every reconciliation of the run fell in the window of its check.
   */
  lemma CountersExactIffSameWindow(limits: seq<Limit>, tr: seq<State>, n: nat)
    requires Unique(limits) && Behaviour(limits, tr) && n < |tr| && AtRest(tr[n])
    ensures (forall k :: Get(tr[n].counters, k) == Sum(tr[n].requests, Held(k))) <==>
            (forall i :: 0 <= i < |tr[n].requests| ==> SameWindow(limits, tr[n].requests[i]))
  {
    hide WellFormed, Unique, Stray, SameWindow, Behaviour, Accounted, Held;
    var s := tr[n];
    Reachable(limits, tr, n);
    forall k ensures Get(s.counters, k) == Sum(s.requests, Held(k)) <==> forall i :: 0 <= i < |s.requests| ==> Stray(k)(s.requests[i]) == 0 {
      QuiescentCounters(limits, tr, n, k);
      NoStrayTotal(limits, s.requests, k);
    }
    forall i | 0 <= i < |s.requests|
      ensures SameWindow(limits, s.requests[i]) <==> forall k :: Stray(k)(s.requests[i]) == 0
    {
      StrayFreeIffSameWindow(limits, s.requests[i]);
    }
  }

  lemma TakenInFull(limits: seq<Limit>, c: Call, now: nat, l: Limit)
    requires Unique(limits) && l in limits && Counts(l, c)
    ensures Sum(Entries(limits, c, now), AmountOn(KeyOf(l, now))) == Amount(l, c)
    ensures EntryOf(l, c, now) in Entries(limits, c, now)
  {
    hide Unique, DistinctKeys;
    EntriesCorrect(limits, c, now);
    var es := Entries(limits, c, now);
    var i :| 0 <= i < |es| && es[i] == EntryOf(l, c, now);
    AmountOnOwn(es, i);
  }

  lemma GivenInFull(limits: seq<Limit>, c: Call, actual: int, now: nat, l: Limit)
    requires Unique(limits) && l in limits && Reconciles(l, c)
    ensures Sum(Releases(limits, c, actual, now), AmountOn(KeyOf(l, now))) == Surplus(c, actual)
  {
    hide Unique, DistinctKeys, Reconciles;
    ReleasesCorrect(limits, c, actual, now);
    var es := Releases(limits, c, actual, now);
    if Surplus(c, actual) > 0 {
      var i :| 0 <= i < |es| && es[i] == Entry(l, KeyOf(l, now), Surplus(c, actual));
      AmountOnOwn(es, i);
    }
  }

  /** After reconciling in its window, a request holds min(actual, max) of each output-token counter. */
  lemma ReconciledHoldsActual(limits: seq<Limit>, r: Request, l: Limit)
    requires Unique(limits) && WellFormed(limits, r) && r.status == Admitted
    requires l in limits && Reconciles(l, r.call) && r.call.maxTokens > 0
    requires r.reconciled && r.released == |r.releases|
    requires SameWindow(limits, r)
    ensures Held(KeyOf(l, r.now))(r) == Min(r.actual, r.call.maxTokens)
  {
    hide Unique, Entries, Releases;
    var k := KeyOf(l, r.now);
    TakenInFull(limits, r.call, r.now, l);
    GivenInFull(limits, r.call, r.actual, r.reconciledAt, l);
    assert r.entries[0..|r.seen|] == r.entries && r.releases[..r.released] == r.releases;
    assert Touches(r, k);
    if r.releases == [] {
      assert Sum(r.releases, AmountOn(KeyOf(l, r.reconciledAt))) == 0;
      assert Given(r, k) == 0;
    }
  }

  // ---------------------------------------------------------------- Check alone is one of the runs

  ghost predicate Steps(limits: seq<Limit>, tr: seq<State>) {
    tr != [] && forall i :: 0 <= i < |tr| - 1 ==> Next(limits, tr[i], tr[i + 1])
  }

  lemma OneStep(limits: seq<Limit>, s: State, a: Action)
    requires Enabled(s, a)
    ensures Steps(limits, [s, Apply(limits, s, a)])
  {}

  lemma OneMore(limits: seq<Limit>, tr: seq<State>, a: Action) returns (tr': seq<State>)
    requires Steps(limits, tr) && Enabled(tr[|tr| - 1], a)
    ensures Steps(limits, tr') && tr'[0] == tr[0] && tr'[|tr'| - 1] == Apply(limits, tr[|tr| - 1], a)
  {
    hide Apply, Enabled;
    OneStep(limits, tr[|tr| - 1], a);
    tr' := tr + [Apply(limits, tr[|tr| - 1], a)];
    assert Next(limits, tr[|tr| - 1], tr'[|tr|]);
  }

  lemma JoinSteps(limits: seq<Limit>, a: seq<State>, b: seq<State>)
    requires Steps(limits, a) && Steps(limits, b) && a[|a| - 1] == b[0]
    ensures Steps(limits, a + b[1..])
  {
    hide Next;
    var c := a + b[1..];
    forall i | 0 <= i < |c| - 1 ensures Next(limits, c[i], c[i + 1]) {
      if i >= |a| - 1 {
        assert c[i] == b[i - |a| + 1] && c[i + 1] == b[i - |a| + 2];
      }
    }
  }

  function Arrived(limits: seq<Limit>, call: Call, now: nat): Request {
    Request(call, now, Entries(limits, call, now), [], 0, Incrementing, false, 0, now, [], 0)
  }

  /** The first n increments of a request that nobody interrupts. */
  lemma {:induction false} IncrementsRun(limits: seq<Limit>, s: State, call: Call, now: nat, n: nat)
    returns (tr: seq<State>, counters: map<RateKey, int>, seen: seq<int>)
    requires Unique(limits) && n <= |Entries(limits, call, now)|
    ensures Steps(limits, tr) && tr[0] == s
    ensures tr[|tr| - 1] == State(counters, s.requests + [Arrived(limits, call, now).(seen := seen)])
    ensures Raised(s.counters, Entries(limits, call, now)[..n], counters) && |seen| == n
    ensures forall j :: 0 <= j < n ==>
              var e := Entries(limits, call, now)[j]; seen[j] == Get(s.counters, e.key) + e.amount
  {
    hide Raised, Unique, Counts, DistinctKeys;
    var es, i := Entries(limits, call, now), |s.requests|;
    if n == 0 {
      OneStep(limits, s, Arrive(call, now));
      tr, counters, seen := [s, Apply(limits, s, Arrive(call, now))], s.counters, [];
      RaisedByNone(s.counters, es);
    } else {
      hide Entries, Apply;
      tr, counters, seen := IncrementsRun(limits, s, call, now, n - 1);
      var r := Arrived(limits, call, now).(seen := seen);
      IncrementAlone(limits, State(counters, s.requests + [r]), i);
      tr := OneMore(limits, tr, Increment(i));
      UntouchedSoFar(limits, call, now, s.counters, n - 1, counters);
      RaiseOne(s.counters, es, n - 1, counters);
      counters := IncrBy(counters, es[n - 1].key, es[n - 1].amount);
      seen := seen + [Get(counters, es[n - 1].key)];
      assert (s.requests + [r])[i := r.(seen := seen)] == s.requests + [r.(seen := seen)];
      assert r.(seen := seen) == Arrived(limits, call, now).(seen := seen);
    }
  }

  lemma IncrementAlone(limits: seq<Limit>, s: State, i: nat)
    requires i < |s.requests| && s.requests[i].status == Incrementing && |s.requests[i].seen| < |s.requests[i].entries|
    ensures Enabled(s, Increment(i))
    ensures var r := s.requests[i];
            var e := r.entries[|r.seen|];
            var c := IncrBy(s.counters, e.key, e.amount);
            Apply(limits, s, Increment(i)) == State(c, s.requests[i := r.(seen := r.seen + [Get(c, e.key)])])
  {}

  lemma RaisedByNone(counters: map<RateKey, int>, es: seq<Entry>)
    ensures Raised(counters, es[..0], counters)
  {
    forall k ensures Sum(es[..0], AmountOn(k)) == 0 { AmountOnOther(es[..0], k); }
  }

  /** Before its own increment, a request has left the counter of entry n alone. */
  lemma UntouchedSoFar(limits: seq<Limit>, call: Call, now: nat, before: map<RateKey, int>, n: nat, counters: map<RateKey, int>)
    requires Unique(limits) && n < |Entries(limits, call, now)|
    requires Raised(before, Entries(limits, call, now)[..n], counters)
    ensures var k := Entries(limits, call, now)[n].key; Get(counters, k) == Get(before, k)
  {
    hide Entries, Unique, Counts;
    EntriesCorrect(limits, call, now);
    var es := Entries(limits, call, now);
    AmountOnOther(es[..n], es[n].key);
  }

  /** The first n rollbacks of a request that nobody interrupts. */
  lemma {:induction false} UndosRun(limits: seq<Limit>, before: map<RateKey, int>, tr0: seq<State>, i: nat, n: nat)
    returns (tr: seq<State>, counters: map<RateKey, int>)
    requires Steps(limits, tr0)
    requires var s := tr0[|tr0| - 1];
             i < |s.requests| && s.requests[i].status == RollingBack && s.requests[i].undone == 0 &&
             n <= |s.requests[i].entries| && Raised(before, s.requests[i].entries, s.counters)
    ensures Steps(limits, tr) && tr[0] == tr0[0]
    ensures var s := tr0[|tr0| - 1];
            && tr[|tr| - 1] == State(counters, s.requests[i := s.requests[i].(undone := n)])
            && Raised(before, s.requests[i].entries[n..], counters)
  {
    hide Raised;
    var s := tr0[|tr0| - 1];
    var r := s.requests[i];
    if n == 0 {
      tr, counters := tr0, s.counters;
      assert r.entries[0..] == r.entries && s.requests[i := r.(undone := 0)] == s.requests;
    } else {
      tr, counters := UndosRun(limits, before, tr0, i, n - 1);
      LowerOne(before, r.entries, n - 1, counters);
      tr := OneMore(limits, tr, Undo(i));
      counters := IncrBy(counters, r.entries[n - 1].key, -r.entries[n - 1].amount);
    }
  }

  /**
   * A check that nobody interrupts is one of the machine's runs, and its end is what the limiter
   * promises: admitted with all amounts booked, or rejected with every counter as before.
   */
  lemma CheckIsRun(limits: seq<Limit>, s: State, call: Call, now: nat) returns (tr: seq<State>)
    requires Unique(limits)
    ensures Steps(limits, tr) && tr[0] == s
    ensures var s' := tr[|tr| - 1];
            var es := Entries(limits, call, now);
            && |s'.requests| == |s.requests| + 1 && s'.requests[..|s.requests|] == s.requests
            && (if forall j :: 0 <= j < |es| ==> !Over(s.counters, es[j])
                then s'.requests[|s.requests|].status == Admitted && Raised(s.counters, es, s'.counters)
                else s'.requests[|s.requests|].status == Rejected && SameValues(s.counters, s'.counters))
  {
    hide Raised, Unique, Entries;
    var es, i := Entries(limits, call, now), |s.requests|;
    var counters, seen;
    tr, counters, seen := IncrementsRun(limits, s, call, now, |es|);
    assert es[..|es|] == es;
    tr := OneMore(limits, tr, Decide(i));
    var r := tr[|tr| - 1].requests[i];
    assert r.status == Admitted <==> forall j :: 0 <= j < |es| ==> !Over(s.counters, es[j]);
    if r.status == RollingBack {
      tr, counters := UndosRun(limits, s.counters, tr, i, |es|);
      NothingRaised(s.counters, es, counters);
      tr := OneMore(limits, tr, Reject(i));
    }
  }

  lemma NothingRaised(before: map<RateKey, int>, es: seq<Entry>, counters: map<RateKey, int>)
    requires Raised(before, es[|es|..], counters)
    ensures SameValues(before, counters)
  {
    forall k ensures Get(counters, k) == Get(before, k) { AmountOnOther(es[|es|..], k); }
  }

  // ---------------------------------------------------------------- a reconciliation one window late

  const L := Limit(1, "", "", "account", "", "otpm", 10, 60, true)
  const C := Call(1, "k", "p", "m", 0, 10)

  /** The request that Check would run at time `now` under the single limit L, at a given point. */
  function At(now: nat, seen: seq<int>, status: Status, reconciled: bool, released: nat): Request {
    Request(C, now, [Entry(L, KeyOf(L, now), 10)], seen, 0, status, reconciled, 0, if reconciled then 60 else now,
            if reconciled then [Entry(L, KeyOf(L, 60), 10)] else [], released)
  }

  lemma EntriesOfL(now: nat)
    ensures Entries([L], C, now) == [Entry(L, KeyOf(L, now), 10)]
    ensures Releases([L], C, 0, now) == [Entry(L, KeyOf(L, now), 10)]
  {
    assert [L][..0] == [];
    assert Entries([], C, now) == [] && Releases([], C, 0, now) == [];
  }

  /** Under L, a request arriving while its counter is empty is admitted in three steps. */
  lemma AdmitSteps(s: State, now: nat) returns (tr: seq<State>)
    requires Get(s.counters, KeyOf(L, now)) == 0
    ensures Steps([L], tr) && tr[0] == s
    ensures tr[|tr| - 1] == State(s.counters[KeyOf(L, now) := 10], s.requests + [At(now, [10], Admitted, false, 0)])
  {
    EntriesOfL(now);
    var n := |s.requests|;
    var s1 := s.(requests := s.requests + [At(now, [], Incrementing, false, 0)]);
    OneStep([L], s, Arrive(C, now));
    var c := s.counters[KeyOf(L, now) := 10];
    var s2 := State(c, s.requests + [At(now, [10], Incrementing, false, 0)]);
    OneStep([L], s1, Increment(n));
    var r := s1.requests[n];
    assert r == At(now, [], Incrementing, false, 0);
    assert c == IncrBy(s1.counters, r.entries[0].key, r.entries[0].amount);
    assert r.(seen := r.seen + [10]) == At(now, [10], Incrementing, false, 0);
    assert s2.requests == s1.requests[n := At(now, [10], Incrementing, false, 0)];
    var s3 := State(c, s.requests + [At(now, [10], Admitted, false, 0)]);
    OneStep([L], s2, Decide(n));
    assert s3.requests == s2.requests[n := At(now, [10], Admitted, false, 0)];
    tr := [s, s1] + [s1, s2][1..];
    JoinSteps([L], [s, s1], [s1, s2]);
    JoinSteps([L], tr, [s2, s3]);
    tr := tr + [s2, s3][1..];
  }

  /** The first request, admitted at time 0, reconciles at time 60 with no output at all. */
  lemma ReleaseSteps(s: State) returns (tr: seq<State>)
    requires s.requests != [] && s.requests[0] == At(0, [10], Admitted, false, 0) && Get(s.counters, KeyOf(L, 60)) == 10
    ensures Steps([L], tr) && tr[0] == s
    ensures tr[|tr| - 1] == State(s.counters[KeyOf(L, 60) := 0], s.requests[0 := At(0, [10], Admitted, true, 1)])
  {
    EntriesOfL(60);
    var s1 := s.(requests := s.requests[0 := At(0, [10], Admitted, true, 0)]);
    OneStep([L], s, BeginReconcile(0, 0, 60));
    var s2 := State(s.counters[KeyOf(L, 60) := 0], s1.requests[0 := At(0, [10], Admitted, true, 1)]);
    OneStep([L], s1, Release(0));
    JoinSteps([L], [s, s1], [s1, s2]);
    tr := [s, s1] + [s1, s2][1..];
  }

  /**
   * The window condition is needed: a request admitted in window 0 and reconciled in window 1
   * empties window 1's counter, and two requests then hold 20 tokens of a limit of 10.
   */
  lemma LateReconcileOverAdmits() returns (tr: seq<State>)
    ensures Unique([L]) && Behaviour([L], tr)
    ensures Sum(tr[|tr| - 1].requests, Held(CounterOf(L, 1))) == 20 > L.value
  {
    var a, a', b := At(0, [10], Admitted, false, 0), At(0, [10], Admitted, true, 1), At(60, [10], Admitted, false, 0);
    var t1 := AdmitSteps(INIT, 0);
    var t2 := AdmitSteps(t1[|t1| - 1], 60);
    assert t2[|t2| - 1].requests == [a, b];
    var t3 := ReleaseSteps(t2[|t2| - 1]);
    assert t3[|t3| - 1].requests == [a', b];
    var t4 := AdmitSteps(t3[|t3| - 1], 60);
    assert t4[|t4| - 1].requests == [a', b, b];
    JoinSteps([L], t1, t2);
    JoinSteps([L], t1 + t2[1..], t3);
    JoinSteps([L], t1 + t2[1..] + t3[1..], t4);
    tr := t1 + t2[1..] + t3[1..] + t4[1..];
    HeldByTwo(a', b);
  }

  /** One entry on its own counter. */
  lemma TakesAll(b: Request, k: RateKey, e: Entry)
    requires b.entries == [e] && e.key == k && |b.seen| == 1 && b.undone == 0 && b.releases == [] && b.released == 0
    requires b.status == Admitted
    ensures Held(k)(b) == e.amount
  {
    assert b.entries[0].key == k;
    assert b.entries[0..1] == [] + [e] && b.releases[..0] == [];
    SumAppend([], e, AmountOn(k));
    assert Sum<Entry>([], AmountOn(k)) == 0;
  }

  lemma HeldByEach()
    ensures Held(CounterOf(L, 1))(At(0, [10], Admitted, true, 1)) == 0
    ensures Held(CounterOf(L, 1))(At(60, [10], Admitted, false, 0)) == 10
  {
    hide NetOf;
    var k, a, b := CounterOf(L, 1), At(0, [10], Admitted, true, 1), At(60, [10], Admitted, false, 0);
    assert k == KeyOf(L, 60) && KeyOf(L, 0) != k;
    assert a.entries == [Entry(L, KeyOf(L, 0), 10)];
    assert !Touches(a, k);
    TakesAll(b, k, Entry(L, k, 10));
  }

  lemma HeldByTwo(a: Request, b: Request)
    requires a == At(0, [10], Admitted, true, 1) && b == At(60, [10], Admitted, false, 0)
    ensures Sum([a, b, b], Held(CounterOf(L, 1))) == 20
  {
    hide At, Held, CounterOf, Sum;
    var f := Held(CounterOf(L, 1));
    HeldByEach();
    assert [a, b, b] == [a] + [b] + [b] && [] + [a] == [a];
    SumNone(f);
    SumAppend([], a, f);
    SumAppend([a], b, f);
    SumAppend([a] + [b], b, f);
  }

  lemma SumNone(f: Request -> int)
    ensures Sum([], f) == 0
  {}
}
