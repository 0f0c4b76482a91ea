/**
 * The retry loop with the fallback strategy on top of it: when does a request whose first choice
 * fails reach a deployment that works? A deployment is left after a failure only if the failure
 * starts a cooldown or the failed answer says that a provider limit is nearly used up, so it depends
 * on the failure history and the headers of everyone ahead of the working one.
 */
module Failover {
  import opened Basics
  import opened Calendar
  import opened Health
  import opened ProviderLimits
  import opened Strategies
  import opened Retry

  /** Healthy, and with a tenth of the provider's limits left as far as its last headers say. */
  predicate Ready(s: Routing, t: Instant, d: Deployment) {
    Available(s.records, Avoided(s.limits), t, d)
  }

  /** The fallback strategy as the loop sees it, on a fixed priority order. */
  function FallbackSelect(sorted: seq<Deployment>, clock: nat -> Instant): (nat, Routing) -> Option<Deployment> {
    (i: nat, s: Routing) => FallbackChoice(s.records, Avoided(s.limits), clock(i), sorted)
  }

  // ---------------------------------------------------------------- the next choice after a failure

  /** One more failure starts a cooldown. */
  predicate Primed(s: Routing, d: Deployment) {
    RecordFor(s.records, d.id).failCount + 1 >= THRESHOLD
  }

  /** The headers of an answer leave less than a tenth of a limit. */
  predicate SaysScarce(headers: Option<RateLimitInfo>) {
    headers.Some? && Scarce(headers.value)
  }

  /** The end of the cooldown that a failure at time `at` starts, if it starts one. */
  function CooldownEnd(s: Routing, d: Deployment, at: Instant): Instant {
    at + CooldownLength(RecordFor(s.records, d.id).level + 1)
  }

  /** The router state after d has failed at time `at`, its answer carrying these headers. */
  function AfterFailure(s: Routing, d: Deployment, at: Instant, headers: Option<RateLimitInfo>): Routing {
    Routing(Apply(s.records, Failure(d.id, at)), Noted(s.limits, d.id, headers))
  }

  /** A deployment ready at t0 that fails is ready at t or not, by its history and the headers alone. */
  lemma ReadyAgainIff(s: Routing, d: Deployment, t0: Instant, at: Instant, headers: Option<RateLimitInfo>, t: Instant)
    requires Ready(s, t0, d) && 0 < t && t0 <= t
    ensures Ready(AfterFailure(s, d, at, headers), t, d)
            <==> !SaysScarce(headers) && (!Primed(s, d) || t > CooldownEnd(s, d, at))
  {
    hide CooldownLength, Scarce;
  }

  /**
   * The fallback strategy has answered d at time t0 and d has failed. At time t, with nobody ahead
   * of d back and somebody else ready, it answers d again if and only if the headers of the failed
   * answer left a tenth of each limit, and the failure started no cooldown or the cooldown is over.
   */
  lemma FallbackRepeatsIff(s: Routing, sorted: seq<Deployment>, t0: Instant, at: Instant, headers: Option<RateLimitInfo>, t: Instant)
    requires 0 < t && t0 <= t
    requires var k := FirstAvailable(s.records, Avoided(s.limits), t0, sorted);
             && k < |sorted|
             && var after := AfterFailure(s, sorted[k], at, headers);
             && (forall j :: 0 <= j < k ==> !Ready(after, t, sorted[j]))
             && (exists j :: 0 <= j < |sorted| && sorted[j].id != sorted[k].id && Ready(after, t, sorted[j]))
    ensures var d := sorted[FirstAvailable(s.records, Avoided(s.limits), t0, sorted)];
            var after := AfterFailure(s, d, at, headers);
            FallbackChoice(after.records, Avoided(after.limits), t, sorted) == Some(d)
            <==> !SaysScarce(headers) && (!Primed(s, d) || t > CooldownEnd(s, d, at))
  {
    hide CooldownLength, AfterFailure, Primed, SaysScarce;
    var k := FirstAvailable(s.records, Avoided(s.limits), t0, sorted);
    var d := sorted[k];
    var after := AfterFailure(s, d, at, headers);
    ReadyAgainIff(s, d, t0, at, headers, t);
    var k' := FirstAvailable(after.records, Avoided(after.limits), t, sorted);
    if Ready(after, t, d) {
      assert k' == k;
    } else {
      assert k' < |sorted| && sorted[k'] != d;
    }
  }

  // ---------------------------------------------------------------- a request on a calm group

  ghost predicate DistinctNames(ds: seq<Deployment>) {
    forall i, j :: 0 <= i < j < |ds| ==> ds[i].id != ds[j].id
  }

  /**
   * The fallback strategy over a fixed order; nothing is cancelled, every provider registered; a
   * deployment works or fails, always retryably.
   */
  ghost predicate Calm(w: World, ds: seq<Deployment>, works: Deployment -> bool) {
    && DistinctNames(ds) && w.strategyKnown && w.select == FallbackSelect(ds, w.clock)
    && (forall i: nat :: !w.cancelled(i)) && (forall i: nat :: !w.interrupted(i)) && (forall p: string :: w.registered(p))
    && (forall i: nat, d: Deployment :: w.execute(i, d).error.None? <==> works(d))
    && (forall i: nat, d: Deployment :: w.execute(i, d).error.Some? ==> w.execute(i, d).error.value.retryable)
  }

  /**
   * The request is over before anyone's health changes by the passing of time: nobody recovers
   * during its n iterations, and a cooldown that starts in it outlasts it.
   */
  ghost predicate Brief(w: World, ds: seq<Deployment>, s: Routing, n: int) {
    && (forall i: nat :: i < n ==> w.clock(i) > 0)
    && (forall i: nat, d: Deployment :: i < n && d in ds ==> (Ready(s, w.clock(i), d) <==> Ready(s, w.clock(0), d)))
    && (forall i: nat, j: nat, d: Deployment :: i <= j < n && d in ds && Primed(s, d) ==> w.clock(j) <= CooldownEnd(s, d, w.clock(i)))
  }

  /** The deployments available when the request starts, in priority order. */
  function Line(w: World, ds: seq<Deployment>, s: Routing): seq<Deployment> {
    AvailableOf(s.records, Avoided(s.limits), w.clock(0), ds)
  }

  /** The first k of the line are called one after another. */
  function Called(w: World, line: seq<Deployment>, k: nat): seq<Round>
    requires k <= |line|
  {
    if k == 0 then [] else Called(w, line, k - 1) + [Round(line[k - 1], Some(Upstream(w, k - 1, line[k - 1])))]
  }

  lemma {:induction false} CalledRounds(w: World, line: seq<Deployment>, k: nat, i: nat)
    requires i < k <= |line|
    ensures |Called(w, line, k)| == k && Called(w, line, k)[i] == Round(line[i], Some(Upstream(w, i, line[i])))
    ensures Called(w, line, k)[..i] == Called(w, line, i)
  {
    if i < k - 1 {
      CalledRounds(w, line, k - 1, i);
      assert Called(w, line, k)[..i] == Called(w, line, k - 1)[..i];
    } else {
      if k > 1 { CalledRounds(w, line, k - 1, 0); }
      assert Called(w, line, k)[..i] == Called(w, line, k - 1);
    }
  }

  lemma CalledLength(w: World, line: seq<Deployment>, k: nat)
    requires k <= |line|
    ensures |Called(w, line, k)| == k
  {
    if k > 0 { CalledRounds(w, line, k, 0); }
  }

  // ---------------------------------------------------------------- the router state along the line

  lemma NotedAvoids(limits: Limits, id: string, headers: Option<RateLimitInfo>, other: string)
    ensures other in Avoided(Noted(limits, id, headers)) <==>
            if headers.Some? && other == id then Scarce(headers.value) else other in Avoided(limits)
  {}

  /** After the first k of the line have failed, their records are one failure on; others are untouched. */
  lemma {:induction false} RecordsAlong(w: World, s: Routing, line: seq<Deployment>, k: nat, id: string)
    requires k <= |line| && DistinctNames(line)
    requires forall i: nat :: i < k ==> w.execute(i, line[i]).error.Some?
    ensures var now_ := StateAfter(w, s, Called(w, line, k)).records;
            && (forall i :: 0 <= i < k && line[i].id == id ==> id in now_ && now_[id] == Failed(RecordFor(s.records, id), w.clock(i)))
            && ((forall i :: 0 <= i < k ==> line[i].id != id) ==> (id in now_ <==> id in s.records) && RecordFor(now_, id) == RecordFor(s.records, id))
  {
    hide Failed, ReportsOf, StateAfter, AttemptsOf, WaitsOf, WaitAfter, Noted;
    if k == 0 {
      NothingYet(DEFAULT_CONFIG, w, s, 0);
    } else {
      RecordsAlong(w, s, line, k - 1, id);
      CalledLength(w, line, k - 1);
      LastRound(DEFAULT_CONFIG, w, s, Called(w, line, k - 1), Round(line[k - 1], Some(Upstream(w, k - 1, line[k - 1]))));
    }
  }

  /** And whoever of them sent headers is avoided or not as those headers say. */
  lemma {:induction false} AvoidedAlong(w: World, s: Routing, line: seq<Deployment>, k: nat, id: string)
    requires k <= |line| && DistinctNames(line)
    ensures var now_ := Avoided(StateAfter(w, s, Called(w, line, k)).limits);
            && (forall i :: 0 <= i < k && line[i].id == id ==>
                  var headers := w.execute(i, line[i]).headers;
                  (id in now_ <==> if headers.Some? then Scarce(headers.value) else id in Avoided(s.limits)))
            && ((forall i :: 0 <= i < k ==> line[i].id != id) ==> (id in now_ <==> id in Avoided(s.limits)))
  {
    hide Scarce, Avoided, Noted, Apply, ReportOf, ReportsOf, StateAfter, AttemptsOf, WaitsOf, WaitAfter;
    if k == 0 {
      NothingYet(DEFAULT_CONFIG, w, s, 0);
    } else {
      AvoidedAlong(w, s, line, k - 1, id);
      CalledLength(w, line, k - 1);
      var before, d := StateAfter(w, s, Called(w, line, k - 1)), line[k - 1];
      LastRound(DEFAULT_CONFIG, w, s, Called(w, line, k - 1), Round(d, Some(Upstream(w, k - 1, d))));
      NotedAvoids(before.limits, d.id, w.execute(k - 1, d).headers, id);
    }
  }

  /**
   * A failure in iteration i makes the strategy leave d: it starts a cooldown, or the headers of
   * the answer leave less than a tenth of a limit.
   */
  predicate Leaves(w: World, s: Routing, i: nat, d: Deployment) {
    Primed(s, d) || SaysScarce(w.execute(i, d).headers)
  }

  /** Who is ready at iteration t after the first k have failed and left. */
  lemma ReadyAlong(w: World, ds: seq<Deployment>, s: Routing, works: Deployment -> bool, n: int, k: nat, t: nat, d: Deployment)
    requires Calm(w, ds, works) && Brief(w, ds, s, n) && d in ds
    requires var line := Line(w, ds, s);
             k <= |line| && k <= t < n && DistinctNames(line) && forall i :: 0 <= i < k ==> !works(line[i]) && Leaves(w, s, i, line[i]) && line[i] in ds
    ensures var line := Line(w, ds, s);
            Ready(StateAfter(w, s, Called(w, line, k)), w.clock(t), d) <==>
            Ready(s, w.clock(0), d) && forall i :: 0 <= i < k ==> line[i].id != d.id
  {
    hide CooldownLength, StateAfter, Called, Line, DistinctNames, Brief, Calm, Avoided, Scarce;
    var line := Line(w, ds, s);
    LineFails(w, ds, works, line, k);
    RecordsAlong(w, s, line, k, d.id);
    AvoidedAlong(w, s, line, k, d.id);
    BriefAt(w, ds, s, n, t, d);
    if i :| 0 <= i < k && line[i].id == d.id {
      if Primed(s, line[i]) { Lasts(w, ds, s, n, i, t, line[i]); }
    }
  }

  lemma LineFails(w: World, ds: seq<Deployment>, works: Deployment -> bool, line: seq<Deployment>, k: nat)
    requires Calm(w, ds, works) && k <= |line| && forall i :: 0 <= i < k ==> !works(line[i])
    ensures forall i: nat :: i < k ==> w.execute(i, line[i]).error.Some?
  {
    hide FallbackSelect, DistinctNames;
  }

  lemma BriefAt(w: World, ds: seq<Deployment>, s: Routing, n: int, t: nat, d: Deployment)
    requires Brief(w, ds, s, n) && t < n && d in ds
    ensures w.clock(t) > 0 && (Ready(s, w.clock(t), d) <==> Ready(s, w.clock(0), d))
  {
    hide Ready, Primed, CooldownEnd;
  }

  lemma Lasts(w: World, ds: seq<Deployment>, s: Routing, n: int, i: nat, t: nat, d: Deployment)
    requires Brief(w, ds, s, n) && i <= t < n && d in ds && Primed(s, d)
    ensures w.clock(t) <= CooldownEnd(s, d, w.clock(i))
  {
    hide Ready, CooldownEnd;
  }

  // ---------------------------------------------------------------- the line keeps the order

  lemma {:induction false} LineInOrder(records: Records, avoid: set<string>, now: Instant, ds: seq<Deployment>, a: nat, b: nat, m: nat, k: nat)
    requires DistinctNames(ds) && m < |ds| && k < |ds|
    requires var line := AvailableOf(records, avoid, now, ds); a < b < |line| && line[a] == ds[m] && line[b] == ds[k]
    ensures m < k
  {
    hide Available;
    var n := |ds| - 1;
    var prev := AvailableOf(records, avoid, now, ds[..n]);
    assert ds == ds[..n] + [ds[n]];
    assert a < |prev|;
    AvailableOfMembers(records, avoid, now, ds[..n], prev[a]);
    var m' :| 0 <= m' < n && ds[..n][m'] == prev[a];
    assert m == m' by { assert ds[m'].id == ds[m].id; }
    if b < |prev| {
      AvailableOfMembers(records, avoid, now, ds[..n], prev[b]);
      var k' :| 0 <= k' < n && ds[..n][k'] == prev[b];
      assert k == k' by { assert ds[k'].id == ds[k].id; }
      LineInOrder(records, avoid, now, ds[..n], a, b, m, k);
    } else {
      assert k == n by { assert ds[k].id == ds[n].id; }
    }
  }

  lemma {:induction false} LineDistinct(records: Records, avoid: set<string>, now: Instant, ds: seq<Deployment>)
    requires DistinctNames(ds)
    ensures DistinctNames(AvailableOf(records, avoid, now, ds))
  {
    hide Available;
    if ds != [] {
      var n := |ds| - 1;
      LineDistinct(records, avoid, now, ds[..n]);
      var prev := AvailableOf(records, avoid, now, ds[..n]);
      forall i | 0 <= i < |prev| ensures prev[i].id != ds[n].id {
        AvailableOfMembers(records, avoid, now, ds[..n], prev[i]);
        var m :| 0 <= m < n && ds[..n][m] == prev[i];
      }
    }
  }

  /** If exactly the line from position k on is available, the strategy answers its k-th member. */
  lemma ChoosesNext(s: Routing, t0: Instant, ds: seq<Deployment>, now_: Routing, t: Instant, k: nat)
    requires DistinctNames(ds) && k < |AvailableOf(s.records, Avoided(s.limits), t0, ds)|
    requires var line := AvailableOf(s.records, Avoided(s.limits), t0, ds);
             forall d :: d in ds ==> (Ready(now_, t, d) <==> Ready(s, t0, d) && forall i :: 0 <= i < k ==> line[i].id != d.id)
    ensures FallbackChoice(now_.records, Avoided(now_.limits), t, ds) == Some(AvailableOf(s.records, Avoided(s.limits), t0, ds)[k])
  {
    hide Available, Avoided;
    var records, avoid := s.records, Avoided(s.limits);
    var line := AvailableOf(records, avoid, t0, ds);
    LineDistinct(records, avoid, t0, ds);
    AvailableOfMembers(records, avoid, t0, ds, line[k]);
    var m :| 0 <= m < |ds| && ds[m] == line[k];
    assert Ready(now_, t, ds[m]);
    var f := FirstAvailable(now_.records, Avoided(now_.limits), t, ds);
    assert f <= m;
    assert Ready(now_, t, ds[f]);
    AvailableOfMembers(records, avoid, t0, ds, ds[f]);
    var b :| 0 <= b < |line| && line[b] == ds[f];
    assert b >= k;
    if b > k { LineInOrder(records, avoid, t0, ds, k, b, m, f); }
  }

  // ---------------------------------------------------------------- the two kinds of run

  /** The first k of the line fail and are left. */
  ghost predicate AllLeft(w: World, s: Routing, line: seq<Deployment>, works: Deployment -> bool, k: nat) {
    k <= |line| && forall i :: 0 <= i < k ==> !works(line[i]) && Leaves(w, s, i, line[i])
  }

  lemma LineFacts(w: World, ds: seq<Deployment>, s: Routing)
    requires DistinctNames(ds)
    ensures var line := Line(w, ds, s);
            |line| <= |ds| && DistinctNames(line) && forall i :: 0 <= i < |line| ==> line[i] in ds && Ready(s, w.clock(0), line[i])
  {
    hide Available, Avoided;
    var records, avoid := s.records, Avoided(s.limits);
    var line := Line(w, ds, s);
    LineDistinct(records, avoid, w.clock(0), ds);
    LineShorter(records, avoid, w.clock(0), ds);
    forall i | 0 <= i < |line| ensures line[i] in ds && Ready(s, w.clock(0), line[i]) {
      AvailableOfMembers(records, avoid, w.clock(0), ds, line[i]);
    }
  }

  lemma {:induction false} LineShorter(records: Records, avoid: set<string>, now: Instant, ds: seq<Deployment>)
    ensures |AvailableOf(records, avoid, now, ds)| <= |ds|
  {
    if ds != [] { LineShorter(records, avoid, now, ds[..|ds| - 1]); }
  }

  /** Iteration i chooses the i-th of the line, if everyone before failed into a cooldown. */
  lemma ChoosesInTurn(w: World, ds: seq<Deployment>, s: Routing, works: Deployment -> bool, n: int, i: nat)
    requires Calm(w, ds, works) && Brief(w, ds, s, n) && i < n
    requires AllLeft(w, s, Line(w, ds, s), works, i) && i < |Line(w, ds, s)|
    ensures var line := Line(w, ds, s); w.select(i, StateAfter(w, s, Called(w, line, i))) == Some(line[i])
  {
    hide Ready, Brief, StateAfter, Called, Leaves, FallbackChoice;
    var line := Line(w, ds, s);
    LineFacts(w, ds, s);
    var now_ := StateAfter(w, s, Called(w, line, i));
    forall d | d in ds
      ensures Ready(now_, w.clock(i), d) <==> Ready(s, w.clock(0), d) && forall j :: 0 <= j < i ==> line[j].id != d.id
    {
      ReadyAlong(w, ds, s, works, n, i, i, d);
    }
    ChoosesNext(s, w.clock(0), ds, now_, w.clock(i), i);
  }

  /** The first k of the line are called in turn, if all but possibly the last leave. */
  lemma CalledFits(w: World, ds: seq<Deployment>, s: Routing, works: Deployment -> bool, n: int, k: nat, i: nat)
    requires Calm(w, ds, works) && Brief(w, ds, s, n) && i < k <= n
    requires var line := Line(w, ds, s); k <= |line| && AllLeft(w, s, line, works, k - 1)
    ensures |Called(w, Line(w, ds, s), k)| == k && Fits(w, s, Called(w, Line(w, ds, s), k), i)
  {
    hide Brief, StateAfter, Leaves, Upstream, FallbackSelect;
    var line := Line(w, ds, s);
    LineFacts(w, ds, s);
    CalledRounds(w, line, k, i);
    ChoosesInTurn(w, ds, s, works, n, i);
    hide Line;
    forall j | 0 <= j < i ensures Called(w, line, i)[j].chosen.id != line[i].id { CalledRounds(w, line, i, j); }
    CalledLength(w, line, i);
  }

  lemma FailsOn(c: Config, w: World, ds: seq<Deployment>, works: Deployment -> bool, i: nat, d: Deployment)
    requires Calm(w, ds, works) && !works(d)
    ensures GoesOn(c, w, i, Round(d, Some(Upstream(w, i, d))))
  {
    hide ComputeBackoff, FallbackSelect;
  }

  /** Everyone ahead leaves, the p-th works and is called within the limit: the request succeeds. */
  lemma SucceedingRun(c: Config, w: World, ds: seq<Deployment>, s: Routing, works: Deployment -> bool, p: nat)
    requires Calm(w, ds, works) && Brief(w, ds, s, MaxAttempts(c, |ds|))
    requires var line := Line(w, ds, s);
             p < |line| && p < MaxAttempts(c, |ds|) && AllLeft(w, s, line, works, p) && works(line[p])
    ensures var line := Line(w, ds, s);
            IsRun(c, w, s, |ds|, Called(w, line, p + 1), Result.Succeeded(Upstream(w, p, line[p])))
  {
    hide Brief, Fits, Called, Line, ComputeBackoff, FallbackSelect, StateAfter;
    var line, n := Line(w, ds, s), MaxAttempts(c, |ds|);
    var rounds := Called(w, line, p + 1);
    CalledLength(w, line, p + 1);
    forall i | 0 <= i < |rounds| ensures Fits(w, s, rounds, i) { CalledFits(w, ds, s, works, n, p + 1, i); }
    forall i | 0 <= i < p ensures GoesOn(c, w, i, rounds[i]) {
      CalledRounds(w, line, p + 1, i);
      FailsOn(c, w, ds, works, i, line[i]);
    }
    CalledRounds(w, line, p + 1, p);
  }

  /** m rounds in which the strategy repeats itself. */
  function Repeated(d: Deployment, m: nat): seq<Round> {
    if m == 0 then [] else Repeated(d, m - 1) + [Round(d, None)]
  }

  lemma {:induction false} RepeatsAddNothing(w: World, before: Routing, rounds: seq<Round>, d: Deployment, m: nat)
    ensures |Repeated(d, m)| == m && forall i :: 0 <= i < m ==> Repeated(d, m)[i] == Round(d, None)
    ensures AttemptsOf(rounds + Repeated(d, m)) == AttemptsOf(rounds)
    ensures StateAfter(w, before, rounds + Repeated(d, m)) == StateAfter(w, before, rounds)
  {
    hide StateAfter, ReportsOf, AttemptsOf;
    if m == 0 {
      assert rounds + [] == rounds;
    } else {
      RepeatsAddNothing(w, before, rounds, d, m - 1);
      var prev := rounds + Repeated(d, m - 1);
      assert rounds + Repeated(d, m) == prev + [Round(d, None)];
      LastRound(DEFAULT_CONFIG, w, before, prev, Round(d, None));
      assert AttemptsOf(prev) + [] == AttemptsOf(prev);
    }
  }

  lemma {:induction false} RepeatedPrefix(d: Deployment, m: nat, i: nat)
    requires i <= m
    ensures |Repeated(d, m)| == m && Repeated(d, m)[..i] == Repeated(d, i)
  {
    if i < m {
      RepeatedPrefix(d, m - 1, i);
      assert Repeated(d, m)[..i] == Repeated(d, m - 1)[..i];
    } else if m > 0 {
      RepeatedPrefix(d, m - 1, m - 1);
      assert Repeated(d, m)[..m] == Repeated(d, m);
    }
  }

  /** One failure that starts no cooldown leaves the q-th where it was: still available, still first. */
  lemma ReadyStuck(w: World, ds: seq<Deployment>, s: Routing, works: Deployment -> bool, n: int, q: nat, t: nat, d: Deployment)
    requires Calm(w, ds, works) && Brief(w, ds, s, n) && d in ds && q < t < n
    requires var line := Line(w, ds, s);
             q < |line| && AllLeft(w, s, line, works, q) && !works(line[q]) && !Leaves(w, s, q, line[q]) && DistinctNames(line)
             && (forall i :: 0 <= i < |line| ==> line[i] in ds && Ready(s, w.clock(0), line[i]))
    ensures var line := Line(w, ds, s);
            Ready(StateAfter(w, s, Called(w, line, q + 1)), w.clock(t), d) <==>
            Ready(s, w.clock(0), d) && forall i :: 0 <= i < q ==> line[i].id != d.id
  {
    hide CooldownLength, StateAfter, Called, Line, DistinctNames, Brief, Calm, Avoided, Scarce;
    var line := Line(w, ds, s);
    LineFails(w, ds, works, line, q + 1);
    RecordsAlong(w, s, line, q + 1, d.id);
    AvoidedAlong(w, s, line, q + 1, d.id);
    BriefAt(w, ds, s, n, t, d);
    if i :| 0 <= i < q && line[i].id == d.id {
      if Primed(s, line[i]) { Lasts(w, ds, s, n, i, t, line[i]); }
    }
  }

  /** From then on the strategy answers the q-th again, whatever the iteration. */
  lemma ChoosesAgain(w: World, ds: seq<Deployment>, s: Routing, works: Deployment -> bool, n: int, q: nat, t: nat)
    requires Calm(w, ds, works) && Brief(w, ds, s, n) && q < t < n
    requires var line := Line(w, ds, s);
             q < |line| && AllLeft(w, s, line, works, q) && !works(line[q]) && !Leaves(w, s, q, line[q])
    ensures var line := Line(w, ds, s); w.select(t, StateAfter(w, s, Called(w, line, q + 1))) == Some(line[q])
  {
    hide Ready, Brief, StateAfter, Called, Leaves, FallbackChoice;
    var line := Line(w, ds, s);
    LineFacts(w, ds, s);
    var now_ := StateAfter(w, s, Called(w, line, q + 1));
    forall d | d in ds
      ensures Ready(now_, w.clock(t), d) <==> Ready(s, w.clock(0), d) && forall j :: 0 <= j < q ==> line[j].id != d.id
    {
      ReadyStuck(w, ds, s, works, n, q, t, d);
    }
    ChoosesNext(s, w.clock(0), ds, now_, w.clock(t), q);
  }

  /** The rounds of a request that stays with the q-th of the line. */
  function StuckRounds(w: World, line: seq<Deployment>, q: nat, n: nat): seq<Round>
    requires q < |line| && q < n
  {
    Called(w, line, q + 1) + Repeated(line[q], n - q - 1)
  }

  lemma StuckFits(w: World, ds: seq<Deployment>, s: Routing, works: Deployment -> bool, n: nat, q: nat, t: nat)
    requires Calm(w, ds, works) && Brief(w, ds, s, n) && q < n && t < n
    requires var line := Line(w, ds, s);
             q < |line| && AllLeft(w, s, line, works, q) && !works(line[q]) && (q == n - 1 || !Leaves(w, s, q, line[q]))
    ensures var rounds := StuckRounds(w, Line(w, ds, s), q, n); |rounds| == n && Fits(w, s, rounds, t)
  {
    hide Brief, StateAfter, Leaves, Upstream, FallbackSelect, Line, Called, Repeated;
    var line := Line(w, ds, s);
    var called, rounds := Called(w, line, q + 1), StuckRounds(w, line, q, n);
    CalledLength(w, line, q + 1);
    RepeatsAddNothing(w, s, called, line[q], n - q - 1);
    if t <= q {
      CalledFits(w, ds, s, works, n, q + 1, t);
      assert rounds[..t] == called[..t];
    } else {
      ChoosesAgain(w, ds, s, works, n, q, t);
      RepeatedPrefix(line[q], n - q - 1, t - q - 1);
      assert rounds[..t] == called + Repeated(line[q], t - q - 1);
      RepeatsAddNothing(w, s, called, line[q], t - q - 1);
      CalledRounds(w, line, q + 1, q);
      assert rounds[..t][q].chosen.id == line[q].id;
    }
  }

  /** The q-th fails without a cooldown, or in the last iteration: the request ends exhausted there. */
  lemma StuckRun(c: Config, w: World, ds: seq<Deployment>, s: Routing, works: Deployment -> bool, q: nat)
    requires Calm(w, ds, works) && q < MaxAttempts(c, |ds|) && Brief(w, ds, s, MaxAttempts(c, |ds|))
    requires var line := Line(w, ds, s);
             && q < |line| && AllLeft(w, s, line, works, q) && !works(line[q])
             && (q == MaxAttempts(c, |ds|) - 1 || !Leaves(w, s, q, line[q]))
    ensures var line := Line(w, ds, s);
            IsRun(c, w, s, |ds|, StuckRounds(w, line, q, MaxAttempts(c, |ds|)), Exhausted(Upstream(w, q, line[q])))
  {
    hide Brief, Fits, Line, ComputeBackoff, FallbackSelect, StateAfter, Upstream, GoesOn, Leaves;
    var line, n := Line(w, ds, s), MaxAttempts(c, |ds|);
    var called, rounds := Called(w, line, q + 1), StuckRounds(w, line, q, n);
    hide StuckRounds, Called, AttemptsOf;
    StuckFits(w, ds, s, works, n, q, 0);
    forall t | 0 <= t < n ensures Fits(w, s, rounds, t) { StuckFits(w, ds, s, works, n, q, t); }
    forall t | 0 <= t < n ensures GoesOn(c, w, t, rounds[t]) { StuckGoesOn(c, w, ds, works, line, q, n, t); }
    StuckAttempts(w, s, line, q, n);
  }

  lemma StuckAttempts(w: World, s: Routing, line: seq<Deployment>, q: nat, n: nat)
    requires q < |line| && q < n
    ensures var attempts := AttemptsOf(StuckRounds(w, line, q, n));
            attempts == AttemptsOf(Called(w, line, q)) + [Upstream(w, q, line[q])]
  {
    hide AttemptsOf, StateAfter, Upstream;
    RepeatsAddNothing(w, s, Called(w, line, q + 1), line[q], n - q - 1);
    LastRound(DEFAULT_CONFIG, w, s, Called(w, line, q), Round(line[q], Some(Upstream(w, q, line[q]))));
  }

  lemma StuckGoesOn(c: Config, w: World, ds: seq<Deployment>, works: Deployment -> bool, line: seq<Deployment>, q: nat, n: nat, t: nat)
    requires Calm(w, ds, works) && q < |line| && q < n && t < n && forall i :: 0 <= i <= q ==> !works(line[i])
    ensures |StuckRounds(w, line, q, n)| == n && GoesOn(c, w, t, StuckRounds(w, line, q, n)[t])
  {
    hide ComputeBackoff, FallbackSelect, Called, Repeated, Upstream;
    CalledLength(w, line, q + 1);
    RepeatsAddNothing(w, Routing(map[], map[]), [], line[q], n - q - 1);
    if t <= q {
      CalledRounds(w, line, q + 1, t);
      FailsOn(c, w, ds, works, t, line[t]);
    }
  }

  // ---------------------------------------------------------------- exactly when a request fails over

  /**
   * Some ready deployment works, the p-th in priority order being the first. The request succeeds
   * if and only if p is within the retry limit and each ready deployment ahead of it is one failure
   * short of a cooldown or sends headers that leave less than a tenth of a limit; otherwise it ends
   * exhausted although p would have answered.
   */
  lemma FailoverIff(c: Config, w: World, ds: seq<Deployment>, s: Routing, works: Deployment -> bool,
                    p: nat, rounds: seq<Round>, r: Result)
    requires Calm(w, ds, works) && Brief(w, ds, s, MaxAttempts(c, |ds|)) && IsRun(c, w, s, |ds|, rounds, r)
    requires var line := Line(w, ds, s);
             p < |line| && works(line[p]) && forall j :: 0 <= j < p ==> !works(line[j])
    ensures var line := Line(w, ds, s);
            && (r.Succeeded? <==> p <= c.maxRetries && forall j :: 0 <= j < p ==> Leaves(w, s, j, line[j]))
            && (r.Succeeded? ==> r.attempt.deployment == line[p])
            && (!r.Succeeded? && c.maxRetries >= 0 ==> r.Exhausted?)
  {
    hide Calm, Brief, IsRun, Leaves, Line, Called, StuckRounds;
    var line, n := Line(w, ds, s), MaxAttempts(c, |ds|);
    assert DistinctNames(ds) by { Named(w, ds, works); }
    LineFacts(w, ds, s);
    if p < n && forall j :: 0 <= j < p ==> Leaves(w, s, j, line[j]) {
      SucceedingRun(c, w, ds, s, works, p);
      RunUnique(c, w, s, |ds|, rounds, r, Called(w, line, p + 1), Result.Succeeded(Upstream(w, p, line[p])));
    } else if n > 0 {
      var q := FirstToStay(w, s, line, works, p, n);
      StuckRun(c, w, ds, s, works, q);
      RunUnique(c, w, s, |ds|, rounds, r, StuckRounds(w, line, q, n), Exhausted(Upstream(w, q, line[q])));
    } else {
      NoIterations(c, w, ds, works, s, rounds, r);
    }
  }

  lemma Named(w: World, ds: seq<Deployment>, works: Deployment -> bool)
    requires Calm(w, ds, works)
    ensures DistinctNames(ds)
  {}

  lemma NoIterations(c: Config, w: World, ds: seq<Deployment>, works: Deployment -> bool, s: Routing, rounds: seq<Round>, r: Result)
    requires Calm(w, ds, works) && MaxAttempts(c, |ds|) <= 0 && IsRun(c, w, s, |ds|, rounds, r)
    ensures r == NoDeployments
  {
    hide FallbackSelect, StateAfter;
    NothingYet(c, w, s, |ds|);
  }

  /** The first of the line that is not left after its failure, or the last one the limit allows. */
  lemma FirstToStay(w: World, s: Routing, line: seq<Deployment>, works: Deployment -> bool, p: nat, n: int) returns (q: nat)
    requires 0 < n && p < |line| && forall j :: 0 <= j < p ==> !works(line[j])
    requires p >= n || !forall j :: 0 <= j < p ==> Leaves(w, s, j, line[j])
    ensures q < n && q < p && AllLeft(w, s, line, works, q) && (q == n - 1 || !Leaves(w, s, q, line[q]))
  {
    hide Leaves;
    q := 0;
    while q < n - 1 && Leaves(w, s, q, line[q])
      invariant q < n && q < p && AllLeft(w, s, line, works, q)
      decreases n - q
    {
      q := q + 1;
    }
  }

  // ---------------------------------------------------------------- two deployments

  const A := Deployment("a", "p", 0, 0, 0.0)
  const B := Deployment("b", "p", 1, 0, 0.0)

  function BWorks(d: Deployment): bool { d.id == "b" }

  predicate FailsRetryably(answer: Answer) { answer.error.Some? && answer.error.value.retryable }

  /** B answers; everyone else fails in the given way. */
  function BAnswers(answer: Answer): World {
    var clock: nat -> Instant := (i: nat) => 1;
    World(true, (i: nat) => false, FallbackSelect([A, B], clock), (p: string) => true,
          (i: nat, d: Deployment) => if BWorks(d) then Answer(None, 200, None) else answer,
          clock, (i: nat) => false)
  }

  /** The failure counter of a is at n, nothing else is known about anyone. */
  function AFailed(n: nat): Routing {
    Routing(if n == 0 then map[] else map["a" := DeploymentHealth(n, 0, 0, 0)], map[])
  }

  lemma DifferentNames()
    ensures A.id != B.id && !BWorks(A) && BWorks(B) && DistinctNames([A, B])
  {
    var a, b := "a", "b";
    assert a[0] != b[0];
  }

  lemma BothReady(n: nat, d: Deployment)
    ensures Ready(AFailed(n), 1, d)
    ensures Primed(AFailed(n), A) <==> n >= 2
    ensures Primed(AFailed(n), d) ==> 1 <= CooldownEnd(AFailed(n), d, 1)
  {
    hide CooldownLength;
    BackoffAsIntended(1);
    assert IntendedLength(1) == BASE_COOLDOWN;
  }

  lemma BothInLine(n: nat)
    ensures var s := AFailed(n); AvailableOf(s.records, Avoided(s.limits), 1, [A, B]) == [A, B]
  {
    hide Available, AFailed, Avoided;
    var s := AFailed(n);
    BothReady(n, A);
    BothReady(n, B);
    assert AvailableOf(s.records, Avoided(s.limits), 1, []) == [];
    assert [A][..0] == [] && [A, B][..1] == [A];
    assert AvailableOf(s.records, Avoided(s.limits), 1, [A]) == [A];
  }

  lemma TwoInLine(answer: Answer, n: nat)
    requires FailsRetryably(answer)
    ensures Calm(BAnswers(answer), [A, B], BWorks) && Brief(BAnswers(answer), [A, B], AFailed(n), 2)
    ensures Line(BAnswers(answer), [A, B], AFailed(n)) == [A, B]
    ensures Leaves(BAnswers(answer), AFailed(n), 0, A) <==> n >= 2 || SaysScarce(answer.headers)
  {
    hide Ready, AFailed, Primed, CooldownEnd, BWorks, AvailableOf, SaysScarce;
    var w := BAnswers(answer);
    assert forall i: nat :: w.clock(i) == 1;
    assert w.select == FallbackSelect([A, B], w.clock);
    DifferentNames();
    forall d ensures Ready(AFailed(n), 1, d) && (Primed(AFailed(n), d) ==> 1 <= CooldownEnd(AFailed(n), d, 1)) { BothReady(n, d); }
    BothReady(n, A);
    BothInLine(n);
  }

  /**
   * With the default configuration and two deployments of which only the second works, a request
   * reaches the second exactly if the first has two failures in a row behind it or its answer leaves
   * less than a tenth of a limit; otherwise it ends exhausted after one call.
   */
  lemma SecondOfTwoReachedIff(answer: Answer, n: nat, rounds: seq<Round>, r: Result)
    requires FailsRetryably(answer) && IsRun(DEFAULT_CONFIG, BAnswers(answer), AFailed(n), 2, rounds, r)
    ensures if n >= 2 || SaysScarce(answer.headers) then r.Succeeded? && r.attempt.deployment == B
            else r.Exhausted? && r.attempt.deployment == A && |AttemptsOf(rounds)| == 1
  {
    hide Calm, Brief, IsRun, Leaves, Line, BAnswers, AFailed, SaysScarce;
    TwoInLine(answer, n);
    DifferentNames();
    FailoverIff(DEFAULT_CONFIG, BAnswers(answer), [A, B], AFailed(n), BWorks, 1, rounds, r);
    if n < 2 && !SaysScarce(answer.headers) {
      OnlyA(answer, n, rounds, r);
    }
  }

  lemma OnlyA(answer: Answer, n: nat, rounds: seq<Round>, r: Result)
    requires FailsRetryably(answer) && n < 2 && !SaysScarce(answer.headers)
    requires IsRun(DEFAULT_CONFIG, BAnswers(answer), AFailed(n), 2, rounds, r)
    ensures r.Exhausted? && r.attempt.deployment == A && |AttemptsOf(rounds)| == 1
  {
    hide Calm, Brief, IsRun, Leaves, Line, BAnswers, AFailed, Called, Upstream, SaysScarce;
    TwoInLine(answer, n);
    DifferentNames();
    var w, line := BAnswers(answer), [A, B];
    StuckRun(DEFAULT_CONFIG, w, line, AFailed(n), BWorks, 0);
    var stuck := StuckRounds(w, line, 0, 2);
    RunUnique(DEFAULT_CONFIG, w, AFailed(n), 2, rounds, r, stuck, Exhausted(Upstream(w, 0, A)));
    StuckAttempts(w, AFailed(n), line, 0, 2);
    NoCall(w, line);
  }

  lemma NoCall(w: World, line: seq<Deployment>)
    requires line != []
    ensures AttemptsOf(Called(w, line, 0)) == [] && Upstream(w, 0, line[0]).deployment == line[0]
  {}

  /** 503, without rate limit headers. */
  const OVERLOADED := Answer(Some(ProviderError(false, true, 0)), 503, None)

  /** 429, with none of 500 requests left. */
  const LIMITED := Answer(Some(ProviderError(false, true, 0)), 429, Some(RateLimitInfo(500, 0, 0, 0)))

  /** Nobody has failed before: a 503 of the first ends the request although the second would have answered. */
  lemma WorkingDeploymentMissed(rounds: seq<Round>, r: Result)
    requires IsRun(DEFAULT_CONFIG, BAnswers(OVERLOADED), AFailed(0), 2, rounds, r)
    ensures r.Exhausted? && r.attempt.deployment == A && |AttemptsOf(rounds)| == 1
  {
    SecondOfTwoReachedIff(OVERLOADED, 0, rounds, r);
  }

  /** The same request with a 429 that says nothing is left: the second is called, without any cooldown. */
  lemma LimitedDeploymentLeft(rounds: seq<Round>, r: Result)
    requires IsRun(DEFAULT_CONFIG, BAnswers(LIMITED), AFailed(0), 2, rounds, r)
    ensures r.Succeeded? && r.attempt.deployment == B
  {
    SecondOfTwoReachedIff(LIMITED, 0, rounds, r);
  }
}
