/**
 * ExecuteWithRetry over any strategy and any upstream. A run is described round by round: what
 * the strategy chose given the answers so far, and what the upstream answered if it was called.
 */
module Retry {
  import opened Basics
  import opened Calendar
  import opened Health
  import opened ProviderLimits
  import opened Strategies

  const SECOND: int := 1_000_000_000

  datatype Config = Config(maxRetries: int, baseBackoff: int, maxBackoff: int)

  const DEFAULT_CONFIG := Config(3, SECOND, 8 * SECOND)

  datatype ProviderError = ProviderError(timeout: bool, retryable: bool, retryAfter: int)

  /** What a call brings back: an error or none, the status code, and the provider's rate limit headers. */
  datatype Answer = Answer(error: Option<ProviderError>, statusCode: int, headers: Option<RateLimitInfo>)

  datatype Attempt = Attempt(deployment: Deployment, error: Option<ProviderError>, statusCode: int)

  datatype Result =
    | UnknownStrategy
    | Cancelled
    | SelectFailed
    | NoDeployments
    | Succeeded(attempt: Attempt)
    | GaveUp(attempt: Attempt)      // an error that must not be retried
    | Exhausted(attempt: Attempt)   // iterations used up after retryable errors

  /** The router state the loop changes: health records and the providers' last headers. */
  datatype Routing = Routing(records: Records, limits: Limits)

  /**
   * Everything outside the loop, per iteration: cancellation, the strategy (which sees the router
   * state), the registry, the upstream call, the clock, and cancellation during the wait.
   */
  datatype World = World(
    strategyKnown: bool,
    cancelled: nat -> bool,
    select: (nat, Routing) -> Option<Deployment>,
    registered: string -> bool,
    execute: (nat, Deployment) -> Answer,
    clock: nat -> Instant,
    interrupted: nat -> bool
  )

  // ---------------------------------------------------------------- backoff

  /** computeBackoff, in int64 nanoseconds. */
  function ComputeBackoff(c: Config, attemptNum: nat, a: Attempt): int {
    match a.error
    case None => 0
    case Some(e) =>
      if e.timeout then 0
      else if a.statusCode == 429 then
        if e.retryAfter > 0 then
          var d := Int64(Int64(e.retryAfter) * SECOND);
          if d > c.maxBackoff then c.maxBackoff else d
        else c.baseBackoff
      else
        var d := Int64(c.baseBackoff * Int64(Pow2(attemptNum)));
        if d > c.maxBackoff then c.maxBackoff else d
  }

  predicate Capped(c: Config) {
    0 <= c.maxBackoff && c.baseBackoff <= c.maxBackoff
  }

  lemma DefaultIsCapped()
    ensures Capped(DEFAULT_CONFIG)
  {}

  /**
   * No wait exceeds maxBackoff, whatever Retry-After says and even if the product overflows,
   * exactly when the configuration itself respects the cap.
   */
  lemma BackoffCappedIff(c: Config)
    ensures (forall n: nat, a: Attempt :: ComputeBackoff(c, n, a) <= c.maxBackoff) <==> Capped(c)
  {
    var d := Deployment("d", "p", 0, 0, 0.0);
    var limited := Attempt(d, Some(ProviderError(false, true, 0)), 429);
    var done := Attempt(d, None, 200);
    assert ComputeBackoff(c, 0, limited) == c.baseBackoff;
    assert ComputeBackoff(c, 0, done) == 0;
  }

  /** By default a request makes at most four attempts, and waits 1, 2 and 4 s, at most 8 s, after server errors. */
  lemma DefaultSchedule(a: Attempt, n: nat)
    requires a.error.Some? && !a.error.value.timeout && a.statusCode == 503
    ensures MaxAttempts(DEFAULT_CONFIG, n) == if n < 4 then n else 4
    ensures ComputeBackoff(DEFAULT_CONFIG, 0, a) == 1_000_000_000 && ComputeBackoff(DEFAULT_CONFIG, 1, a) == 2_000_000_000
    ensures ComputeBackoff(DEFAULT_CONFIG, 2, a) == 4_000_000_000 && ComputeBackoff(DEFAULT_CONFIG, 4, a) == 8_000_000_000
  {
    assert Pow2(1) == 2 && Pow2(2) == 4 && Pow2(3) == 8 && Pow2(4) == 16;
  }

  // ---------------------------------------------------------------- what a run is

  /** One iteration: the deployment the strategy chose, and the attempt if one was made. */
  datatype Round = Round(chosen: Deployment, attempt: Option<Attempt>)

  function ReportOf(a: Attempt, at: Instant): Report {
    if a.error.None? then Success(a.deployment.id) else Failure(a.deployment.id, at)
  }

  function ApplyAll(records: Records, reports: seq<Report>): Records {
    if reports == [] then records else Apply(ApplyAll(records, reports[..|reports| - 1]), reports[|reports| - 1])
  }

  predicate Retryable(a: Attempt) {
    a.error.Some? && a.error.value.retryable
  }

  function AttemptsOf(rounds: seq<Round>): seq<Attempt> {
    if rounds == [] then []
    else
      var last := rounds[|rounds| - 1];
      AttemptsOf(rounds[..|rounds| - 1]) + (if last.attempt.Some? then [last.attempt.value] else [])
  }

  /** The health updates of the attempts, at the clock of their iterations. */
  function ReportsOf(w: World, rounds: seq<Round>): seq<Report> {
    if rounds == [] then []
    else
      var i := |rounds| - 1;
      ReportsOf(w, rounds[..i]) + (if rounds[i].attempt.Some? then [ReportOf(rounds[i].attempt.value, w.clock(i))] else [])
  }

  /** The waits: the positive backoffs of the attempts that failed retryably. */
  function WaitsOf(c: Config, rounds: seq<Round>): seq<int> {
    if rounds == [] then []
    else WaitsOf(c, rounds[..|rounds| - 1]) + WaitAfter(c, |rounds| - 1, rounds[|rounds| - 1])
  }

  function WaitAfter(c: Config, i: nat, round: Round): seq<int> {
    if round.attempt.Some? && Retryable(round.attempt.value) && ComputeBackoff(c, i, round.attempt.value) > 0
    then [ComputeBackoff(c, i, round.attempt.value)] else []
  }

  /** The wait a retryable failure in iteration i asks for, before the cap: Retry-After, the base, or base * 2^i. */
  function Asked(c: Config, i: nat, a: Attempt): int
    requires a.error.Some?
  {
    if a.statusCode != 429 then c.baseBackoff * Pow2(i)
    else if a.error.value.retryAfter > 0 then a.error.value.retryAfter * 1_000_000_000
    else c.baseBackoff
  }

  /**
   * What round i adds to the recorded waits, as long as the durations fit into 64 bits: nothing after
   * a success, a final error, a timeout or an unanswered choice; after a 429 the seconds its Retry-After
   * asks for, or the base backoff without one; after any other error base * 2^i. A Retry-After and a
   * power are cut at the maximum, and what is not positive is no wait.
   */
  lemma WaitOfRound(c: Config, rounds: seq<Round>, i: nat)
    requires i < |rounds| && 0 <= c.baseBackoff
    requires rounds[i].attempt.Some? && rounds[i].attempt.value.error.Some? ==> Asked(c, i, rounds[i].attempt.value) < TWO_63
    ensures var before, after := WaitsOf(c, rounds[..i]), WaitsOf(c, rounds[..i + 1]);
            if rounds[i].attempt.None? || rounds[i].attempt.value.error.None? then after == before
            else
              var a := rounds[i].attempt.value;
              var e, asked := a.error.value, Asked(c, i, a);
              if !e.retryable || e.timeout then after == before
              else if a.statusCode == 429 && e.retryAfter <= 0 then after == before + if asked > 0 then [asked] else []
              else if asked <= c.maxBackoff then after == before + if asked > 0 then [asked] else []
              else after == before + if c.maxBackoff > 0 then [c.maxBackoff] else []
  {
    hide Int64, Pow2;
    assert rounds[..i + 1][..i] == rounds[..i] && rounds[..i + 1][i] == rounds[i];
    if rounds[i].attempt.Some? && rounds[i].attempt.value.error.Some? {
      var a := rounds[i].attempt.value;
      if a.statusCode == 429 {
        if a.error.value.retryAfter > 0 {
          Int64Small(a.error.value.retryAfter);
          Int64Small(a.error.value.retryAfter * SECOND);
        }
      } else {
        ShiftFits(c.baseBackoff, Pow2(i));
      }
    }
  }

  lemma ShiftFits(base: int, p: int)
    requires 0 <= base && 1 <= p && base * p < TWO_63
    ensures Int64(base * Int64(p)) == base * p
  {
    hide Int64;
    Int64Small(base * p);
    if base > 0 {
      assert p <= base * p;
      Int64Small(p);
    }
  }

  /** What the upstream answers a call of deployment d in iteration i. */
  function Upstream(w: World, i: nat, d: Deployment): Attempt {
    Attempt(d, w.execute(i, d).error, w.execute(i, d).statusCode)
  }

  /** The headers of the answers, of failed ones too. */
  function LimitsAfter(w: World, before: Limits, rounds: seq<Round>): Limits {
    if rounds == [] then before
    else
      var i := |rounds| - 1;
      var limits, d := LimitsAfter(w, before, rounds[..i]), rounds[i].chosen;
      if rounds[i].attempt.Some? then Noted(limits, d.id, w.execute(i, d).headers) else limits
  }

  /** The router state the strategy sees after some rounds. */
  function StateAfter(w: World, before: Routing, rounds: seq<Round>): Routing {
    Routing(ApplyAll(before.records, ReportsOf(w, rounds)), LimitsAfter(w, before.limits, rounds))
  }

  /** One answered call: its health update, and its headers noted. */
  function Observed(w: World, s: Routing, i: nat, d: Deployment, a: Attempt): Routing {
    Routing(Apply(s.records, ReportOf(a, w.clock(i))), Noted(s.limits, d.id, w.execute(i, d).headers))
  }

  ghost predicate Untried(rounds: seq<Round>, id: string) {
    forall j :: 0 <= j < |rounds| ==> rounds[j].chosen.id != id
  }

  /**
   * Round i: not cancelled, the deployment is the strategy's choice, and it is called exactly if
   * its id was not chosen before and its provider is registered.
   */
  ghost predicate Fits(w: World, before: Routing, rounds: seq<Round>, i: nat)
    requires i < |rounds|
  {
    var d := rounds[i].chosen;
    && !w.cancelled(i)
    && w.select(i, StateAfter(w, before, rounds[..i])) == Some(d)
    && rounds[i].attempt == if Untried(rounds[..i], d.id) && w.registered(d.provider) then Some(Upstream(w, i, d)) else None
  }

  /** The loop continues after this round: nothing was tried, or a retryable failure was waited out. */
  predicate GoesOn(c: Config, w: World, i: nat, round: Round) {
    round.attempt.None? || (Retryable(round.attempt.value) && (WaitAfter(c, i, round) == [] || !w.interrupted(i)))
  }

  function MaxAttempts(c: Config, n: nat): int {
    if c.maxRetries + 1 > n then n else c.maxRetries + 1
  }

  ghost predicate IsTrace(c: Config, w: World, before: Routing, n: nat, rounds: seq<Round>) {
    && (rounds == [] || |rounds| <= MaxAttempts(c, n))
    && (forall i :: 0 <= i < |rounds| ==> Fits(w, before, rounds, i))
    && (forall i :: 0 <= i < |rounds| - 1 ==> GoesOn(c, w, i, rounds[i]))
  }

  /** How a trace ends: at a final attempt, with the iterations used up, or in the next iteration. */
  ghost predicate EndsWith(c: Config, w: World, before: Routing, n: nat, rounds: seq<Round>, r: Result) {
    var k := |rounds|;
    var attempts := AttemptsOf(rounds);
    if rounds != [] && !GoesOn(c, w, k - 1, rounds[k - 1]) then
      var a := rounds[k - 1].attempt.value;
      r == if a.error.None? then Result.Succeeded(a) else if !a.error.value.retryable then GaveUp(a) else Cancelled
    else if k >= MaxAttempts(c, n) then
      r == if attempts == [] then NoDeployments else Exhausted(attempts[|attempts| - 1])
    else if w.cancelled(k) then r == Cancelled
    else w.select(k, StateAfter(w, before, rounds)).None? && r == SelectFailed
  }

  ghost predicate IsRun(c: Config, w: World, before: Routing, n: nat, rounds: seq<Round>, r: Result) {
    if w.strategyKnown then IsTrace(c, w, before, n, rounds) && EndsWith(c, w, before, n, rounds, r)
    else rounds == [] && r == UnknownStrategy
  }

  // ---------------------------------------------------------------- the loop

  /** One call upstream: its headers are noted, and the matching health update is made. */
  method AttemptOn(w: World, tracker: HealthTracker, limits: RateLimitTracker, i: nat, d: Deployment) returns (a: Attempt, report: Report)
    modifies tracker, limits
    ensures a == Upstream(w, i, d) && report == ReportOf(a, w.clock(i))
    ensures Routing(tracker.health, limits.state) == Observed(w, Routing(old(tracker.health), old(limits.state)), i, d, a)
  {
    var answer := w.execute(i, d);
    limits.Update(d.id, answer.headers);
    a := Attempt(d, answer.error, answer.statusCode);
    report := ReportOf(a, w.clock(i));
    if answer.error.None? {
      tracker.RecordSuccess(d.id);
    } else {
      tracker.RecordFailure(d.id, w.clock(i));
    }
  }

  /** One more round at the end of a trace. */
  lemma TraceNext(c: Config, w: World, before: Routing, n: nat, rounds: seq<Round>, round: Round)
    requires IsTrace(c, w, before, n, rounds) && |rounds| < MaxAttempts(c, n)
    requires rounds != [] ==> GoesOn(c, w, |rounds| - 1, rounds[|rounds| - 1])
    requires Fits(w, before, rounds + [round], |rounds|)
    ensures IsTrace(c, w, before, n, rounds + [round])
  {
    hide GoesOn, StateAfter, Upstream;
    var next := rounds + [round];
    forall i | 0 <= i < |next| ensures Fits(w, before, next, i) {
      if i < |rounds| { assert Fits(w, before, rounds, i) && next[..i] == rounds[..i]; }
    }
  }

  lemma LastRound(c: Config, w: World, before: Routing, rounds: seq<Round>, round: Round)
    ensures AttemptsOf(rounds + [round]) == AttemptsOf(rounds) + (if round.attempt.Some? then [round.attempt.value] else [])
    ensures ReportsOf(w, rounds + [round]) ==
            ReportsOf(w, rounds) + (if round.attempt.Some? then [ReportOf(round.attempt.value, w.clock(|rounds|))] else [])
    ensures WaitsOf(c, rounds + [round]) == WaitsOf(c, rounds) + WaitAfter(c, |rounds|, round)
    ensures StateAfter(w, before, rounds + [round]) ==
            if round.attempt.Some? then Observed(w, StateAfter(w, before, rounds), |rounds|, round.chosen, round.attempt.value)
            else StateAfter(w, before, rounds)
  {
    hide Apply, WaitAfter, ReportOf, Noted;
    assert (rounds + [round])[..|rounds|] == rounds;
    if round.attempt.Some? {
      var rs, report := ReportsOf(w, rounds), ReportOf(round.attempt.value, w.clock(|rounds|));
      assert (rs + [report])[..|rs|] == rs;
    } else {
      assert ReportsOf(w, rounds) + [] == ReportsOf(w, rounds);
    }
  }

  /**
   * ExecuteWithRetry makes a run: every deployment called is the strategy's choice at that point,
   * every outcome the upstream's, every health update, wait and noted header that of its attempt.
   */
  method ExecuteWithRetry(c: Config, w: World, tracker: HealthTracker, limits: RateLimitTracker, groupSize: nat)
      returns (r: Result, attempts: seq<Attempt>, reports: seq<Report>, backoffs: seq<int>, ghost rounds: seq<Round>)
    modifies tracker, limits
    ensures IsRun(c, w, Routing(old(tracker.health), old(limits.state)), groupSize, rounds, r)
    ensures attempts == AttemptsOf(rounds) && reports == ReportsOf(w, rounds) && backoffs == WaitsOf(c, rounds)
    ensures Routing(tracker.health, limits.state) == StateAfter(w, Routing(old(tracker.health), old(limits.state)), rounds)
  {
    hide Apply, ComputeBackoff, Fits, ReportOf, IsTrace, AttemptsOf, ReportsOf, WaitsOf, StateAfter, Upstream,
         Untried, Observed;
    ghost var before := Routing(tracker.health, limits.state);
    attempts, reports, backoffs, rounds := [], [], [], [];
    NothingYet(c, w, before, groupSize);
    if !w.strategyKnown {
      return UnknownStrategy, attempts, reports, backoffs, rounds;
    }
    var maxAttempts := MaxAttempts(c, groupSize);
    var tried: set<string> := {};
    var i: nat := 0;
    while i < maxAttempts
      invariant |rounds| == i && (i == 0 || i <= maxAttempts)
      invariant IsTrace(c, w, before, groupSize, rounds)
      invariant rounds != [] ==> GoesOn(c, w, i - 1, rounds[i - 1])
      invariant attempts == AttemptsOf(rounds) && reports == ReportsOf(w, rounds) && backoffs == WaitsOf(c, rounds)
      invariant Routing(tracker.health, limits.state) == StateAfter(w, before, rounds)
      invariant forall id :: id !in tried <==> Untried(rounds, id)
      decreases maxAttempts - i
    {
      if w.cancelled(i) {
        return Cancelled, attempts, reports, backoffs, rounds;
      }
      var selected := w.select(i, Routing(tracker.health, limits.state));
      if selected.None? {
        return SelectFailed, attempts, reports, backoffs, rounds;
      }
      var d := selected.value;
      ghost var round := Round(d, if d.id !in tried && w.registered(d.provider) then Some(Upstream(w, i, d)) else None);
      RoundFits(w, before, rounds, round);
      TraceNext(c, w, before, groupSize, rounds, round);
      LastRound(c, w, before, rounds, round);
      TriedNext(rounds, round);
      rounds := rounds + [round];
      if d.id in tried {
        i := i + 1;
        continue;
      }
      tried := tried + {d.id};
      if !w.registered(d.provider) {
        i := i + 1;
        continue;
      }
      var attempt, report := AttemptOn(w, tracker, limits, i, d);
      attempts := attempts + [attempt];
      reports := reports + [report];
      if attempt.error.None? {
        return Result.Succeeded(attempt), attempts, reports, backoffs, rounds;
      }
      if !attempt.error.value.retryable {
        return GaveUp(attempt), attempts, reports, backoffs, rounds;
      }
      var backoff := ComputeBackoff(c, i, attempt);
      if backoff > 0 {
        backoffs := backoffs + [backoff];
        if w.interrupted(i) {
          return Cancelled, attempts, reports, backoffs, rounds;
        }
      }
      i := i + 1;
    }
    if |attempts| == 0 {
      return NoDeployments, attempts, reports, backoffs, rounds;
    }
    return Exhausted(attempts[|attempts| - 1]), attempts, reports, backoffs, rounds;
  }

  lemma NothingYet(c: Config, w: World, before: Routing, n: nat)
    ensures IsTrace(c, w, before, n, []) && StateAfter(w, before, []) == before
    ensures AttemptsOf([]) == [] && ReportsOf(w, []) == [] && WaitsOf(c, []) == [] && forall id :: Untried([], id)
  {}

  lemma TriedNext(rounds: seq<Round>, round: Round)
    ensures forall id :: Untried(rounds + [round], id) <==> Untried(rounds, id) && id != round.chosen.id
  {
    var next := rounds + [round];
    assert forall j :: 0 <= j < |rounds| ==> next[j] == rounds[j];
    assert next[|rounds|] == round;
  }

  lemma RoundFits(w: World, before: Routing, rounds: seq<Round>, round: Round)
    requires !w.cancelled(|rounds|) && w.select(|rounds|, StateAfter(w, before, rounds)) == Some(round.chosen)
    requires round.attempt == if Untried(rounds, round.chosen.id) && w.registered(round.chosen.provider)
                              then Some(Upstream(w, |rounds|, round.chosen)) else None
    ensures Fits(w, before, rounds + [round], |rounds|)
  {
    hide StateAfter, Upstream, Untried;
    assert (rounds + [round])[..|rounds|] == rounds;
  }

  // ---------------------------------------------------------------- what every run promises

  /** The strategy and the upstream determine the run, and so the answer. */
  lemma RunUnique(c: Config, w: World, before: Routing, n: nat, rounds: seq<Round>, r: Result, rounds': seq<Round>, r': Result)
    requires IsRun(c, w, before, n, rounds, r) && IsRun(c, w, before, n, rounds', r')
    ensures rounds == rounds' && r == r'
  {
    hide GoesOn, StateAfter, Upstream, Untried, AttemptsOf;
    if w.strategyKnown {
      if |rounds| <= |rounds'| {
        TracesAgree(c, w, before, n, rounds, rounds', |rounds|);
        LengthsAgree(c, w, before, n, rounds, r, rounds');
      } else {
        TracesAgree(c, w, before, n, rounds', rounds, |rounds'|);
        LengthsAgree(c, w, before, n, rounds', r', rounds);
      }
      assert rounds[..|rounds|] == rounds && rounds'[..|rounds'|] == rounds';
    }
  }

  lemma {:induction false} TracesAgree(c: Config, w: World, before: Routing, n: nat, a: seq<Round>, b: seq<Round>, k: nat)
    requires IsTrace(c, w, before, n, a) && IsTrace(c, w, before, n, b) && k <= |a| && k <= |b|
    ensures a[..k] == b[..k]
  {
    hide GoesOn, StateAfter, Upstream, Untried;
    if k > 0 {
      TracesAgree(c, w, before, n, a, b, k - 1);
      assert Fits(w, before, a, k - 1) && Fits(w, before, b, k - 1);
      assert a[..k] == a[..k - 1] + [a[k - 1]] && b[..k] == b[..k - 1] + [b[k - 1]];
    }
  }

  /** A run that has ended has no longer version. */
  lemma LengthsAgree(c: Config, w: World, before: Routing, n: nat, a: seq<Round>, r: Result, b: seq<Round>)
    requires IsTrace(c, w, before, n, a) && EndsWith(c, w, before, n, a, r)
    requires IsTrace(c, w, before, n, b) && |a| <= |b| && a[..|a|] == b[..|a|]
    ensures a == b
  {
    hide GoesOn, StateAfter, Upstream, Untried, AttemptsOf;
    var k := |a|;
    assert b[..k] == a[..k] == a;
    assert k > 0 ==> a[k - 1] == b[..k][k - 1] == b[k - 1];
    if k < |b| {
      WentOn(c, w, before, n, b, k);
      assert false;
    }
  }

  lemma WentOn(c: Config, w: World, before: Routing, n: nat, rounds: seq<Round>, k: nat)
    requires IsTrace(c, w, before, n, rounds) && k < |rounds|
    ensures k < MaxAttempts(c, n) && !w.cancelled(k) && w.select(k, StateAfter(w, before, rounds[..k])).Some?
    ensures k > 0 ==> GoesOn(c, w, k - 1, rounds[k - 1])
  {
    hide GoesOn, StateAfter, Upstream, Untried;
    assert Fits(w, before, rounds, k);
  }

  ghost predicate DistinctIds(attempts: seq<Attempt>) {
    forall i, j :: 0 <= i < j < |attempts| ==> attempts[i].deployment.id != attempts[j].deployment.id
  }

  ghost predicate ReportMatches(r: Report, a: Attempt) {
    r.id == a.deployment.id && (r.Success? <==> a.error.None?)
  }

  ghost predicate Reported(attempts: seq<Attempt>, reports: seq<Report>) {
    |reports| == |attempts| && forall i :: 0 <= i < |attempts| ==> ReportMatches(reports[i], attempts[i])
  }

  /** The attempts up to round k are of distinct deployments, all chosen before. */
  lemma {:induction false} AttemptsDistinct(w: World, before: Routing, rounds: seq<Round>, k: nat)
    requires k <= |rounds| && forall i :: 0 <= i < |rounds| ==> Fits(w, before, rounds, i)
    ensures var attempts := AttemptsOf(rounds[..k]);
            && |attempts| <= k && DistinctIds(attempts)
            && (forall i :: 0 <= i < |attempts| ==> !Untried(rounds[..k], attempts[i].deployment.id))
  {
    hide StateAfter, Fits;
    if k > 0 {
      AttemptsDistinct(w, before, rounds, k - 1);
      var prev, last := rounds[..k - 1], rounds[k - 1];
      assert rounds[..k] == prev + [last] && rounds[..k][..k - 1] == prev;
      TriedNext(prev, last);
      CallsTheUntried(w, before, rounds, k - 1);
    }
  }

  lemma CallsTheUntried(w: World, before: Routing, rounds: seq<Round>, i: nat)
    requires i < |rounds| && Fits(w, before, rounds, i)
    ensures rounds[i].attempt.Some? ==> rounds[i].attempt.value.deployment == rounds[i].chosen && Untried(rounds[..i], rounds[i].chosen.id)
  {
    hide StateAfter, Untried;
  }

  /** Every attempt but possibly the last failed retryably, and each has its health update. */
  lemma {:induction false} AttemptsReported(c: Config, w: World, rounds: seq<Round>, k: nat)
    requires k <= |rounds| && forall i :: 0 <= i < |rounds| - 1 ==> GoesOn(c, w, i, rounds[i])
    ensures var attempts := AttemptsOf(rounds[..k]);
            && (forall i :: 0 <= i < |attempts| && (k < |rounds| || i < |attempts| - 1) ==> Retryable(attempts[i]))
            && Reported(attempts, ReportsOf(w, rounds[..k]))
  {
    hide WaitAfter, Retryable;
    if k > 0 {
      AttemptsReported(c, w, rounds, k - 1);
      assert rounds[..k][..k - 1] == rounds[..k - 1] && rounds[..k][k - 1] == rounds[k - 1];
    }
  }

  lemma {:induction false} WaitsCapped(c: Config, rounds: seq<Round>)
    requires Capped(c)
    ensures forall i :: 0 <= i < |WaitsOf(c, rounds)| ==> 0 < WaitsOf(c, rounds)[i] <= c.maxBackoff
  {
    hide ComputeBackoff;
    if rounds != [] {
      WaitsCapped(c, rounds[..|rounds| - 1]);
      BackoffCappedIff(c);
    }
  }

  /** Only an attempt without an error is final and a success. */
  lemma SuccessIsLast(c: Config, w: World, before: Routing, n: nat, rounds: seq<Round>, r: Result)
    requires IsRun(c, w, before, n, rounds, r)
    ensures var attempts := AttemptsOf(rounds);
            && (r.Succeeded? <==> attempts != [] && attempts[|attempts| - 1].error.None?)
            && (r.Succeeded? || r.GaveUp? || r.Exhausted? ==> attempts != [] && r.attempt == attempts[|attempts| - 1])
            && (r.Exhausted? ==> Retryable(r.attempt))
  {
    hide Fits, StateAfter, ComputeBackoff;
    if w.strategyKnown && rounds != [] {
      var k := |rounds| - 1;
      AttemptsReported(c, w, rounds, k);
      if rounds[k].attempt.None? {
        assert AttemptsOf(rounds) == AttemptsOf(rounds[..k]);
      }
    }
  }

  /**
   * Over any strategy and any upstream: at most min(maxRetries + 1, n) attempts, on distinct
   * deployments; all but the last failed retryably; one matching health update per attempt; every
   * wait within the cap; success exactly if the last attempt succeeded.
   */
  lemma RunGuarantees(c: Config, w: World, before: Routing, n: nat, rounds: seq<Round>, r: Result)
    requires IsRun(c, w, before, n, rounds, r)
    ensures var attempts := AttemptsOf(rounds);
            && (attempts == [] || |attempts| <= MaxAttempts(c, n)) && DistinctIds(attempts)
            && (forall i :: 0 <= i < |attempts| - 1 ==> Retryable(attempts[i]))
            && Reported(attempts, ReportsOf(w, rounds))
            && (r.Succeeded? <==> attempts != [] && attempts[|attempts| - 1].error.None?)
            && (r.Succeeded? || r.GaveUp? || r.Exhausted? ==> attempts != [] && r.attempt == attempts[|attempts| - 1])
    ensures Capped(c) ==> forall i :: 0 <= i < |WaitsOf(c, rounds)| ==> 0 < WaitsOf(c, rounds)[i] <= c.maxBackoff
  {
    hide Fits, EndsWith, GoesOn, StateAfter, ComputeBackoff, DistinctIds, Reported, Retryable;
    SuccessIsLast(c, w, before, n, rounds, r);
    if w.strategyKnown {
      AttemptsDistinct(w, before, rounds, |rounds|);
      AttemptsReported(c, w, rounds, |rounds|);
      assert rounds[..|rounds|] == rounds;
    } else {
      NoRounds(w);
    }
    if Capped(c) { WaitsCapped(c, rounds); }
  }

  /**
   * Where a run can end. Only registered, uncancelled choices are called; an unknown strategy, a final
   * error, a cancellation, a failing strategy and used-up iterations each have their own answer.
   */
  lemma RunEnds(c: Config, w: World, before: Routing, n: nat, rounds: seq<Round>, r: Result)
    requires IsRun(c, w, before, n, rounds, r)
    ensures rounds == [] || (|rounds| <= n && |rounds| <= c.maxRetries + 1)
    ensures forall i :: 0 <= i < |rounds| && rounds[i].attempt.Some? ==> w.registered(rounds[i].chosen.provider) && !w.cancelled(i)
    ensures forall i :: 0 <= i < |rounds| && rounds[i].attempt.None? ==>
              !w.registered(rounds[i].chosen.provider) || exists j :: 0 <= j < i && rounds[j].chosen.id == rounds[i].chosen.id
    ensures r.UnknownStrategy? <==> !w.strategyKnown
    ensures r.GaveUp? <==> rounds != [] && var a := rounds[|rounds| - 1].attempt; a.Some? && a.value.error.Some? && !a.value.error.value.retryable
    ensures r.NoDeployments? || r.Exhausted? ==> |rounds| >= n || |rounds| >= c.maxRetries + 1
    ensures r.NoDeployments? ==> forall i :: 0 <= i < |rounds| ==> rounds[i].attempt.None?
    ensures r.SelectFailed? ==> w.select(|rounds|, StateAfter(w, before, rounds)).None?
    ensures r.Cancelled? ==> w.cancelled(|rounds|) || (rounds != [] && rounds[|rounds| - 1].attempt.Some? && w.interrupted(|rounds| - 1))
  {
    hide StateAfter, ComputeBackoff, AttemptsOf, ReportOf;
    if w.strategyKnown {
      forall i | 0 <= i < |rounds| && rounds[i].attempt.Some?
        ensures w.registered(rounds[i].chosen.provider) && !w.cancelled(i)
      {
        assert Fits(w, before, rounds, i);
      }
      forall i | 0 <= i < |rounds| && rounds[i].attempt.None?
        ensures !w.registered(rounds[i].chosen.provider) || exists j :: 0 <= j < i && rounds[j].chosen.id == rounds[i].chosen.id
      {
        assert Fits(w, before, rounds, i);
      }
      if r.NoDeployments? { NoneCalled(rounds); }
    }
  }

  lemma {:induction false} NoneCalled(rounds: seq<Round>)
    requires AttemptsOf(rounds) == []
    ensures forall i :: 0 <= i < |rounds| ==> rounds[i].attempt.None?
  {
    if rounds != [] { NoneCalled(rounds[..|rounds| - 1]); }
  }

  lemma NoRounds(w: World)
    ensures AttemptsOf([]) == [] && DistinctIds([]) && Reported([], ReportsOf(w, []))
  {}
}
