/**
 * What the rate counters and the limiter's answers mean in terms of the requests themselves: an rpm
 * counter is a number of requests, an itpm counter a number of input tokens, an otpm counter a number
 * of output tokens, of the requests that the limit covers and in the window of the counter.
 */
module RateLimitUsage {
  import opened Basics
  import opened Sums
  import opened RedisKeys
  import opened RateLimits
  import opened RateLimitProtocol

  /** The limit is in force for calls of this tenant, provider, model and, if it is a key's limit, key. */
  predicate Covers(l: Limit, c: Call) {
    l.enabled && l.tenant == c.tenant && l.provider in {"", c.provider} && l.model in {"", c.model} &&
    !(l.scopeType == "api_key" && l.scopeId != c.keyId)
  }

  /** The window of length 60 s, unless the limit says otherwise, that a second falls in. */
  function Window(l: Limit, second: nat): nat {
    second / (if l.windowSeconds > 0 then l.windowSeconds else 60)
  }

  /** An admitted request that the limit covers, checked in window w. */
  predicate Within(l: Limit, w: int, r: Request) {
    r.status == Admitted && Covers(l, r.call) && Window(l, r.now) == w
  }

  // ---------------------------------------------------------------- one request on one counter

  lemma EntriesOnCounter(limits: seq<Limit>, c: Call, now: nat, l: Limit, w: int)
    requires Unique(limits) && l in limits
    ensures Sum(Entries(limits, c, now), AmountOn(CounterOf(l, w))) ==
            if Counts(l, c) && now / WindowSec(l) == w then Amount(l, c) else 0
  {
    hide Entries, Unique, Counts, DistinctKeys;
    var es, k := Entries(limits, c, now), CounterOf(l, w);
    EntriesCorrect(limits, c, now);
    if Counts(l, c) && now / WindowSec(l) == w {
      TakenInFull(limits, c, now, l);
    } else {
      forall i | 0 <= i < |es| ensures es[i].key != k {
        if es[i].key == k { SameLimit(limits, l, es[i].limit, w, now); }
      }
      AmountOnOther(es, k);
    }
  }

  lemma ReleasesOnCounter(limits: seq<Limit>, c: Call, actual: int, now: nat, l: Limit, w: int)
    requires Unique(limits) && l in limits
    ensures Sum(Releases(limits, c, actual, now), AmountOn(CounterOf(l, w))) ==
            if Reconciles(l, c) && now / WindowSec(l) == w then Surplus(c, actual) else 0
  {
    hide Releases, Unique, Reconciles, DistinctKeys, Surplus;
    var es, k := Releases(limits, c, actual, now), CounterOf(l, w);
    ReleasesCorrect(limits, c, actual, now);
    if Reconciles(l, c) && now / WindowSec(l) == w {
      GivenInFull(limits, c, actual, now, l);
    } else {
      forall i | 0 <= i < |es| ensures es[i].key != k {
        if es[i].key == k { SameLimit(limits, l, es[i].limit, w, now); }
      }
      AmountOnOther(es, k);
    }
  }

  /** What a request at rest has left on the counter of limit l in window w. */
  lemma NetOnCounter(limits: seq<Limit>, r: Request, l: Limit, w: int)
    requires Unique(limits) && WellFormed(limits, r) && l in limits && r.released == |r.releases|
    requires r.status == Admitted || r.status == Rejected
    ensures Net(CounterOf(l, w))(r) ==
            if r.status == Rejected then 0
            else (if Counts(l, r.call) && r.now / WindowSec(l) == w then Amount(l, r.call) else 0)
                 - (if r.reconciled && Reconciles(l, r.call) && r.reconciledAt / WindowSec(l) == w then Surplus(r.call, r.actual) else 0)
  {
    hide Entries, Releases, Unique, Counts, Reconciles, Surplus, Amount, Passed;
    var k := CounterOf(l, w);
    assert r.releases[..r.released] == r.releases;
    AmountOnOther([], k);
    if r.status == Rejected {
      assert r.entries[r.undone..|r.seen|] == [] && r.releases == [];
    } else {
      assert r.entries[r.undone..|r.seen|] == r.entries;
      EntriesOnCounter(limits, r.call, r.now, l, w);
      if r.reconciled { ReleasesOnCounter(limits, r.call, r.actual, r.reconciledAt, l, w); }
    }
  }

  // ---------------------------------------------------------------- what the counters count

  ghost function Requests(l: Limit, w: int): Request -> int {
    (r: Request) => if Within(l, w, r) then 1 else 0
  }

  ghost function InputTokens(l: Limit, w: int): Request -> int {
    (r: Request) => if Within(l, w, r) && r.call.inputTokens > 0 then r.call.inputTokens else 0
  }

  /** The reserved maximum, or the real size once it is known to be smaller. */
  ghost function OutputTokens(l: Limit, w: int): Request -> int {
    (r: Request) =>
      if !Within(l, w, r) || r.call.maxTokens <= 0 then 0
      else if r.reconciled && r.actual < r.call.maxTokens then r.actual
      else r.call.maxTokens
  }

  lemma RequestCounts(limits: seq<Limit>, r: Request, l: Limit, w: int)
    requires Unique(limits) && WellFormed(limits, r) && l in limits && r.released == |r.releases|
    requires (r.status == Admitted || r.status == Rejected) && (r.reconciled ==> Window(l, r.reconciledAt) == Window(l, r.now))
    ensures l.metric == "rpm" ==> Net(CounterOf(l, w))(r) == Requests(l, w)(r)
    ensures l.metric == "itpm" ==> Net(CounterOf(l, w))(r) == InputTokens(l, w)(r)
    ensures l.metric == "otpm" ==> Net(CounterOf(l, w))(r) == OutputTokens(l, w)(r)
  {
    hide Entries, Releases, Unique, Passed, NetOf;
    NetOnCounter(limits, r, l, w);
  }

  lemma SameSum(rs: seq<Request>, f: Request -> int, g: Request -> int)
    requires forall i :: 0 <= i < |rs| ==> f(rs[i]) == g(rs[i])
    ensures Sum(rs, f) == Sum(rs, g)
  {
    SumMonotone(rs, f, g);
    SumMonotone(rs, g, f);
  }

  /**
   * In every run, at rest and with reconciliations in the window of their checks: an rpm counter is
   * the number of admitted requests that the limit covers in its window, an itpm counter their input
   * tokens, an otpm counter their reserved or, once reconciled, their real output tokens.
   */
  lemma CountersCountUsage(limits: seq<Limit>, tr: seq<State>, n: nat, l: Limit, w: int)
    requires Unique(limits) && Behaviour(limits, tr) && n < |tr| && AtRest(tr[n]) && l in limits
    requires forall r :: r in tr[n].requests && r.reconciled ==> Window(l, r.reconciledAt) == Window(l, r.now)
    ensures var counter := Get(tr[n].counters, RateKey(l.tenant, l.provider, l.model, l.scopeType, l.scopeId, l.metric, w));
            && (l.metric == "rpm" ==> counter == Sum(tr[n].requests, Requests(l, w)))
            && (l.metric == "itpm" ==> counter == Sum(tr[n].requests, InputTokens(l, w)))
            && (l.metric == "otpm" ==> counter == Sum(tr[n].requests, OutputTokens(l, w)))
  {
    hide WellFormed, Unique, Net, Requests, InputTokens, OutputTokens, Window, Behaviour;
    var rs, k := tr[n].requests, CounterOf(l, w);
    Reachable(limits, tr, n);
    forall i | 0 <= i < |rs|
      ensures l.metric == "rpm" ==> Net(k)(rs[i]) == Requests(l, w)(rs[i])
      ensures l.metric == "itpm" ==> Net(k)(rs[i]) == InputTokens(l, w)(rs[i])
      ensures l.metric == "otpm" ==> Net(k)(rs[i]) == OutputTokens(l, w)(rs[i])
    {
      assert rs[i] in rs;
      RequestCounts(limits, rs[i], l, w);
    }
    if l.metric == "rpm" { SameSum(rs, Net(k), Requests(l, w)); }
    if l.metric == "itpm" { SameSum(rs, Net(k), InputTokens(l, w)); }
    if l.metric == "otpm" { SameSum(rs, Net(k), OutputTokens(l, w)); }
  }

  // ---------------------------------------------------------------- what an answer says

  /** One more call of this size would take the limit's counter past its value. */
  predicate Refuses(l: Limit, c: Call, counters: map<RateKey, int>, now: nat) {
    var used := Get(counters, RateKey(l.tenant, l.provider, l.model, l.scopeType, l.scopeId, l.metric, Window(l, now)));
    Covers(l, c) &&
    match l.metric
    case "rpm" => used + 1 > l.value
    case "itpm" => c.inputTokens > 0 && used + c.inputTokens > l.value
    case "otpm" => c.maxTokens > 0 && used + c.maxTokens > l.value
    case _ => false
  }

  lemma RefusesIsOver(l: Limit, c: Call, counters: map<RateKey, int>, now: nat)
    ensures Refuses(l, c, counters, now) <==> Counts(l, c) && Over(counters, EntryOf(l, c, now))
  {}

  lemma NotOverNotRefused(limits: seq<Limit>, c: Call, counters: map<RateKey, int>, now: nat, l: Limit)
    requires l in limits && forall i :: 0 <= i < |Entries(limits, c, now)| ==> !Over(counters, Entries(limits, c, now)[i])
    ensures !Refuses(l, c, counters, now)
  {
    hide Counts, Over, EntryOf, Refuses, Entries;
    RefusesIsOver(l, c, counters, now);
    EntriesCorrect(limits, c, now);
  }

  /** The first entry over its limit is that of the first limit that refuses. */
  lemma {:induction false} FirstRefusal(limits: seq<Limit>, c: Call, counters: map<RateKey, int>, now: nat, i: int) returns (p: nat)
    requires FirstOver(counters, Entries(limits, c, now), i)
    ensures p < |limits| && Refuses(limits[p], c, counters, now) && Entries(limits, c, now)[i] == EntryOf(limits[p], c, now)
    ensures forall j :: 0 <= j < p ==> !Refuses(limits[j], c, counters, now)
  {
    hide Counts, Over, EntryOf, Refuses;
    var n := |limits| - 1;
    var prev := Entries(limits[..n], c, now);
    if i < |prev| {
      assert forall j :: 0 <= j < |prev| ==> Entries(limits, c, now)[j] == prev[j];
      p := FirstRefusal(limits[..n], c, counters, now, i);
    } else {
      p := n;
      RefusesIsOver(limits[n], c, counters, now);
      assert forall j :: 0 <= j < |prev| ==> Entries(limits, c, now)[j] == prev[j];
      forall j | 0 <= j < n ensures !Refuses(limits[j], c, counters, now) {
        NotOverNotRefused(limits[..n], c, counters, now, limits[..n][j]);
      }
    }
  }

  ghost predicate IsFirstRefusal(limits: seq<Limit>, c: Call, counters: map<RateKey, int>, now: nat, p: int) {
    0 <= p < |limits| && Refuses(limits[p], c, counters, now) && forall j :: 0 <= j < p ==> !Refuses(limits[j], c, counters, now)
  }

  /** What a rejection because of limit l tells the client: the limit, its use, and when its window ends. */
  ghost predicate Tells(x: Exceeded, l: Limit, counters: map<RateKey, int>, now: nat) {
    var length := if l.windowSeconds > 0 then l.windowSeconds else 60;
    && x.metric == l.metric && x.limit == l.value
    && x.used == Get(counters, RateKey(l.tenant, l.provider, l.model, l.scopeType, l.scopeId, l.metric, Window(l, now)))
    && 1000 * now + x.retryAfterMs == 1000 * length * (Window(l, now) + 1)
  }

  lemma ReportTells(l: Limit, c: Call, counters: map<RateKey, int>, now: nat)
    ensures Tells(Report(counters, EntryOf(l, c, now), now), l, counters, now)
  {
    RetryAfterWithinWindow(l, c, now, counters);
  }

  /**
   * The verdict that both paths of Check compute: a call is admitted if and only if no configured
   * limit refuses it, and a rejection reports the first limit that does.
   */
  lemma VerdictInPlainTerms(limits: seq<Limit>, c: Call, counters: map<RateKey, int>, now: nat, r: Option<Exceeded>)
    requires IsVerdict(counters, Entries(limits, c, now), now, r)
    ensures r.None? <==> forall l :: l in limits ==> !Refuses(l, c, counters, now)
    ensures r.Some? ==> exists p :: IsFirstRefusal(limits, c, counters, now, p) && Tells(r.value, limits[p], counters, now)
  {
    hide Over, Refuses, Entries, Tells, Report, EntryOf;
    var es := Entries(limits, c, now);
    if r.Some? {
      var i :| FirstOver(counters, es, i) && r.value == Report(counters, es[i], now);
      var p := FirstRefusal(limits, c, counters, now, i);
      ReportTells(limits[p], c, counters, now);
      assert IsFirstRefusal(limits, c, counters, now, p);
    } else {
      forall l | l in limits ensures !Refuses(l, c, counters, now) { NotOverNotRefused(limits, c, counters, now, l); }
    }
  }
}
