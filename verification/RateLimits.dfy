/**
 * The rate limiter on its own: which limits a request matches, the counters it touches, and
 * Check/checkSingle as they behave when no other request interleaves.
 */
module RateLimits {
  import opened Basics
  import opened Sums
  import opened RedisKeys

  /** A row of the rate limit configuration. */
  datatype Limit = Limit(tenant: nat, provider: string, model: string, scopeType: string, scopeId: string,
                         metric: string, value: int, windowSeconds: int, enabled: bool)

  /** The arguments of Check. */
  datatype Call = Call(tenant: nat, keyId: string, provider: string, model: string, inputTokens: int, maxTokens: int)

  datatype Entry = Entry(limit: Limit, key: RateKey, amount: int)

  datatype Exceeded = Exceeded(metric: string, limit: int, used: int, retryAfterMs: int)

  // ---------------------------------------------------------------- matching limits

  /** The filters shared by Check and Reconcile. */
  predicate Matches(l: Limit, c: Call) {
    && l.tenant == c.tenant
    && l.enabled
    && (l.provider == "" || l.provider == c.provider)
    && (l.model == "" || l.model == c.model)
    && (l.scopeType == "api_key" ==> l.scopeId == c.keyId)
  }

  /** What a request adds to a limit's counter; zero for an unknown metric. */
  function Amount(l: Limit, c: Call): int {
    if l.metric == "rpm" then 1
    else if l.metric == "itpm" then c.inputTokens
    else if l.metric == "otpm" then c.maxTokens
    else 0
  }

  function WindowSec(l: Limit): (w: int)
    ensures w > 0
  {
    if l.windowSeconds <= 0 then 60 else l.windowSeconds
  }

  function KeyOf(l: Limit, now: nat): RateKey {
    RateKey(l.tenant, l.provider, l.model, l.scopeType, l.scopeId, l.metric, now / WindowSec(l))
  }

  function EntryOf(l: Limit, c: Call, now: nat): Entry {
    Entry(l, KeyOf(l, now), Amount(l, c))
  }

  predicate Counts(l: Limit, c: Call) {
    Matches(l, c) && Amount(l, c) > 0
  }

  /** The counters a call touches, in configuration order. */
  function Entries(limits: seq<Limit>, c: Call, now: nat): seq<Entry> {
    if limits == [] then []
    else
      var l := limits[|limits| - 1];
      Entries(limits[..|limits| - 1], c, now) + (if Counts(l, c) then [EntryOf(l, c, now)] else [])
  }

  /** The unique index of the configuration table. */
  predicate SameScope(a: Limit, b: Limit) {
    a.tenant == b.tenant && a.provider == b.provider && a.model == b.model &&
    a.scopeType == b.scopeType && a.scopeId == b.scopeId && a.metric == b.metric
  }

  ghost predicate Unique(limits: seq<Limit>) {
    forall i, j :: 0 <= i < j < |limits| ==> !SameScope(limits[i], limits[j])
  }

  ghost predicate DistinctKeys(es: seq<Entry>) {
    forall i, j :: 0 <= i < j < |es| ==> es[i].key != es[j].key
  }

  /** Entries stand for exactly the matching limits, each with its own counter. */
  lemma {:induction false} EntriesCorrect(limits: seq<Limit>, c: Call, now: nat)
    ensures var es := Entries(limits, c, now);
            && (forall i :: 0 <= i < |es| ==> es[i].limit in limits && Counts(es[i].limit, c) && es[i] == EntryOf(es[i].limit, c, now))
            && (forall l :: l in limits && Counts(l, c) ==> EntryOf(l, c, now) in es)
            && (Unique(limits) ==> DistinctKeys(es))
  {
    hide Counts;
    if limits != [] {
      var n := |limits| - 1;
      var prev, es := Entries(limits[..n], c, now), Entries(limits, c, now);
      EntriesCorrect(limits[..n], c, now);
      assert limits == limits[..n] + [limits[n]];
      assert forall l :: l in limits[..n] ==> l in limits;
      assert forall i :: 0 <= i < |prev| ==> es[i] == prev[i];
      assert forall l :: l in limits ==> l in limits[..n] || l == limits[n];
    }
  }

  lemma EntryAt(limits: seq<Limit>, c: Call, now: nat, j: nat)
    requires j < |Entries(limits, c, now)|
    ensures Entries(limits, c, now)[j] == EntryOf(Entries(limits, c, now)[j].limit, c, now)
  {
    EntriesCorrect(limits, c, now);
  }

  // ---------------------------------------------------------------- reconciliation

  /** The reservation Reconcile gives back once the real output size is known. */
  function Surplus(c: Call, actual: int): int {
    if c.maxTokens <= 0 || c.maxTokens - actual <= 0 then 0 else c.maxTokens - actual
  }

  predicate Reconciles(l: Limit, c: Call) {
    Matches(l, c) && l.metric == "otpm"
  }

  /** The DECRBY commands of Reconcile; the window is the one current at time `now`. */
  function Releases(limits: seq<Limit>, c: Call, actual: int, now: nat): seq<Entry> {
    if limits == [] || Surplus(c, actual) == 0 then []
    else
      var l := limits[|limits| - 1];
      Releases(limits[..|limits| - 1], c, actual, now) +
      (if Reconciles(l, c) then [Entry(l, KeyOf(l, now), Surplus(c, actual))] else [])
  }

  lemma {:induction false} ReleasesCorrect(limits: seq<Limit>, c: Call, actual: int, now: nat)
    ensures var es := Releases(limits, c, actual, now);
            && (forall i :: 0 <= i < |es| ==> && es[i].limit in limits && Reconciles(es[i].limit, c)
                                              && es[i] == Entry(es[i].limit, KeyOf(es[i].limit, now), Surplus(c, actual)))
            && (forall i :: 0 <= i < |es| ==> es[i].amount > 0 && c.maxTokens > 0)
            && (Surplus(c, actual) > 0 ==> forall l :: l in limits && Reconciles(l, c) ==>
                  Entry(l, KeyOf(l, now), Surplus(c, actual)) in es)
            && (Unique(limits) ==> DistinctKeys(es))
  {
    hide Reconciles, KeyOf, SameScope, DistinctKeys, Surplus;
    if limits != [] && Surplus(c, actual) != 0 {
      var n := |limits| - 1;
      var prev, es := Releases(limits[..n], c, actual, now), Releases(limits, c, actual, now);
      ReleasesCorrect(limits[..n], c, actual, now);
      SurplusPositive(c, actual);
      assert limits == limits[..n] + [limits[n]];
      assert forall l :: l in limits[..n] ==> l in limits;
      assert forall i :: 0 <= i < |prev| ==> es[i] == prev[i];
      assert forall l :: l in limits ==> l in limits[..n] || l == limits[n];
      if Unique(limits) { OneMoreKey(limits, prev, es, now); }
    } else {
      assert DistinctKeys([]) by { NoKeys(); }
    }
  }

  lemma SurplusPositive(c: Call, actual: int)
    ensures Surplus(c, actual) != 0 ==> Surplus(c, actual) > 0 && c.maxTokens > 0
  {}

  lemma NoKeys()
    ensures DistinctKeys([])
  {}

  /** The entry of one more limit is on a counter of its own. */
  lemma OneMoreKey(limits: seq<Limit>, prev: seq<Entry>, es: seq<Entry>, now: nat)
    requires limits != [] && Unique(limits) && (Unique(limits[..|limits| - 1]) ==> DistinctKeys(prev))
    requires forall i :: 0 <= i < |prev| ==> prev[i].limit in limits[..|limits| - 1] && prev[i].key == KeyOf(prev[i].limit, now)
    requires es == prev || (|es| == |prev| + 1 && es[..|prev|] == prev && es[|prev|].key == KeyOf(limits[|limits| - 1], now))
    ensures DistinctKeys(es)
  {
    var n := |limits| - 1;
    assert Unique(limits[..n]);
    forall i | 0 <= i < |prev| && |es| > |prev| ensures prev[i].key != es[|prev|].key {
      var j :| 0 <= j < n && limits[..n][j] == prev[i].limit;
      assert !SameScope(limits[j], limits[n]);
    }
    assert forall i :: 0 <= i < |prev| ==> es[i] == es[..|prev|][i] || es == prev;
  }

  /** With one entry per counter, the total on a counter is that entry's amount. */
  lemma {:induction false} AmountOnOwn(es: seq<Entry>, i: nat)
    requires DistinctKeys(es) && i < |es|
    ensures Sum(es, AmountOn(es[i].key)) == es[i].amount
  {
    var n := |es| - 1;
    assert es == es[..n] + [es[n]];
    SumAppend(es[..n], es[n], AmountOn(es[i].key));
    if i == n {
      SumZero(es[..n], AmountOn(es[i].key));
    } else {
      AmountOnOwn(es[..n], i);
    }
  }

  // ---------------------------------------------------------------- the sequential verdict

  ghost function AmountOn(k: RateKey): Entry -> int {
    (e: Entry) => if e.key == k then e.amount else 0
  }

  predicate Over(counters: map<RateKey, int>, e: Entry) {
    Get(counters, e.key) + e.amount > e.limit.value
  }

  function Report(counters: map<RateKey, int>, e: Entry, now: nat): Exceeded {
    Exceeded(e.limit.metric, e.limit.value, Get(counters, e.key), ((e.key.window + 1) * WindowSec(e.limit) - now) * 1000)
  }

  ghost predicate FirstOver(counters: map<RateKey, int>, es: seq<Entry>, i: int) {
    0 <= i < |es| && Over(counters, es[i]) && forall j :: 0 <= j < i ==> !Over(counters, es[j])
  }

  /** What Check must answer: the first limit that used + amount would pass, or nothing. */
  ghost predicate IsVerdict(counters: map<RateKey, int>, es: seq<Entry>, now: nat, r: Option<Exceeded>) {
    && (r.None? <==> forall i :: 0 <= i < |es| ==> !Over(counters, es[i]))
    && (r.Some? ==> exists i :: FirstOver(counters, es, i) && r.value == Report(counters, es[i], now))
  }

  /** The verdict is determined by the counters, so the two code paths cannot differ on it. */
  lemma VerdictUnique(counters: map<RateKey, int>, es: seq<Entry>, now: nat, r: Option<Exceeded>, r': Option<Exceeded>)
    requires IsVerdict(counters, es, now, r) && IsVerdict(counters, es, now, r')
    ensures r == r'
  {
    if r.Some? {
      var i :| FirstOver(counters, es, i) && r.value == Report(counters, es[i], now);
      var j :| FirstOver(counters, es, j) && r'.value == Report(counters, es[j], now);
      assert i == j;
    }
  }

  /**
   * A rejection asks the client to wait until the window ends: more than 0, at most one window, and
   * from then on requests count in the next window.
   */
  lemma RetryAfterWithinWindow(l: Limit, c: Call, now: nat, counters: map<RateKey, int>)
    ensures var ms := Report(counters, EntryOf(l, c, now), now).retryAfterMs;
            && 0 < ms <= 1000 * WindowSec(l)
            && 1000 * now + ms == 1000 * WindowSec(l) * (now / WindowSec(l) + 1)
  {
    var w := WindowSec(l);
    assert (now / w + 1) * w == now / w * w + w;
    assert now == now / w * w + now % w;
  }

  lemma AmountOnOther(es: seq<Entry>, k: RateKey)
    requires forall i :: 0 <= i < |es| ==> es[i].key != k
    ensures Sum(es, AmountOn(k)) == 0
  {
    SumZero(es, AmountOn(k));
  }

  /** The counters after every entry's INCRBY, and after every entry's INCRBY and DECRBY. */
  ghost predicate Raised(old_: map<RateKey, int>, es: seq<Entry>, new_: map<RateKey, int>) {
    forall k :: Get(new_, k) == Get(old_, k) + Sum(es, AmountOn(k))
  }

  ghost predicate SameValues(a: map<RateKey, int>, b: map<RateKey, int>) {
    forall k :: Get(a, k) == Get(b, k)
  }

  lemma RaiseOne(old_: map<RateKey, int>, es: seq<Entry>, i: nat, now_: map<RateKey, int>)
    requires i < |es| && Raised(old_, es[..i], now_)
    ensures Raised(old_, es[..i + 1], IncrBy(now_, es[i].key, es[i].amount))
  {
    assert es[..i + 1] == es[..i] + [es[i]];
    forall k
      ensures Get(IncrBy(now_, es[i].key, es[i].amount), k) == Get(old_, k) + Sum(es[..i + 1], AmountOn(k))
    {
      SumAppend(es[..i], es[i], AmountOn(k));
    }
  }

  lemma LowerOne(old_: map<RateKey, int>, es: seq<Entry>, i: nat, now_: map<RateKey, int>)
    requires i < |es| && Raised(old_, es[i..], now_)
    ensures Raised(old_, es[i + 1..], IncrBy(now_, es[i].key, -es[i].amount))
  {
    assert es[i..] == [es[i]] + es[i + 1..];
    forall k
      ensures Get(IncrBy(now_, es[i].key, -es[i].amount), k) == Get(old_, k) + Sum(es[i + 1..], AmountOn(k))
    {
      SumPrepend(es[i], es[i + 1..], AmountOn(k));
    }
  }

  class Limiter {
    const limits: seq<Limit>
    var counters: map<RateKey, int>

    constructor (limits: seq<Limit>)
      requires Unique(limits)
      ensures this.limits == limits && counters == map[]
    {
      this.limits := limits;
      counters := map[];
    }

    method CollectEntries(c: Call, now: nat) returns (es: seq<Entry>)
      ensures es == Entries(limits, c, now)
    {
      es := [];
      for i := 0 to |limits|
        invariant es == Entries(limits[..i], c, now)
      {
        var limit := limits[i];
        assert limits[..i + 1][..i] == limits[..i];
        if limit.tenant != c.tenant || !limit.enabled {
          continue;
        }
        if limit.provider != "" && limit.provider != c.provider {
          continue;
        }
        if limit.model != "" && limit.model != c.model {
          continue;
        }
        if limit.scopeType == "api_key" && limit.scopeId != c.keyId {
          continue;
        }
        var amount := 0;
        match limit.metric {
          case "rpm" => amount := 1;
          case "itpm" => amount := c.inputTokens;
          case "otpm" => amount := c.maxTokens;
          case _ => continue;
        }
        if amount <= 0 {
          continue;
        }
        var windowSec := limit.windowSeconds;
        if windowSec <= 0 {
          windowSec := 60;
        }
        var key := RateKey(limit.tenant, limit.provider, limit.model, limit.scopeType, limit.scopeId, limit.metric, now / windowSec);
        es := es + [Entry(limit, key, amount)];
      }
      assert limits[..|limits|] == limits;
    }

    /** The pipelined path: increment all, inspect all, then roll all back or keep all. */
    method CheckPipeline(es: seq<Entry>, now: nat) returns (r: Option<Exceeded>)
      requires DistinctKeys(es)
      modifies this
      ensures IsVerdict(old(counters), es, now, r)
      ensures r.None? ==> Raised(old(counters), es, counters)
      ensures r.Some? ==> SameValues(old(counters), counters)
    {
      var newVals := [];
      for i := 0 to |es|
        invariant Raised(old(counters), es[..i], counters)
        invariant |newVals| == i
        invariant forall j :: 0 <= j < i ==> newVals[j] == Get(old(counters), es[j].key) + es[j].amount
      {
        AmountOnOther(es[..i], es[i].key);
        RaiseOne(old(counters), es, i, counters);
        counters := IncrBy(counters, es[i].key, es[i].amount);
        newVals := newVals + [Get(counters, es[i].key)];
      }
      r := None;
      for i := 0 to |es|
        invariant r.None? <==> forall j :: 0 <= j < i ==> !Over(old(counters), es[j])
        invariant r.Some? ==> exists j :: FirstOver(old(counters), es, j) && r.value == Report(old(counters), es[j], now)
      {
        var e := es[i];
        if r.None? && newVals[i] > e.limit.value {
          var windowEnd := (e.key.window + 1) * WindowSec(e.limit);
          r := Some(Exceeded(e.limit.metric, e.limit.value, newVals[i] - e.amount, (windowEnd - now) * 1000));
          assert FirstOver(old(counters), es, i);
        }
      }
      assert es[..|es|] == es;
      if r.Some? {
        assert es[0..] == es;
        for i := 0 to |es|
          invariant Raised(old(counters), es[i..], counters)
        {
          LowerOne(old(counters), es, i, counters);
          counters := IncrBy(counters, es[i].key, -es[i].amount);
        }
        forall k ensures Get(counters, k) == Get(old(counters), k) { AmountOnOther(es[|es|..], k); }
      }
    }

    /** The single-limit path without a pipeline. */
    method CheckSingle(e: Entry, now: nat) returns (r: Option<Exceeded>)
      modifies this
      ensures IsVerdict(old(counters), [e], now, r)
      ensures r.None? ==> Raised(old(counters), [e], counters)
      ensures r.Some? ==> SameValues(old(counters), counters)
    {
      counters := IncrBy(counters, e.key, e.amount);
      var newVal := Get(counters, e.key);
      if newVal > e.limit.value {
        var windowEnd := (e.key.window + 1) * WindowSec(e.limit);
        counters := IncrBy(counters, e.key, -e.amount);
        assert FirstOver(old(counters), [e], 0);
        return Some(Exceeded(e.limit.metric, e.limit.value, newVal - e.amount, (windowEnd - now) * 1000));
      }
      forall k ensures Sum([e], AmountOn(k)) == AmountOn(k)(e) { assert [e] == [] + [e]; SumAppend([], e, AmountOn(k)); }
      return None;
    }

    /** Gives the unused reservation back on every output-token counter of the current window. */
    method Reconcile(c: Call, actual: int, now: nat)
      modifies this
      ensures Raised(counters, Releases(limits, c, actual, now), old(counters))
    {
      if c.maxTokens <= 0 {
        ReleasesNothing(c, actual, now);
        return;
      }
      var diff := c.maxTokens - actual;
      if diff <= 0 {
        ReleasesNothing(c, actual, now);
        return;
      }
      ReleasesNothing(c, actual, now);
      for i := 0 to |limits|
        invariant Raised(counters, Releases(limits[..i], c, actual, now), old(counters))
      {
        ghost var before := Releases(limits[..i], c, actual, now);
        assert limits[..i + 1][..i] == limits[..i];
        assert before + [] == before;
        var limit := limits[i];
        if limit.tenant == c.tenant && limit.enabled && limit.metric == "otpm"
           && (limit.provider == "" || limit.provider == c.provider)
           && (limit.model == "" || limit.model == c.model)
           && (limit.scopeType != "api_key" || limit.scopeId == c.keyId) {
          var windowSec := if limit.windowSeconds <= 0 then 60 else limit.windowSeconds;
          var key := RateKey(limit.tenant, limit.provider, limit.model, limit.scopeType, limit.scopeId, limit.metric, now / windowSec);
          ghost var e := Entry(limit, key, diff);
          counters := IncrBy(counters, key, -diff);
          forall k ensures Get(old(counters), k) == Get(counters, k) + Sum(before + [e], AmountOn(k)) {
            SumAppend(before, e, AmountOn(k));
          }
          assert Releases(limits[..i + 1], c, actual, now) == before + [e];
        }
      }
      assert limits[..|limits|] == limits;
    }

    lemma ReleasesNothing(c: Call, actual: int, now: nat)
      ensures Surplus(c, actual) == 0 ==> forall k :: Sum(Releases(limits, c, actual, now), AmountOn(k)) == 0
      ensures forall k :: Sum(Releases(limits[..0], c, actual, now), AmountOn(k)) == 0
    {
      forall k ensures Sum([], AmountOn(k)) == 0 { AmountOnOther([], k); }
    }

    /**
     * A request with no other in flight is rejected exactly when some matching limit would be
     * passed, names the first such limit, and then leaves every counter as it was.
     */
    method Check(c: Call, now: nat) returns (r: Option<Exceeded>)
      requires Unique(limits)
      modifies this
      ensures IsVerdict(old(counters), Entries(limits, c, now), now, r)
      ensures r.None? ==> Raised(old(counters), Entries(limits, c, now), counters)
      ensures r.Some? ==> SameValues(old(counters), counters)
      ensures r.Some? ==> exists l :: l in limits && r.value.metric == l.metric && r.value.limit == l.value
                                      && 0 < r.value.retryAfterMs <= 1000 * WindowSec(l)
    {
      var es := CollectEntries(c, now);
      EntriesCorrect(limits, c, now);
      if |es| == 0 {
        forall k ensures Sum(es, AmountOn(k)) == 0 { AmountOnOther(es, k); }
        return None;
      }
      if |es| == 1 {
        assert es == [es[0]];
        r := CheckSingle(es[0], now);
      } else {
        r := CheckPipeline(es, now);
      }
      if r.Some? {
        ghost var i :| FirstOver(old(counters), es, i) && r.value == Report(old(counters), es[i], now);
        RetryAfterWithinWindow(es[i].limit, c, now, old(counters));
      }
    }
  }
}
