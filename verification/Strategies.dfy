/**
 * The routing strategies at one instant. The comparison sort of the source is not stable, so
 * its result is an input constrained only to be some sorted permutation.
 */
module Strategies {
  import opened Basics
  import opened Calendar
  import opened Health
  import opened Latency
  import RoundRobin

  datatype Deployment = Deployment(id: string, provider: string, priority: int, weight: int, cost: real)

  /** `avoid` holds the deployments whose provider says that little of a rate limit is left. */
  predicate Available(records: Records, avoid: set<string>, now: Instant, d: Deployment) {
    Healthy(records, d.id, now) && d.id !in avoid
  }

  function AvailableOf(records: Records, avoid: set<string>, now: Instant, ds: seq<Deployment>): seq<Deployment> {
    if ds == [] then []
    else
      var d := ds[|ds| - 1];
      AvailableOf(records, avoid, now, ds[..|ds| - 1]) + (if Available(records, avoid, now, d) then [d] else [])
  }

  lemma {:induction false} AvailableOfMembers(records: Records, avoid: set<string>, now: Instant, ds: seq<Deployment>, d: Deployment)
    ensures d in AvailableOf(records, avoid, now, ds) <==> d in ds && Available(records, avoid, now, d)
  {
    if ds != [] {
      var n := |ds| - 1;
      AvailableOfMembers(records, avoid, now, ds[..n], d);
      assert ds == ds[..n] + [ds[n]];
    }
  }

  /** The candidates of the balancing strategies: the available ones, or everyone if there are none. */
  function Candidates(records: Records, avoid: set<string>, now: Instant, group: seq<Deployment>): seq<Deployment> {
    if AvailableOf(records, avoid, now, group) == [] then group else AvailableOf(records, avoid, now, group)
  }

  /** A candidate belongs to the group, and is available whenever anyone is. */
  lemma CandidatesCorrect(records: Records, avoid: set<string>, now: Instant, group: seq<Deployment>, d: Deployment)
    ensures var cs := Candidates(records, avoid, now, group);
            && (group != [] ==> cs != [])
            && (d in cs ==> d in group)
            && (d in cs && (exists e :: e in group && Available(records, avoid, now, e)) ==> Available(records, avoid, now, d))
            && (d in group && Available(records, avoid, now, d) ==> d in cs)
  {
    AvailableOfMembers(records, avoid, now, group, d);
    if e :| e in group && Available(records, avoid, now, e) {
      AvailableOfMembers(records, avoid, now, group, e);
    }
  }

  method HealthyDeployments(tracker: HealthTracker, avoid: set<string>, now: Instant, ds: seq<Deployment>) returns (healthy: seq<Deployment>)
    ensures healthy == AvailableOf(tracker.health, avoid, now, ds)
  {
    healthy := [];
    for i := 0 to |ds|
      invariant healthy == AvailableOf(tracker.health, avoid, now, ds[..i])
    {
      assert ds[..i + 1][..i] == ds[..i];
      if Available(tracker.health, avoid, now, ds[i]) {
        healthy := healthy + [ds[i]];
      }
    }
    assert ds[..|ds|] == ds;
  }

  ghost predicate SortedByPriority(sorted: seq<Deployment>, group: seq<Deployment>) {
    multiset(sorted) == multiset(group) &&
    forall i, j :: 0 <= i < j < |sorted| ==> sorted[i].priority <= sorted[j].priority
  }

  ghost predicate SortedByCost(sorted: seq<Deployment>, ds: seq<Deployment>) {
    multiset(sorted) == multiset(ds) &&
    forall i, j :: 0 <= i < j < |sorted| ==> sorted[i].cost <= sorted[j].cost
  }

  lemma SameMembers(xs: seq<Deployment>, ys: seq<Deployment>)
    requires multiset(xs) == multiset(ys)
    ensures |xs| == |ys| && forall d :: d in xs <==> d in ys
  {
    assert forall d :: d in xs <==> d in multiset(xs);
    assert forall d :: d in ys <==> d in multiset(ys);
    assert |multiset(xs)| == |xs| && |multiset(ys)| == |ys|;
  }

  // ---------------------------------------------------------------- fallback

  /** Position of the first available deployment, or the length if there is none. */
  function FirstAvailable(records: Records, avoid: set<string>, now: Instant, ds: seq<Deployment>): (i: nat)
    ensures i <= |ds|
    ensures i < |ds| ==> Available(records, avoid, now, ds[i])
    ensures forall j :: 0 <= j < i ==> !Available(records, avoid, now, ds[j])
  {
    if ds == [] || Available(records, avoid, now, ds[0]) then 0
    else
      assert forall j :: 1 <= j < |ds| ==> ds[j] == ds[1..][j - 1];
      1 + FirstAvailable(records, avoid, now, ds[1..])
  }

  /** Everyone unavailable: a deployment nothing is known about comes first, else the one back soonest. */
  ghost predicate ReturnsSoonest(records: Records, group: seq<Deployment>, d: Deployment) {
    if exists e :: e in group && e.id !in records
    then d.id !in records && forall e :: e in group && e.id !in records ==> d.priority <= e.priority
    else d.id in records && forall e :: e in group ==> e.id in records && records[d.id].cooldownUntil <= records[e.id].cooldownUntil
  }

  ghost predicate NamedAll(ds: seq<Deployment>) {
    forall i :: 0 <= i < |ds| ==> ds[i].id != ""
  }

  ghost predicate Unrecorded(records: Records, ds: seq<Deployment>) {
    exists i :: 0 <= i < |ds| && ds[i].id !in records
  }

  function Ids(ds: seq<Deployment>): seq<string> {
    seq(|ds|, i requires 0 <= i < |ds| => ds[i].id)
  }

  /** The first deployment with a given id, or the first of all. */
  function ById(ds: seq<Deployment>, id: string): (d: Deployment)
    requires ds != []
    ensures d in ds
    ensures d.id == id || (d == ds[0] && forall e :: e in ds ==> e.id != id)
  {
    if ds[0].id == id || |ds| == 1 then ds[0]
    else
      var d := ById(ds[1..], id);
      if d.id == id then d else ds[0]
  }

  /** What the fallback strategy answers on a priority-ordered list. */
  function FallbackChoice(records: Records, avoid: set<string>, now: Instant, sorted: seq<Deployment>): Option<Deployment> {
    var k := FirstAvailable(records, avoid, now, sorted);
    if sorted == [] then None
    else if k < |sorted| then Some(sorted[k])
    else Some(ById(sorted, EarliestFrom(records, Ids(sorted), 0, "")))
  }

  /** The scan of the priority-ordered list for an available deployment. */
  method ScanAvailable(tracker: HealthTracker, avoid: set<string>, now: Instant, sorted: seq<Deployment>) returns (i: nat)
    ensures i == FirstAvailable(tracker.health, avoid, now, sorted)
  {
    i := 0;
    while i < |sorted|
      invariant i <= |sorted| && forall j :: 0 <= j < i ==> !Available(tracker.health, avoid, now, sorted[j])
    {
      if Available(tracker.health, avoid, now, sorted[i]) {
        return;
      }
      i := i + 1;
    }
  }

  /** All in cooldown: asks for the id that recovers soonest and finds its deployment. */
  method SoonestOf(tracker: HealthTracker, sorted: seq<Deployment>) returns (d: Deployment)
    requires sorted != [] && SortedByPriority(sorted, sorted)
    ensures d in sorted && d == ById(sorted, EarliestFrom(tracker.health, Ids(sorted), 0, ""))
    ensures NamedAll(sorted) || Unrecorded(tracker.health, sorted) ==> ReturnsSoonest(tracker.health, sorted, d)
  {
    var ids := Ids(sorted);
    var earliest := tracker.EarliestCooldownExpiry(ids);
    ghost var k :| 0 <= k < |ids| && ids[k] == earliest;
    var i := 0;
    while sorted[i].id != earliest
      invariant i <= k && forall j :: 0 <= j < i ==> sorted[j].id != earliest
      decreases k - i
    {
      i := i + 1;
    }
    ByIdFirst(sorted, earliest, i);
    if NamedAll(sorted) || Unrecorded(tracker.health, sorted) {
      SoonestFound(tracker.health, sorted, ids, i);
    }
    return sorted[i];
  }

  lemma {:induction false} ByIdFirst(ds: seq<Deployment>, id: string, i: nat)
    requires i < |ds| && ds[i].id == id && forall j :: 0 <= j < i ==> ds[j].id != id
    ensures ById(ds, id) == ds[i]
  {
    if i > 0 {
      assert forall j :: 0 <= j < i - 1 ==> ds[1..][j] == ds[j + 1];
      ByIdFirst(ds[1..], id, i - 1);
    }
  }

  /** Finding the answer of EarliestCooldownExpiry by its id picks the right deployment. */
  lemma SoonestFound(records: Records, sorted: seq<Deployment>, ids: seq<string>, i: nat)
    requires SortedByPriority(sorted, sorted) && i < |sorted| == |ids| && forall j :: 0 <= j < |ids| ==> ids[j] == sorted[j].id
    requires forall j :: 0 <= j < i ==> sorted[j].id != sorted[i].id
    requires (exists k :: 0 <= k < |ids| && ids[k] !in records) ==>
               exists k :: 0 <= k < |ids| && sorted[i].id == ids[k] && ids[k] !in records && forall j :: 0 <= j < k ==> ids[j] in records
    requires (forall k :: 0 <= k < |ids| ==> ids[k] in records) ==>
               sorted[i].id in records && forall k :: 0 <= k < |ids| ==> records[sorted[i].id].cooldownUntil <= records[ids[k]].cooldownUntil
    ensures ReturnsSoonest(records, sorted, sorted[i])
  {
    if exists k :: 0 <= k < |ids| && ids[k] !in records {
      var k :| 0 <= k < |ids| && sorted[i].id == ids[k] && ids[k] !in records && forall j :: 0 <= j < k ==> ids[j] in records;
      assert k == i;
      assert sorted[i] in sorted;
      forall e | e in sorted && e.id !in records ensures sorted[i].priority <= e.priority {
        var m :| 0 <= m < |sorted| && sorted[m] == e;
        assert ids[m] !in records;
      }
    } else {
      forall e | e in sorted ensures e.id in records && records[sorted[i].id].cooldownUntil <= records[e.id].cooldownUntil {
        var m :| 0 <= m < |sorted| && sorted[m] == e;
        assert ids[m] == e.id;
      }
    }
  }

  /** The available deployment of highest priority; with none available, the one back soonest. */
  method Fallback(tracker: HealthTracker, avoid: set<string>, now: Instant, group: seq<Deployment>, sorted: seq<Deployment>)
      returns (r: Option<Deployment>)
    requires SortedByPriority(sorted, group)
    ensures r == FallbackChoice(tracker.health, avoid, now, sorted)
    ensures r.None? <==> group == []
    ensures r.Some? ==> r.value in group
    ensures r.Some? && (exists e :: e in group && Available(tracker.health, avoid, now, e)) ==>
              && Available(tracker.health, avoid, now, r.value)
              && (forall e :: e in group && Available(tracker.health, avoid, now, e) ==> r.value.priority <= e.priority)
    ensures r.Some? && (forall e :: e in group ==> !Available(tracker.health, avoid, now, e)) &&
            (NamedAll(group) || Unrecorded(tracker.health, group)) ==>
              ReturnsSoonest(tracker.health, group, r.value)
  {
    hide Available, ReturnsSoonest, NamedAll, Unrecorded;
    SameMembers(sorted, group);
    if |group| == 0 {
      return None;
    }
    var i := ScanAvailable(tracker, avoid, now, sorted);
    if i < |sorted| {
      FirstIsBest(tracker.health, avoid, now, group, sorted);
      return Some(sorted[i]);
    }
    assert SortedByPriority(sorted, sorted);
    var d := SoonestOf(tracker, sorted);
    SoonestOfGroup(tracker.health, group, sorted, d);
    SameNames(tracker.health, group, sorted);
    return Some(d);
  }

  lemma FirstIsBest(records: Records, avoid: set<string>, now: Instant, group: seq<Deployment>, sorted: seq<Deployment>)
    requires SortedByPriority(sorted, group)
    requires FirstAvailable(records, avoid, now, sorted) < |sorted|
    ensures var d := sorted[FirstAvailable(records, avoid, now, sorted)];
            && d in group && Available(records, avoid, now, d)
            && forall e :: e in group && Available(records, avoid, now, e) ==> d.priority <= e.priority
  {
    hide Available;
    SameMembers(sorted, group);
    var i := FirstAvailable(records, avoid, now, sorted);
    assert sorted[i] in group;
    forall e | e in group && Available(records, avoid, now, e) ensures sorted[i].priority <= e.priority {
      var m :| 0 <= m < |sorted| && sorted[m] == e;
    }
  }

  lemma SoonestOfGroup(records: Records, group: seq<Deployment>, sorted: seq<Deployment>, d: Deployment)
    requires multiset(sorted) == multiset(group)
    ensures ReturnsSoonest(records, sorted, d) <==> ReturnsSoonest(records, group, d)
  {
    SameMembers(sorted, group);
  }

  lemma SameNames(records: Records, group: seq<Deployment>, sorted: seq<Deployment>)
    requires multiset(sorted) == multiset(group)
    ensures NamedAll(sorted) <==> NamedAll(group)
    ensures Unrecorded(records, sorted) <==> Unrecorded(records, group)
  {
    SameMembers(sorted, group);
    assert forall i :: 0 <= i < |sorted| ==> sorted[i] in group;
    assert forall i :: 0 <= i < |group| ==> group[i] in sorted;
    assert NamedAll(sorted) <==> forall d :: d in sorted ==> d.id != "";
    assert Unrecorded(records, sorted) <==> exists d :: d in sorted && d.id !in records;
  }

  // ---------------------------------------------------------------- round-robin

  function Weights(ds: seq<Deployment>): seq<int> {
    seq(|ds|, i requires 0 <= i < |ds| => ds[i].weight)
  }

  /** The ticket's owner among the weighted candidates is d. */
  ghost predicate Scheduled(cs: seq<Deployment>, ticket: int, d: Deployment) {
    exists i: nat :: i < |cs| && d == cs[i] && RoundRobin.Picks(Weights(cs), ticket, i)
  }

  /** The candidate that owns the next ticket of the shared counter. */
  method RoundRobinSelect(tracker: HealthTracker, router: RoundRobin.RouterState, avoid: set<string>, now: Instant,
                          group: seq<Deployment>) returns (r: Option<Deployment>)
    requires router.Valid()
    modifies router
    ensures router.Valid()
    ensures r.None? <==> group == []
    ensures r.None? ==> router.counter == old(router.counter)
    ensures r.Some? ==> router.counter == (old(router.counter) + 1) % TWO_64
    ensures r.Some? ==> Scheduled(Candidates(tracker.health, avoid, now, group), old(router.counter), r.value)
  {
    if |group| == 0 {
      return None;
    }
    var healthy := HealthyDeployments(tracker, avoid, now, group);
    if |healthy| == 0 {
      healthy := group;
    }
    RoundRobin.TotalWithinReach(Weights(healthy));
    var i := router.Select(Weights(healthy));
    assert healthy == Candidates(tracker.health, avoid, now, group);
    assert RoundRobin.Picks(Weights(healthy), old(router.counter), i);
    assert Scheduled(healthy, old(router.counter), healthy[i]);
    return Some(healthy[i]);
  }

  /**
   * With positive weights throughout, any round of as many consecutive tickets as the weights add up
   * to, from any offset below 2^63, goes to each candidate exactly as often as its weight says.
   */
  lemma TicketsByWeight(cs: seq<Deployment>, s: nat, n: nat, i: nat)
    requires i < |cs| && forall j :: 0 <= j < |cs| ==> cs[j].weight > 0
    requires n == RoundRobin.TotalWeight(Weights(cs)) && s + n <= TWO_63
    ensures RoundRobin.Hits(Weights(cs), s, n, i) == cs[i].weight
  {
    hide RoundRobin.Hits, RoundRobin.Share;
    var ws := Weights(cs);
    RoundRobin.ShareIsWeight(ws, i);
    SomeWeight(ws);
    RoundRobin.SelectionsPerRound(ws, s, i);
  }

  lemma {:induction false} SomeWeight(ws: seq<int>)
    requires ws != [] && forall j :: 0 <= j < |ws| ==> ws[j] > 0
    ensures RoundRobin.TotalWeight(ws) > 0
  {
    if |ws| > 1 { SomeWeight(ws[..|ws| - 1]); }
  }

  // ---------------------------------------------------------------- lowest latency

  /** The deployments without a latency sample, in order. */
  ghost function WithoutData(latency: LatencyTracker, ds: seq<Deployment>): seq<Deployment>
    reads latency
  {
    if ds == [] then []
    else WithoutData(latency, ds[..|ds| - 1]) + (if latency.HistoryOf(ds[|ds| - 1].id) == [] then [ds[|ds| - 1]] else [])
  }

  /** Splits the candidates by whether any latency is known, keeping their order. */
  method SplitByData(latency: LatencyTracker, ds: seq<Deployment>) returns (explored: seq<Deployment>, unexplored: seq<Deployment>)
    requires latency.Valid()
    ensures forall d :: d in explored <==> d in ds && latency.HistoryOf(d.id) != []
    ensures forall d :: d in unexplored <==> d in ds && latency.HistoryOf(d.id) == []
    ensures unexplored == WithoutData(latency, ds)
  {
    explored, unexplored := [], [];
    for i := 0 to |ds|
      invariant forall d :: d in explored <==> d in ds[..i] && latency.HistoryOf(d.id) != []
      invariant forall d :: d in unexplored <==> d in ds[..i] && latency.HistoryOf(d.id) == []
      invariant unexplored == WithoutData(latency, ds[..i])
    {
      assert ds[..i + 1][..i] == ds[..i];
      assert ds[..i + 1] == ds[..i] + [ds[i]];
      var has := latency.HasData(ds[i].id);
      if has {
        explored := explored + [ds[i]];
      } else {
        unexplored := unexplored + [ds[i]];
      }
    }
    assert ds[..|ds|] == ds;
  }

  method LowestAverage(latency: LatencyTracker, ds: seq<Deployment>) returns (best: Deployment)
    requires latency.Valid() && ds != []
    ensures best in ds
    ensures forall e :: e in ds ==> Mean(Recent(latency.HistoryOf(best.id))) <= Mean(Recent(latency.HistoryOf(e.id)))
  {
    hide Mean, Recent;
    best := ds[0];
    var bestLatency := latency.Average(best.id);
    for i := 1 to |ds|
      invariant best in ds && bestLatency == Mean(Recent(latency.HistoryOf(best.id)))
      invariant forall j :: 0 <= j < i ==> bestLatency <= Mean(Recent(latency.HistoryOf(ds[j].id)))
    {
      var avg := latency.Average(ds[i].id);
      if avg < bestLatency {
        best, bestLatency := ds[i], avg;
      }
    }
  }

  /** d has latency data, and no candidate with data has a lower average. */
  ghost predicate Fastest(latency: LatencyTracker, ds: seq<Deployment>, d: Deployment)
    reads latency
  {
    latency.HistoryOf(d.id) != [] &&
    forall e :: e in ds && latency.HistoryOf(e.id) != [] ==>
      Mean(Recent(latency.HistoryOf(d.id))) <= Mean(Recent(latency.HistoryOf(e.id)))
  }

  /**
   * `explore` says that the random draw fell below the exploration rate, `draw` is the random
   * index. When it explores, the choice is the candidate without data that the draw falls on, if there
   * is one; otherwise it is the fastest one with data, or any candidate if nothing is known.
   */
  method LowestLatency(tracker: HealthTracker, latency: LatencyTracker, avoid: set<string>, now: Instant,
                       group: seq<Deployment>, explore: bool, draw: nat) returns (r: Option<Deployment>)
    requires latency.Valid()
    ensures r.None? <==> group == []
    ensures r.Some? ==> r.value in Candidates(tracker.health, avoid, now, group)
    ensures r.Some? ==>
              var cs := Candidates(tracker.health, avoid, now, group);
              var unexplored := WithoutData(latency, cs);
              if explore && unexplored != [] then r.value == unexplored[draw % |unexplored|]
              else if exists e :: e in cs && latency.HistoryOf(e.id) != [] then Fastest(latency, cs, r.value)
              else r.value == cs[draw % |cs|]
  {
    hide Mean, Recent, AvailableOf;
    if |group| == 0 {
      return None;
    }
    var healthy := HealthyDeployments(tracker, avoid, now, group);
    if |healthy| == 0 {
      healthy := group;
    }
    var explored, unexplored := SplitByData(latency, healthy);
    if |unexplored| > 0 && explore {
      var pick := unexplored[draw % |unexplored|];
      assert pick in unexplored;
      assert healthy == Candidates(tracker.health, avoid, now, group);
      return Some(pick);
    }
    if |explored| == 0 {
      return Some(healthy[draw % |healthy|]);
    }
    var best := LowestAverage(latency, explored);
    return Some(best);
  }

  // ---------------------------------------------------------------- cost-optimized

  /**
   * A cheapest candidate. When nobody is available the candidates are the group's own slice, so
   * sorting them reorders the group: `group'` is the group afterwards.
   */
  method CostOptimized(tracker: HealthTracker, avoid: set<string>, now: Instant, group: seq<Deployment>, sorted: seq<Deployment>)
      returns (r: Option<Deployment>, group': seq<Deployment>)
    requires SortedByCost(sorted, Candidates(tracker.health, avoid, now, group))
    ensures r.None? <==> group == []
    ensures r.Some? ==> r.value in Candidates(tracker.health, avoid, now, group)
    ensures r.Some? ==> forall e :: e in Candidates(tracker.health, avoid, now, group) ==> r.value.cost <= e.cost
    ensures multiset(group') == multiset(group)
    ensures (exists e :: e in group && Available(tracker.health, avoid, now, e)) ==> group' == group
  {
    if |group| == 0 {
      return None, group;
    }
    var healthy := HealthyDeployments(tracker, avoid, now, group);
    group' := group;
    if |healthy| == 0 {
      group' := sorted;
    }
    SameMembers(sorted, Candidates(tracker.health, avoid, now, group));
    forall d ensures d in AvailableOf(tracker.health, avoid, now, group) <==> d in group && Available(tracker.health, avoid, now, d) {
      AvailableOfMembers(tracker.health, avoid, now, group, d);
    }
    r := Some(sorted[0]);
  }
}
