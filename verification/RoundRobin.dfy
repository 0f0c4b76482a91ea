/** The weighted round-robin scheduler over a shared 64-bit counter. */
module RoundRobin {
  import opened Basics

  /** int(counter) % total in the source: conversion to int64, remainder with the dividend's sign. */
  function SlotOf(counter: int, total: int): int
    requires 0 <= counter < TWO_64 && total > 0
  {
    if counter < TWO_63 then counter % total else -((TWO_64 - counter) % total)
  }

  function Positive(w: int): int { if w > 0 then w else 0 }

  /** Slots given to a weight: a non-positive weight still gets one. */
  function Width(w: int): int { if w <= 0 then 1 else w }

  /** The modulus: positive weights only. */
  function TotalWeight(ws: seq<int>): int {
    if ws == [] then 0 else TotalWeight(ws[..|ws| - 1]) + Positive(ws[|ws| - 1])
  }

  /** The slots of the first i deployments. */
  function Reach(ws: seq<int>, i: nat): int
    requires i <= |ws|
  {
    if i == 0 then 0 else Reach(ws, i - 1) + Width(ws[i - 1])
  }

  /** i is the deployment whose slots contain `slot`; deployment 0 also gets everything below 0. */
  ghost predicate Owns(ws: seq<int>, i: nat, slot: int) {
    i < |ws| && slot < Reach(ws, i + 1) && (i > 0 ==> Reach(ws, i) <= slot)
  }

  class RouterState {
    var counter: int

    ghost predicate Valid()
      reads this
    {
      0 <= counter < TWO_64
    }

    constructor ()
      ensures Valid() && counter == 0
    {
      counter := 0;
    }

    /** Counter.Add(1) - 1 */
    method NextTicket() returns (ticket: int)
      requires Valid()
      modifies this
      ensures Valid() && ticket == old(counter) && counter == (old(counter) + 1) % TWO_64
    {
      ticket := counter;
      counter := (counter + 1) % TWO_64;
    }

    /** weightedSelect: walks the cumulative widths until they pass the slot. */
    method WeightedSelect(ws: seq<int>, total: int) returns (i: nat)
      requires Valid() && ws != [] && total == TotalWeight(ws) > 0
      modifies this
      ensures Valid() && counter == (old(counter) + 1) % TWO_64
      ensures Owns(ws, i, SlotOf(old(counter), total))
    {
      var ticket := NextTicket();
      var slot := SlotOf(ticket, total);
      var cumulative := 0;
      for j := 0 to |ws|
        invariant cumulative == Reach(ws, j)
        invariant j > 0 ==> Reach(ws, j) <= slot
      {
        cumulative := cumulative + Width(ws[j]);
        if slot < cumulative {
          return j;
        }
      }
      TotalWithinReach(ws);
      assert false;
    }

    /** RoundRobinStrategy.Select on the candidate weights: weighted if any weight is positive. */
    method Select(ws: seq<int>) returns (i: nat)
      requires Valid() && ws != []
      modifies this
      ensures Valid() && counter == (old(counter) + 1) % TWO_64
      ensures TotalWeight(ws) > 0 ==> Owns(ws, i, SlotOf(old(counter), TotalWeight(ws)))
      ensures TotalWeight(ws) == 0 ==> i == old(counter) % |ws|
    {
      var hasWeights, total := false, 0;
      for j := 0 to |ws|
        invariant total == TotalWeight(ws[..j]) >= 0
        invariant hasWeights <==> total > 0
      {
        assert ws[..j + 1][..j] == ws[..j];
        if ws[j] > 0 {
          hasWeights, total := true, total + ws[j];
        }
      }
      assert ws[..|ws|] == ws;
      if hasWeights && total > 0 {
        i := WeightedSelect(ws, total);
      } else {
        var ticket := NextTicket();
        i := ticket % |ws|;
      }
    }
  }

  // ---------------------------------------------------------------- slots and owners

  lemma {:induction false} ReachPrefix(ws: seq<int>, n: nat, i: nat)
    requires i <= n <= |ws|
    ensures Reach(ws[..n], i) == Reach(ws, i)
  {
    if i > 0 { ReachPrefix(ws, n, i - 1); }
  }

  lemma {:induction false} TotalWithinReach(ws: seq<int>)
    ensures 0 <= TotalWeight(ws) <= Reach(ws, |ws|)
  {
    if ws != [] {
      var n := |ws| - 1;
      TotalWithinReach(ws[..n]);
      ReachPrefix(ws, n, n);
    }
  }

  lemma {:induction false} ReachMonotone(ws: seq<int>, a: nat, b: nat)
    requires a <= b <= |ws|
    ensures Reach(ws, a) + (b - a) <= Reach(ws, b)
    decreases b
  {
    if a < b { ReachMonotone(ws, a, b - 1); }
  }

  lemma OwnerUnique(ws: seq<int>, i: nat, j: nat, slot: int)
    requires Owns(ws, i, slot) && Owns(ws, j, slot)
    ensures i == j
  {
    if i < j { ReachMonotone(ws, i + 1, j); }
    if j < i { ReachMonotone(ws, j + 1, i); }
  }

  // ---------------------------------------------------------------- counting selections

  /** Does ticket c go to deployment i? */
  ghost predicate Picks(ws: seq<int>, c: int, i: nat) {
    0 <= c < TWO_64 &&
    if TotalWeight(ws) > 0 then Owns(ws, i, SlotOf(c, TotalWeight(ws))) else ws != [] && i == c % |ws|
  }

  /** The deployment whose slots contain a slot below the modulus. */
  lemma SomeOwner(ws: seq<int>, slot: int, n: nat) returns (i: nat)
    requires 0 < n <= |ws| && slot < Reach(ws, n)
    ensures i < n && Owns(ws, i, slot)
  {
    i := n - 1;
    while i > 0 && slot < Reach(ws, i)
      invariant i < n && slot < Reach(ws, i + 1)
    {
      i := i - 1;
    }
  }

  /** Every ticket goes to exactly one deployment, so rounds neither skip a ticket nor serve it twice. */
  lemma OneOwnerPerTicket(ws: seq<int>, c: int) returns (i: nat)
    requires ws != [] && 0 <= c < TWO_64
    ensures i < |ws| && forall j: nat :: Picks(ws, c, j) <==> j == i
  {
    var t := TotalWeight(ws);
    TotalWithinReach(ws);
    if t > 0 {
      i := SomeOwner(ws, SlotOf(c, t), |ws|);
      forall j: nat | Picks(ws, c, j) ensures j == i { OwnerUnique(ws, i, j, SlotOf(c, t)); }
    } else {
      i := c % |ws|;
    }
  }

  /** How many of the n tickets from s on go to deployment i. */
  ghost function Hits(ws: seq<int>, s: nat, n: nat, i: nat): nat {
    if n == 0 then 0 else Hits(ws, s, n - 1, i) + (if Picks(ws, s + n - 1, i) then 1 else 0)
  }

  lemma {:induction false} HitsFront(ws: seq<int>, s: nat, n: nat, i: nat)
    ensures Hits(ws, s, n + 1, i) == (if Picks(ws, s, i) then 1 else 0) + Hits(ws, s + 1, n, i)
  {
    hide Picks;
    if n > 0 {
      HitsFront(ws, s, n - 1, i);
      assert Hits(ws, s, n + 1, i) == Hits(ws, s, n, i) + (if Picks(ws, s + n, i) then 1 else 0);
    } else {
      assert Hits(ws, s, 1, i) == Hits(ws, s, 0, i) + (if Picks(ws, s, i) then 1 else 0);
    }
  }

  lemma AddPeriod(c: nat, t: nat)
    requires t > 0
    ensures (c + t) % t == c % t
  {
    var q, r := c / t, c % t;
    assert c + t == (q + 1) * t + r;
    QuotientUnique(c + t, t, q + 1, r);
  }

  /** The tickets after which the schedule repeats. */
  ghost function PeriodOf(ws: seq<int>): nat
    requires ws != []
  {
    if TotalWeight(ws) > 0 then TotalWeight(ws) else |ws|
  }

  /** Tickets below this bound are scheduled without a sign change. */
  ghost function Horizon(ws: seq<int>): int {
    if TotalWeight(ws) > 0 then TWO_63 else TWO_64
  }

  lemma {:induction false} AnyOffset(ws: seq<int>, s: nat, i: nat)
    requires ws != [] && s + PeriodOf(ws) <= Horizon(ws)
    ensures Hits(ws, s, PeriodOf(ws), i) == Hits(ws, 0, PeriodOf(ws), i)
  {
    if s > 0 {
      var t := PeriodOf(ws);
      AnyOffset(ws, s - 1, i);
      HitsFront(ws, s - 1, t, i);
      AddPeriod(s - 1, t);
      assert Hits(ws, s - 1, t + 1, i) == Hits(ws, s - 1, t, i) + (if Picks(ws, s - 1 + t, i) then 1 else 0) by { hide Picks; }
    }
  }

  function Clip(x: int, n: int): int { if x < n then x else n }

  /** Slots of deployment i that lie below the modulus. */
  ghost function Share(ws: seq<int>, i: nat): int
    requires i < |ws|
  {
    Clip(Reach(ws, i + 1), TotalWeight(ws)) - Clip(Reach(ws, i), TotalWeight(ws))
  }

  lemma SmallRemainder(c: int, t: int)
    requires 0 <= c < t
    ensures c % t == c
  {
    QuotientUnique(c, t, 0, c);
  }

  lemma PicksInFirstRound(ws: seq<int>, c: nat, i: nat)
    requires i < |ws| && c < TotalWeight(ws) <= TWO_63
    ensures Picks(ws, c, i) <==> Reach(ws, i) <= c < Reach(ws, i + 1)
  {
    hide TotalWeight;
    SmallRemainder(c, TotalWeight(ws));
    ReachMonotone(ws, 0, i);
  }

  lemma {:induction false} HitsFromZero(ws: seq<int>, n: nat, i: nat)
    requires i < |ws| && TotalWeight(ws) > 0 && n <= TotalWeight(ws) <= TWO_63
    ensures Hits(ws, 0, n, i) == Clip(Reach(ws, i + 1), n) - Clip(Reach(ws, i), n)
  {
    hide TotalWeight, Picks;
    ReachMonotone(ws, i, i + 1);
    ReachMonotone(ws, 0, i);
    if n > 0 {
      HitsFromZero(ws, n - 1, i);
      PicksInFirstRound(ws, n - 1, i);
    }
  }

  /**
   * Over any TotalWeight consecutive tickets below 2^63, from any starting offset, deployment i
   * is selected exactly as often as its slots fit under the modulus.
   */
  lemma SelectionsPerRound(ws: seq<int>, s: nat, i: nat)
    requires i < |ws| && TotalWeight(ws) > 0 && s + TotalWeight(ws) <= TWO_63
    ensures Hits(ws, s, TotalWeight(ws), i) == Share(ws, i)
  {
    AnyOffset(ws, s, i);
    HitsFromZero(ws, TotalWeight(ws), i);
  }

  /** Without positive weights, any n consecutive tickets below 2^64 hit each of n deployments once. */
  lemma SimpleRoundRobin(ws: seq<int>, s: nat, i: nat)
    requires i < |ws| && TotalWeight(ws) == 0 && s + |ws| <= TWO_64
    ensures Hits(ws, s, |ws|, i) == 1
  {
    AnyOffset(ws, s, i);
    SimpleFromZero(ws, |ws|, i);
  }

  lemma {:induction false} SimpleFromZero(ws: seq<int>, n: nat, i: nat)
    requires i < |ws| && TotalWeight(ws) == 0 && n <= |ws| <= TWO_64
    ensures Hits(ws, 0, n, i) == if i < n then 1 else 0
  {
    hide TotalWeight;
    if n > 0 {
      SimpleFromZero(ws, n - 1, i);
      SmallRemainder(n - 1, |ws|);
    }
  }

  // ---------------------------------------------------------------- when the shares are the weights

  /** No deployment with a positive weight comes after one without. */
  ghost predicate UnweightedLast(ws: seq<int>) {
    forall i, j :: 0 <= i < j < |ws| && ws[i] <= 0 ==> ws[j] <= 0
  }

  lemma {:induction false} ReachIsTotal(ws: seq<int>, i: nat)
    requires i <= |ws| && forall j :: 0 <= j < i ==> ws[j] > 0
    ensures Reach(ws, i) == TotalWeight(ws[..i])
  {
    if i > 0 {
      ReachIsTotal(ws, i - 1);
      assert ws[..i][..i - 1] == ws[..i - 1];
    }
  }

  lemma {:induction false} TotalPrefix(ws: seq<int>, i: nat)
    requires i <= |ws|
    ensures TotalWeight(ws[..i]) <= TotalWeight(ws)
    ensures (exists j :: i <= j < |ws| && ws[j] > 0) ==> TotalWeight(ws[..i]) < TotalWeight(ws)
    ensures (forall j :: i <= j < |ws| ==> ws[j] <= 0) ==> TotalWeight(ws[..i]) == TotalWeight(ws)
  {
    if i < |ws| {
      var n := |ws| - 1;
      TotalPrefix(ws[..n], i);
      assert ws[..n][..i] == ws[..i];
      assert forall j :: i <= j < n ==> ws[..n][j] == ws[j];
    } else {
      assert ws[..i] == ws;
    }
  }

  lemma ShareIsWeight(ws: seq<int>, i: nat)
    requires i < |ws| && UnweightedLast(ws)
    ensures Share(ws, i) == Positive(ws[i])
  {
    ReachMonotone(ws, i, i + 1);
    if ws[i] > 0 {
      assert forall j :: 0 <= j <= i ==> ws[j] > 0;
      ReachIsTotal(ws, i);
      ReachIsTotal(ws, i + 1);
      TotalPrefix(ws, i);
      TotalPrefix(ws, i + 1);
    } else {
      var m := FirstUnweighted(ws, i);
      ReachIsTotal(ws, m);
      TotalPrefix(ws, m);
      ReachMonotone(ws, m, i);
    }
  }

  /** The first deployment without a positive weight, at or before i. */
  lemma FirstUnweighted(ws: seq<int>, i: nat) returns (m: nat)
    requires i < |ws| && ws[i] <= 0
    ensures m <= i && ws[m] <= 0 && forall j :: 0 <= j < m ==> ws[j] > 0
  {
    m := 0;
    while ws[m] > 0
      invariant m <= i && forall j :: 0 <= j < m ==> ws[j] > 0
      decreases i - m
    {
      m := m + 1;
    }
  }

  /**
   * Every deployment is selected exactly max(weight, 0) times per round if and only if no
   * positive weight comes after a non-positive one; in particular if all weights are positive.
   */
  lemma FairIffUnweightedLast(ws: seq<int>)
    requires TotalWeight(ws) > 0
    ensures (forall i :: 0 <= i < |ws| ==> Share(ws, i) == Positive(ws[i])) <==> UnweightedLast(ws)
  {
    hide Share, Reach, TotalWeight;
    if UnweightedLast(ws) {
      forall i | 0 <= i < |ws| ensures Share(ws, i) == Positive(ws[i]) { ShareIsWeight(ws, i); }
    } else {
      var i, j :| 0 <= i < j < |ws| && ws[i] <= 0 && ws[j] > 0;
      var m := FirstUnweighted(ws, i);
      StolenSlot(ws, m, j);
    }
  }

  /** A non-positive weight ahead of a positive one takes a slot that is not its own. */
  lemma StolenSlot(ws: seq<int>, m: nat, j: nat)
    requires m < j < |ws| && ws[m] <= 0 && ws[j] > 0 && forall k :: 0 <= k < m ==> ws[k] > 0
    ensures Share(ws, m) == 1
  {
    ReachIsTotal(ws, m);
    TotalPrefix(ws, m);
  }

  /** From ticket 2^63 on the slot is never positive: only the first deployment is ever selected. */
  lemma StuckOnFirst(ws: seq<int>, c: int, i: nat)
    requires TotalWeight(ws) > 0 && TWO_63 <= c < TWO_64 && Picks(ws, c, i)
    ensures i == 0
  {
    if i > 0 { ReachMonotone(ws, 0, i); }
  }
}
