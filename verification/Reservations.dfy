/**
 * Worst-case spend reservations: up to six counters raised when a request is admitted and
 * lowered when it completes, one Redis command at a time, interleaved with other requests. Instants
 * are readings of the server's own wall clock: both calls label their counters in its time zone.
 */
module Reservations {
  import opened Sums
  import opened Calendar
  import opened RedisKeys
  import opened UsagePipeline

  /** The counters of one reservation or release made at time t, in pipeline order. */
  function ReservationKeys(tenant: nat, keyId: string, t: Instant): seq<BudgetKey> {
    PairFor(tenant, keyId, BucketOf(Monthly, t)) + PairFor(tenant, keyId, BucketOf(Weekly, t)) + PairFor(tenant, keyId, BucketOf(Daily, t))
  }

  function PairFor(tenant: nat, keyId: string, b: Bucket): seq<BudgetKey> {
    [AccountReserved(tenant, b)] + (if keyId != "" then [KeyReserved(keyId, b)] else [])
  }

  lemma ReservationKeysDistinct(tenant: nat, keyId: string, t: Instant)
    ensures Distinct(ReservationKeys(tenant, keyId, t))
  {
    hide CivilDate, IsoYear, IsoWeek;
  }

  /**
   * A release made at time u lowers exactly the counters that a reservation made at time t
   * raised if and only if both fall on the same day of the server's clock.
   */
  lemma SameCountersIffSameDay(tenant: nat, keyId: string, t: Instant, u: Instant)
    ensures ReservationKeys(tenant, keyId, t) == ReservationKeys(tenant, keyId, u) <==> DayIndex(t) == DayIndex(u)
  {
    var ks, ls := ReservationKeys(tenant, keyId, t), ReservationKeys(tenant, keyId, u);
    var n := if keyId != "" then 4 else 2;
    assert ks[n] == AccountReserved(tenant, BucketOf(Daily, t)) && ls[n] == AccountReserved(tenant, BucketOf(Daily, u)) by {
      hide BucketOf;
    }
    assert BucketOf(Daily, t) == BucketOf(Daily, u) ==> DayIndex(t) == DayIndex(u) by {
      hide CivilDate, DayNumber;
      CivilDateCorrect(DayIndex(t));
      CivilDateCorrect(DayIndex(u));
    }
  }

  // ---------------------------------------------------------------- the machine

  datatype Reservation = Reservation(
    tenant: nat, keyId: string, amount: int,
    at: Instant, keys: seq<BudgetKey>, raised: nat,                              // INCRBYFLOAT +amount executed so far
    releasing: bool, releasedAt: Instant, releaseKeys: seq<BudgetKey>, lowered: nat  // INCRBYFLOAT -amount executed so far
  )

  datatype Store = Store(counters: map<BudgetKey, int>, holds: seq<Reservation>)

  const EMPTY := Store(map[], [])

  datatype Move =
    | Begin(tenant: nat, keyId: string, amount: int, at: Instant)
    | Raise(i: nat)
    | BeginRelease(i: nat, at: Instant)
    | Lower(i: nat)

  predicate CanMove(s: Store, m: Move) {
    match m
    case Begin(_, _, amount, _) => amount != 0
    case Raise(i) => i < |s.holds| && s.holds[i].raised < |s.holds[i].keys|
    case BeginRelease(i, _) => i < |s.holds| && s.holds[i].raised == |s.holds[i].keys| && !s.holds[i].releasing
    case Lower(i) => i < |s.holds| && s.holds[i].releasing && s.holds[i].lowered < |s.holds[i].releaseKeys|
  }

  function Moved(s: Store, m: Move): Store
    requires CanMove(s, m)
  {
    match m
    case Begin(tenant, keyId, amount, t) =>
      s.(holds := s.holds + [Reservation(tenant, keyId, amount, t, ReservationKeys(tenant, keyId, t), 0, false, t, [], 0)])
    case Raise(i) =>
      var h := s.holds[i];
      Store(IncrBy(s.counters, h.keys[h.raised], h.amount), s.holds[i := h.(raised := h.raised + 1)])
    case BeginRelease(i, t) =>
      var h := s.holds[i];
      s.(holds := s.holds[i := h.(releasing := true, releasedAt := t, releaseKeys := ReservationKeys(h.tenant, h.keyId, t))])
    case Lower(i) =>
      var h := s.holds[i];
      Store(IncrBy(s.counters, h.releaseKeys[h.lowered], -h.amount), s.holds[i := h.(lowered := h.lowered + 1)])
  }

  ghost predicate Steps(s: Store, s': Store) {
    exists m :: CanMove(s, m) && s' == Moved(s, m)
  }

  ghost predicate Run(tr: seq<Store>) {
    tr != [] && tr[0] == EMPTY && forall i :: 0 <= i < |tr| - 1 ==> Steps(tr[i], tr[i + 1])
  }

  // ---------------------------------------------------------------- what is outstanding

  ghost predicate HoldOk(h: Reservation) {
    && h.keys == ReservationKeys(h.tenant, h.keyId, h.at) && h.raised <= |h.keys|
    && h.lowered <= |h.releaseKeys|
    && (h.releasing ==> h.raised == |h.keys| && h.releaseKeys == ReservationKeys(h.tenant, h.keyId, h.releasedAt))
    && (!h.releasing ==> h.releaseKeys == [])
  }

  predicate Raised(h: Reservation, k: BudgetKey) { h.raised <= |h.keys| && k in h.keys[..h.raised] }
  predicate Lowered(h: Reservation, k: BudgetKey) { h.lowered <= |h.releaseKeys| && k in h.releaseKeys[..h.lowered] }

  /** Reserved on counter k and not released from it. */
  ghost function Outstanding(k: BudgetKey): Reservation -> int {
    (h: Reservation) => if Raised(h, k) && !Lowered(h, k) then h.amount else 0
  }

  /** Released from counter k without ever having been reserved on it. */
  ghost function Misreleased(k: BudgetKey): Reservation -> int {
    (h: Reservation) => if Lowered(h, k) && !Raised(h, k) then h.amount else 0
  }

  ghost function Effect(k: BudgetKey): Reservation -> int {
    (h: Reservation) => (if Raised(h, k) then h.amount else 0) - (if Lowered(h, k) then h.amount else 0)
  }

  ghost predicate Inv(s: Store) {
    && (forall i :: 0 <= i < |s.holds| ==> HoldOk(s.holds[i]))
    && (forall k :: Get(s.counters, k) == Sum(s.holds, Effect(k)))
  }

  lemma {:induction false} PrefixGrows(ks: seq<BudgetKey>, n: nat, k: BudgetKey)
    requires Distinct(ks) && n < |ks|
    ensures k in ks[..n + 1] <==> k in ks[..n] || k == ks[n]
    ensures ks[n] !in ks[..n]
  {
    assert ks[..n + 1] == ks[..n] + [ks[n]];
  }

  lemma RaiseKeeps(s: Store, i: nat, k: BudgetKey)
    requires Inv(s) && CanMove(s, Raise(i))
    ensures var s' := Moved(s, Raise(i)); Get(s'.counters, k) == Sum(s'.holds, Effect(k))
  {
    hide ReservationKeys, Sum;
    var h := s.holds[i];
    assert HoldOk(h);
    ReservationKeysDistinct(h.tenant, h.keyId, h.at);
    PrefixGrows(h.keys, h.raised, k);
    SumUpdate(s.holds, i, h.(raised := h.raised + 1), Effect(k));
  }

  lemma LowerKeeps(s: Store, i: nat, k: BudgetKey)
    requires Inv(s) && CanMove(s, Lower(i))
    ensures var s' := Moved(s, Lower(i)); Get(s'.counters, k) == Sum(s'.holds, Effect(k))
  {
    hide ReservationKeys, Sum;
    var h := s.holds[i];
    assert HoldOk(h);
    ReservationKeysDistinct(h.tenant, h.keyId, h.releasedAt);
    PrefixGrows(h.releaseKeys, h.lowered, k);
    SumUpdate(s.holds, i, h.(lowered := h.lowered + 1), Effect(k));
  }

  lemma MoveKeeps(s: Store, m: Move)
    requires Inv(s) && CanMove(s, m)
    ensures Inv(Moved(s, m))
  {
    hide ReservationKeys, Sum;
    var s' := Moved(s, m);
    forall k ensures Get(s'.counters, k) == Sum(s'.holds, Effect(k)) {
      match m
      case Begin(_, _, _, _) => SumAppend(s.holds, s'.holds[|s.holds|], Effect(k));
      case Raise(i) => RaiseKeeps(s, i, k);
      case BeginRelease(i, _) => SumUpdate(s.holds, i, s'.holds[i], Effect(k));
      case Lower(i) => LowerKeeps(s, i, k);
    }
  }

  lemma {:induction false} Reachable(tr: seq<Store>, n: nat)
    requires Run(tr) && n < |tr|
    ensures Inv(tr[n])
  {
    if n > 0 {
      Reachable(tr, n - 1);
      assert Steps(tr[n - 1], tr[n]);
      var m :| CanMove(tr[n - 1], m) && tr[n] == Moved(tr[n - 1], m);
      MoveKeeps(tr[n - 1], m);
    }
  }

  /** In every interleaving a reservation counter is what is outstanding less what was misreleased. */
  lemma CounterIsOutstandingLessMisreleased(tr: seq<Store>, n: nat, k: BudgetKey)
    requires Run(tr) && n < |tr|
    ensures Get(tr[n].counters, k) == Sum(tr[n].holds, Outstanding(k)) - Sum(tr[n].holds, Misreleased(k))
  {
    Reachable(tr, n);
    SumAdd(tr[n].holds, Outstanding(k), Effect(k), Misreleased(k));
  }

  /** The release, if begun, was made on the day of the reservation. */
  predicate SameDay(h: Reservation) {
    h.releasing ==> DayIndex(h.releasedAt) == DayIndex(h.at)
  }

  lemma SameDayReleasesItsOwn(h: Reservation, k: BudgetKey)
    requires HoldOk(h) && SameDay(h)
    ensures Misreleased(k)(h) == 0
    ensures h.releasing && h.lowered == |h.releaseKeys| ==> Outstanding(k)(h) == 0
  {
    hide ReservationKeys;
    if h.releasing {
      SameCountersIffSameDay(h.tenant, h.keyId, h.at, h.releasedAt);
      assert h.keys == h.releaseKeys && h.keys[..h.raised] == h.keys;
      assert h.lowered == |h.keys| ==> h.keys[..h.lowered] == h.keys;
    }
  }

  /**
   * With releases on the day of their reservations, every counter is exactly the sum of the
   * outstanding reservations, is never negative, and is zero once everything is released.
   */
  lemma CounterIsOutstanding(tr: seq<Store>, n: nat, k: BudgetKey)
    requires Run(tr) && n < |tr|
    requires forall i :: 0 <= i < |tr[n].holds| ==> SameDay(tr[n].holds[i]) && tr[n].holds[i].amount >= 0
    ensures var s := tr[n];
            && Get(s.counters, k) == Sum(s.holds, Outstanding(k)) >= 0
            && ((forall i :: 0 <= i < |s.holds| ==> s.holds[i].releasing && s.holds[i].lowered == |s.holds[i].releaseKeys|)
                ==> Get(s.counters, k) == 0)
  {
    hide HoldOk;
    var s := tr[n];
    Reachable(tr, n);
    CounterIsOutstandingLessMisreleased(tr, n, k);
    forall i | 0 <= i < |s.holds|
      ensures Misreleased(k)(s.holds[i]) == 0
      ensures s.holds[i].releasing && s.holds[i].lowered == |s.holds[i].releaseKeys| ==> Outstanding(k)(s.holds[i]) == 0
    {
      SameDayReleasesItsOwn(s.holds[i], k);
    }
    SumZero(s.holds, Misreleased(k));
    SumMonotone(s.holds, Misreleased(k), Outstanding(k));
    if forall i :: 0 <= i < |s.holds| ==> s.holds[i].releasing && s.holds[i].lowered == |s.holds[i].releaseKeys| {
      SumZero(s.holds, Outstanding(k));
    }
  }

  /**
   * Across midnight the books break: the day of the release is credited with an amount it never
   * held, and the day of the reservation keeps it although everything is released.
   */
  lemma OvernightReleaseMisbooks(h: Reservation)
    requires HoldOk(h) && h.releasing && h.lowered == |h.releaseKeys| && !SameDay(h)
    ensures Misreleased(AccountReserved(h.tenant, BucketOf(Daily, h.releasedAt)))(h) == h.amount
    ensures Outstanding(AccountReserved(h.tenant, BucketOf(Daily, h.at)))(h) == h.amount
  {
    hide BucketOf, ReservationKeys;
    assert h.keys[..h.raised] == h.keys && h.releaseKeys[..h.lowered] == h.releaseKeys;
    DailyReserved(h.tenant, h.keyId, h.at, h.releasedAt);
    DailyReserved(h.tenant, h.keyId, h.releasedAt, h.at);
  }

  /** The daily account counter of time t, and of no other day, is among the counters of time t. */
  lemma DailyReserved(tenant: nat, keyId: string, t: Instant, u: Instant)
    ensures var ks := ReservationKeys(tenant, keyId, t);
            && AccountReserved(tenant, BucketOf(Daily, t)) in ks
            && (DayIndex(t) != DayIndex(u) ==> AccountReserved(tenant, BucketOf(Daily, u)) !in ks)
  {
    hide CivilDate, IsoYear, IsoWeek;
    CivilDateCorrect(DayIndex(t));
    CivilDateCorrect(DayIndex(u));
    assert ReservationKeys(tenant, keyId, t)[if keyId != "" then 4 else 2] == AccountReserved(tenant, BucketOf(Daily, t));
  }

  predicate Settled(h: Reservation) {
    h.releasing ==> h.lowered == |h.releaseKeys|
  }

  /** A settled reservation was released where it had been made if and only if on its day. */
  lemma NothingMisreleasedIffSameDay(h: Reservation)
    requires HoldOk(h) && Settled(h) && h.amount > 0
    ensures (forall k :: Misreleased(k)(h) == 0) <==> SameDay(h)
  {
    hide HoldOk;
    if SameDay(h) {
      forall k ensures Misreleased(k)(h) == 0 { SameDayReleasesItsOwn(h, k); }
    } else {
      OvernightReleaseMisbooks(h);
    }
  }

  ghost function Nothing(h: Reservation): int { 0 }

  lemma MisreleasedCounts(holds: seq<Reservation>, j: nat, k: BudgetKey)
    requires j < |holds| && forall i :: 0 <= i < |holds| ==> holds[i].amount > 0
    ensures Sum(holds, Misreleased(k)) >= Misreleased(k)(holds[j])
  {
    hide Sum;
    SumZero(holds, Nothing);
    SumMonotoneExcept(holds, j, Nothing, Misreleased(k));
  }

  /** A sum of non-negative amounts is zero if and only if each of them is. */
  lemma MisreleasedTotal(holds: seq<Reservation>, k: BudgetKey)
    requires forall i :: 0 <= i < |holds| ==> holds[i].amount > 0
    ensures Sum(holds, Misreleased(k)) == 0 <==> forall i :: 0 <= i < |holds| ==> Misreleased(k)(holds[i]) == 0
  {
    hide Sum;
    forall j: nat | j < |holds| ensures Sum(holds, Misreleased(k)) >= Misreleased(k)(holds[j]) >= 0 {
      MisreleasedCounts(holds, j, k);
    }
    if forall i :: 0 <= i < |holds| ==> Misreleased(k)(holds[i]) == 0 {
      SumZero(holds, Misreleased(k));
    }
  }

  /**
   * In every run, with all begun releases completed: the counters are the outstanding reservations
   * if and only if every release was made on the day of its reservation.
   */
  lemma CountersOutstandingIffSameDay(tr: seq<Store>, n: nat)
    requires Run(tr) && n < |tr|
    requires forall i :: 0 <= i < |tr[n].holds| ==> tr[n].holds[i].amount > 0 && Settled(tr[n].holds[i])
    ensures (forall k :: Get(tr[n].counters, k) == Sum(tr[n].holds, Outstanding(k)))
            <==> forall i :: 0 <= i < |tr[n].holds| ==> SameDay(tr[n].holds[i])
  {
    hide HoldOk, SameDay, Settled, Run, Outstanding, Misreleased, Effect, Get, Sum;
    var s := tr[n];
    Reachable(tr, n);
    forall k
      ensures Get(s.counters, k) == Sum(s.holds, Outstanding(k)) <==> forall i :: 0 <= i < |s.holds| ==> Misreleased(k)(s.holds[i]) == 0
    {
      CounterIsOutstandingLessMisreleased(tr, n, k);
      MisreleasedTotal(s.holds, k);
    }
    forall i | 0 <= i < |s.holds| ensures SameDay(s.holds[i]) <==> forall k :: Misreleased(k)(s.holds[i]) == 0 {
      NothingMisreleasedIffSameDay(s.holds[i]);
    }
  }

  lemma OneMove(s: Store, m: Move)
    requires CanMove(s, m)
    ensures Steps(s, Moved(s, m))
  {
    hide CanMove, Moved;
  }

  lemma RunOn(tr: seq<Store>, m: Move)
    requires Run(tr) && CanMove(tr[|tr| - 1], m)
    ensures Run(tr + [Moved(tr[|tr| - 1], m)])
  {
    hide Steps, CanMove, Moved;
    OneMove(tr[|tr| - 1], m);
  }

  /** One reservation, alone, made at time t and released at time u. */
  lemma AloneRun(tenant: nat, keyId: string, amount: int, t: Instant, u: Instant) returns (tr: seq<Store>)
    requires amount != 0
    ensures Run(tr) && tr != []
    ensures var ks, ls := ReservationKeys(tenant, keyId, t), ReservationKeys(tenant, keyId, u);
            tr[|tr| - 1].holds == [Reservation(tenant, keyId, amount, t, ks, |ks|, true, u, ls, |ls|)]
  {
    hide Run, ReservationKeys;
    var ks, ls := ReservationKeys(tenant, keyId, t), ReservationKeys(tenant, keyId, u);
    tr := [EMPTY, Moved(EMPTY, Begin(tenant, keyId, amount, t))];
    assert Run(tr) by { Started(Begin(tenant, keyId, amount, t)); }
    var r := 0;
    while r < |ks|
      invariant Run(tr) && tr != [] && r <= |ks|
      invariant tr[|tr| - 1].holds == [Reservation(tenant, keyId, amount, t, ks, r, false, t, [], 0)]
    {
      RunOn(tr, Raise(0));
      tr, r := tr + [Moved(tr[|tr| - 1], Raise(0))], r + 1;
    }
    RunOn(tr, BeginRelease(0, u));
    tr := tr + [Moved(tr[|tr| - 1], BeginRelease(0, u))];
    r := 0;
    while r < |ls|
      invariant Run(tr) && tr != [] && r <= |ls|
      invariant tr[|tr| - 1].holds == [Reservation(tenant, keyId, amount, t, ks, |ks|, true, u, ls, r)]
    {
      RunOn(tr, Lower(0));
      tr, r := tr + [Moved(tr[|tr| - 1], Lower(0))], r + 1;
    }
  }

  lemma Started(m: Move)
    requires CanMove(EMPTY, m)
    ensures Run([EMPTY, Moved(EMPTY, m)])
  {
    hide Moved;
    assert Run([EMPTY]);
    RunOn([EMPTY], m);
    assert [EMPTY] + [Moved(EMPTY, m)] == [EMPTY, Moved(EMPTY, m)];
  }

  /**
   * For any reservation released on another day there is a run that ends with everything released,
   * the counter of the day of the release below zero and that of the day of the reservation above.
   */
  lemma OvernightRun(tenant: nat, keyId: string, amount: int, t: Instant, u: Instant) returns (tr: seq<Store>)
    requires amount > 0 && DayIndex(t) != DayIndex(u)
    ensures Run(tr)
    ensures var s := tr[|tr| - 1];
            && (forall i :: 0 <= i < |s.holds| ==> s.holds[i].releasing && Settled(s.holds[i]))
            && Get(s.counters, AccountReserved(tenant, BucketOf(Daily, u))) == -amount
            && Get(s.counters, AccountReserved(tenant, BucketOf(Daily, t))) == amount
  {
    hide Run, ReservationKeys, BucketOf, Raised, Lowered;
    tr := AloneRun(tenant, keyId, amount, t, u);
    var s := tr[|tr| - 1];
    assert Inv(s) by { Reachable(tr, |tr| - 1); }
    var h := s.holds[0];
    assert HoldOk(h);
    OvernightReleaseMisbooks(h);
    forall k ensures Get(s.counters, k) == Effect(k)(h) { SumPrepend(h, [], Effect(k)); assert [h] + [] == [h]; }
  }

  // ---------------------------------------------------------------- the two calls on their own

  class ReservationCounters {
    var counters: map<BudgetKey, int>

    constructor ()
      ensures counters == map[]
    {
      counters := map[];
    }

    /** ReserveSpend after pricing: a zero amount reserves nothing. */
    method Reserve(tenant: nat, keyId: string, amount: int, now: Instant)
      modifies this
      ensures forall k :: Get(counters, k) == Get(old(counters), k) + (if k in ReservationKeys(tenant, keyId, now) then amount else 0)
    {
      if amount == 0 {
        return;
      }
      AddToAll(tenant, keyId, amount, now);
    }

    method Release(tenant: nat, keyId: string, amount: int, now: Instant)
      modifies this
      ensures forall k :: Get(counters, k) == Get(old(counters), k) - (if k in ReservationKeys(tenant, keyId, now) then amount else 0)
    {
      if amount == 0 {
        return;
      }
      AddToAll(tenant, keyId, -amount, now);
    }

    /** The pipeline of both calls. */
    method AddToAll(tenant: nat, keyId: string, delta: int, now: Instant)
      modifies this
      ensures forall k :: Get(counters, k) == Get(old(counters), k) + (if k in ReservationKeys(tenant, keyId, now) then delta else 0)
    {
      hide PairFor;
      var periods := [Monthly, Weekly, Daily];
      for i := 0 to 3
        invariant forall k :: Get(counters, k) == Get(old(counters), k) + (if k in KeysOfFirst(tenant, keyId, now, i) then delta else 0)
      {
        KeysOfNext(tenant, keyId, now, i);
        AddPair(tenant, keyId, delta, BucketOf(periods[i], now));
      }
    }

    method AddPair(tenant: nat, keyId: string, delta: int, b: Bucket)
      modifies this
      ensures forall k :: Get(counters, k) == Get(old(counters), k) + (if k in PairFor(tenant, keyId, b) then delta else 0)
    {
      counters := IncrBy(counters, AccountReserved(tenant, b), delta);
      if keyId != "" {
        counters := IncrBy(counters, KeyReserved(keyId, b), delta);
      }
    }
  }

  /** The counters of the first n periods of a pipeline. */
  function KeysOfFirst(tenant: nat, keyId: string, t: Instant, n: nat): seq<BudgetKey> {
    if n == 0 then []
    else if n == 1 then PairFor(tenant, keyId, BucketOf(Monthly, t))
    else if n == 2 then PairFor(tenant, keyId, BucketOf(Monthly, t)) + PairFor(tenant, keyId, BucketOf(Weekly, t))
    else ReservationKeys(tenant, keyId, t)
  }

  /** Each period adds two counters that no earlier period has. */
  lemma KeysOfNext(tenant: nat, keyId: string, t: Instant, i: nat)
    requires i < 3
    ensures var next := PairFor(tenant, keyId, BucketOf([Monthly, Weekly, Daily][i], t));
            && (forall k :: k in KeysOfFirst(tenant, keyId, t, i + 1) <==> k in KeysOfFirst(tenant, keyId, t, i) || k in next)
            && (forall k :: k in next ==> k !in KeysOfFirst(tenant, keyId, t, i))
  {
    hide CivilDate, IsoYear, IsoWeek;
    assert forall p, k :: k in PairFor(tenant, keyId, BucketOf(p, t)) ==> k.bucket == BucketOf(p, t);
  }
}
