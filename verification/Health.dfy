/**
 * The health automaton of a deployment: every third failure in a row starts a cooldown that
 * doubles each time, in 64-bit nanosecond arithmetic.
 */
module Health {
  import opened Basics
  import opened Calendar

  const THRESHOLD := 3
  const BASE_COOLDOWN: int := 30_000_000_000
  const MAX_COOLDOWN: int := 300_000_000_000

  function Pow2(n: nat): (p: nat)
    ensures p >= 1
  {
    if n == 0 then 1 else 2 * Pow2(n - 1)
  }

  /** baseCooldownDur * (1 << (level-1)), capped: both the shift and the product wrap. */
  function CooldownLength(level: nat): int
    requires level >= 1
  {
    var dur := Int64(BASE_COOLDOWN * Int64(Pow2(level - 1)));
    if dur > MAX_COOLDOWN then MAX_COOLDOWN else dur
  }

  function Min(a: int, b: int): int { if a < b then a else b }

  /** The backoff the constants promise: 30s doubling per level, at most 5 minutes. */
  function IntendedLength(level: nat): int
    requires level >= 1
  {
    Min(BASE_COOLDOWN * Pow2(level - 1), MAX_COOLDOWN)
  }

  /** The schedule in seconds: half a minute, doubling, and five minutes from the fifth cooldown on. */
  lemma CooldownSchedule()
    ensures CooldownLength(1) == 30 * 1_000_000_000 && CooldownLength(2) == 60 * 1_000_000_000
    ensures CooldownLength(3) == 120 * 1_000_000_000 && CooldownLength(4) == 240 * 1_000_000_000
    ensures CooldownLength(5) == 300 * 1_000_000_000
  {
    assert Pow2(1) == 2 && Pow2(2) == 4 && Pow2(3) == 8 && Pow2(4) == 16;
  }

  datatype DeploymentHealth = DeploymentHealth(failCount: nat, lastFailure: Instant, cooldownUntil: Instant, level: nat)

  /** A record created by getOrCreate: all zero, with the zero time as cooldown end. */
  const FRESH := DeploymentHealth(0, 0, 0, 0)

  type Records = map<string, DeploymentHealth>

  function RecordFor(records: Records, id: string): DeploymentHealth {
    if id in records then records[id] else FRESH
  }

  function Failed(h: DeploymentHealth, now: Instant): DeploymentHealth {
    if h.failCount + 1 >= THRESHOLD
    then DeploymentHealth(0, now, now + CooldownLength(h.level + 1), h.level + 1)
    else h.(failCount := h.failCount + 1, lastFailure := now)
  }

  function Succeeded(h: DeploymentHealth): DeploymentHealth {
    h.(failCount := 0, level := 0, cooldownUntil := 0)
  }

  /** No record, or a clock strictly past the cooldown. */
  predicate Healthy(records: Records, id: string, now: Instant) {
    id !in records || now > records[id].cooldownUntil
  }

  /** The scan of EarliestCooldownExpiry from position i on; the empty id stands for "none yet". */
  function EarliestFrom(records: Records, ids: seq<string>, i: nat, best: string): string
    requires i <= |ids| && (best == "" || best in records)
    decreases |ids| - i
  {
    if i == |ids| then best
    else if ids[i] !in records then ids[i]
    else EarliestFrom(records, ids, i + 1,
                      if best == "" || records[ids[i]].cooldownUntil < records[best].cooldownUntil then ids[i] else best)
  }

  class HealthTracker {
    var health: Records

    constructor ()
      ensures health == map[]
    {
      health := map[];
    }

    method RecordFailure(id: string, now: Instant)
      modifies this
      ensures health == old(health)[id := Failed(RecordFor(old(health), id), now)]
    {
      var h := RecordFor(health, id);
      h := h.(failCount := h.failCount + 1, lastFailure := now);
      if h.failCount >= THRESHOLD {
        h := h.(level := h.level + 1);
        var dur := Int64(BASE_COOLDOWN * Int64(Pow2(h.level - 1)));
        if dur > MAX_COOLDOWN {
          dur := MAX_COOLDOWN;
        }
        h := h.(cooldownUntil := now + dur, failCount := 0);
      }
      health := health[id := h];
    }

    method RecordSuccess(id: string)
      modifies this
      ensures health == old(health)[id := Succeeded(RecordFor(old(health), id))]
    {
      var h := RecordFor(health, id);
      health := health[id := h.(failCount := 0, level := 0, cooldownUntil := 0)];
    }

    /**
     * The first id without a record, else an id whose cooldown ends first. The empty id doubles as
     * "none yet", so the minimum is only promised without it.
     */
    method EarliestCooldownExpiry(ids: seq<string>) returns (earliest: string)
      ensures earliest == EarliestFrom(health, ids, 0, "")
      ensures ids == [] ==> earliest == ""
      ensures ids != [] ==> earliest in ids
      ensures (exists i :: 0 <= i < |ids| && ids[i] !in health) ==>
                exists i :: 0 <= i < |ids| && earliest == ids[i] && ids[i] !in health && forall j :: 0 <= j < i ==> ids[j] in health
      ensures (forall i :: 0 <= i < |ids| ==> ids[i] in health) && ids != [] ==> earliest in health
      ensures (forall i :: 0 <= i < |ids| ==> ids[i] in health) && "" !in ids ==>
                forall i :: 0 <= i < |ids| ==> earliest in health && health[earliest].cooldownUntil <= health[ids[i]].cooldownUntil
    {
      earliest := "";
      var earliestTime: Instant := 0;
      for i := 0 to |ids|
        invariant i == 0 ==> earliest == ""
        invariant i > 0 ==> earliest in ids && earliest in health && earliestTime == health[earliest].cooldownUntil
        invariant forall j :: 0 <= j < i ==> ids[j] in health
        invariant EarliestFrom(health, ids, i, earliest) == EarliestFrom(health, ids, 0, "")
        invariant "" !in ids ==> forall j :: 0 <= j < i ==> earliestTime <= health[ids[j]].cooldownUntil
      {
        var id := ids[i];
        if id !in health {
          return id;
        }
        var cu := health[id].cooldownUntil;
        if earliest == "" || cu < earliestTime {
          earliest, earliestTime := id, cu;
        }
      }
    }
  }

  // ---------------------------------------------------------------- traces

  datatype Report = Failure(id: string, at: Instant) | Success(id: string)

  function Apply(records: Records, r: Report): Records {
    match r
    case Failure(id, at) => records[id := Failed(RecordFor(records, id), at)]
    case Success(id) => records[id := Succeeded(RecordFor(records, id))]
  }

  /** The records after a trace of reports about any deployments. */
  function After(trace: seq<Report>): Records {
    if trace == [] then map[] else Apply(After(trace[..|trace| - 1]), trace[|trace| - 1])
  }

  /** The times of a deployment's failures since its last success. */
  function Streak(trace: seq<Report>, id: string): seq<Instant> {
    if trace == [] then []
    else
      var r := trace[|trace| - 1];
      var earlier := Streak(trace[..|trace| - 1], id);
      if r.id != id then earlier else if r.Success? then [] else earlier + [r.at]
  }

  /** Where n failures in a row leave a deployment, whatever happened to the others meanwhile. */
  ghost predicate StreakState(h: DeploymentHealth, fails: seq<Instant>) {
    var n := |fails|;
    && h.failCount == n % 3
    && h.level == n / 3
    && (n < 3 ==> h.cooldownUntil == 0)
    && (n >= 3 ==> h.cooldownUntil == fails[n / 3 * 3 - 1] + CooldownLength(n / 3))
  }

  /** Fail count, backoff level and cooldown end are functions of the failure streak alone. */
  lemma {:induction false} TraceState(trace: seq<Report>, id: string)
    ensures StreakState(RecordFor(After(trace), id), Streak(trace, id))
  {
    hide CooldownLength;
    if trace != [] {
      TraceState(trace[..|trace| - 1], id);
      var fails := Streak(trace[..|trace| - 1], id);
      var n := |fails|;
      if n % 3 == 2 {
        assert (n + 1) / 3 == n / 3 + 1 && (n + 1) / 3 * 3 - 1 == n;
      } else {
        assert (n + 1) / 3 == n / 3;
      }
    }
  }

  lemma {:induction false} Pow2Monotone(a: nat, b: nat)
    requires a <= b
    ensures Pow2(a) <= Pow2(b)
    decreases b
  {
    if a < b { Pow2Monotone(a, b - 1); }
  }

  lemma {:induction false} Pow2Add(a: nat, b: nat)
    ensures Pow2(a + b) == Pow2(a) * Pow2(b)
    decreases b
  {
    if b > 0 {
      Pow2Add(a, b - 1);
      assert Pow2(a + b) == 2 * Pow2(a + b - 1);
      assert 2 * (Pow2(a) * Pow2(b - 1)) == Pow2(a) * (2 * Pow2(b - 1));
    }
  }

  lemma Pow2Values()
    ensures Pow2(8) == 256 && Pow2(16) == 0x1_0000 && Pow2(28) == 0x1000_0000 && Pow2(29) == 0x2000_0000
    ensures Pow2(10) == 1024 && Pow2(24) == 0x100_0000 && Pow2(39) == 0x80_0000_0000
    ensures Pow2(54) == 0x40_0000_0000_0000 && Pow2(63) == TWO_63 && Pow2(64) == TWO_64
  {
    assert Pow2(4) == 16;
    Pow2Add(4, 4);
    Pow2Add(8, 8);
    Pow2Add(16, 8);
    Pow2Add(24, 4);
    Pow2Add(28, 1);
    Pow2Add(24, 24);
    Pow2Add(48, 4);
    Pow2Add(52, 2);
    Pow2Add(54, 8);
    Pow2Add(62, 1);
    Pow2Add(62, 2);
    Pow2Add(8, 2);
    Pow2Add(28, 11);
    Pow2Add(10, 1);
  }

  /** Up to level 29 the machine arithmetic gives the intended backoff. */
  lemma BackoffAsIntended(level: nat)
    requires 1 <= level <= 29
    ensures CooldownLength(level) == IntendedLength(level)
  {
    hide Pow2, Int64;
    Pow2Values();
    Pow2Monotone(level - 1, 28);
    Int64Small(Pow2(level - 1));
    Int64Small(BASE_COOLDOWN * Pow2(level - 1));
  }

  /** 30s in nanoseconds is this odd number times 2^10. */
  const ODD_PART: int := 29_296_875

  /**
   * The levels whose cooldown survives 64-bit arithmetic: up to 29, and later those for which
   * the bit of the product that lands on the sign is clear (32, 39 to 42, 44 to 46, 50 and 52).
   */
  predicate Survives(level: nat) {
    level <= 29 || (level <= 54 && ODD_PART / Pow2(54 - level) % 2 == 0)
  }

  /** The factor of the odd part at levels 30 to 54, and its distance from the sign bit. */
  lemma Factors(level: nat)
    requires 30 <= level <= 54
    ensures Pow2(54 - level) * Pow2(level + 9) == TWO_63
    ensures BASE_COOLDOWN * Pow2(level - 1) == ODD_PART * Pow2(level + 9)
    ensures Pow2(level + 9) >= 0x80_0000_0000 && Pow2(level - 1) < TWO_63
    ensures level < 54 ==> Pow2(54 - level) == 2 * Pow2(53 - level)
  {
    Pow2Values();
    hide Pow2;
    Pow2Add(54 - level, level + 9);
    Pow2Add(level - 1, 10);
    Pow2Monotone(39, level + 9);
    Pow2Monotone(level - 1, 54);
    if level < 54 { Pow2Double(53 - level); }
  }

  lemma Pow2Double(n: nat)
    ensures Pow2(n + 1) == 2 * Pow2(n)
  {}

  /** The product at levels 30 to 54, split at the sign bit. */
  lemma SplitAtSign(level: nat) returns (high: int, low: int)
    requires 30 <= level <= 54
    ensures BASE_COOLDOWN * Pow2(level - 1) == high * TWO_63 + low && high == ODD_PART / Pow2(54 - level)
    ensures low == 0 || MAX_COOLDOWN < low < TWO_63
    ensures low == 0 ==> high % 2 == 1
  {
    hide Pow2;
    Factors(level);
    var q, u := Pow2(54 - level), Pow2(level + 9);
    high := ODD_PART / q;
    var r := ODD_PART % q;
    low := r * u;
    Regroup(ODD_PART, q, u, high, r);
    LowPart(r, q, u);
    if level < 54 {
      OddRemainder(ODD_PART, Pow2(53 - level));
    } else {
      assert Pow2(0) == 1 by { Pow2Zero(); }
      assert high == ODD_PART;
    }
  }

  lemma Pow2Zero()
    ensures Pow2(0) == 1
  {}

  lemma Regroup(x: int, q: int, u: int, a: int, r: int)
    requires x == a * q + r
    ensures x * u == a * (q * u) + r * u
  {
    assert (a * q + r) * u == (a * q) * u + r * u;
  }

  lemma LowPart(r: int, q: int, u: int)
    requires 0 <= r < q && q * u == TWO_63 && u >= 0x80_0000_0000
    ensures r == 0 || MAX_COOLDOWN < r * u < TWO_63
  {
    if r > 0 {
      assert r * u >= u;
      assert r * u <= (q - 1) * u == q * u - u;
    }
  }

  lemma OddRemainder(x: int, h: int)
    requires x % 2 == 1 && h > 0
    ensures x % (2 * h) != 0
  {
    var a := x / (2 * h);
    assert x == 2 * (h * a) + x % (2 * h);
  }

  /** Between overflow and vanishing: the intended cap if the sign bit stays clear, else negative. */
  lemma BackoffPastOverflow(level: nat)
    requires 30 <= level <= 54
    ensures CooldownLength(level) == MAX_COOLDOWN <==> Survives(level)
    ensures CooldownLength(level) < 0 <==> !Survives(level)
  {
    hide Pow2;
    var high, low := SplitAtSign(level);
    Factors(level);
    Int64Small(Pow2(level - 1));
    var x := BASE_COOLDOWN * Pow2(level - 1);
    if high % 2 == 0 {
      assert x == (high / 2) * TWO_64 + low;
      QuotientUnique(x, TWO_64, high / 2, low);
    } else {
      assert x == (high / 2) * TWO_64 + (TWO_63 + low);
      QuotientUnique(x, TWO_64, high / 2, TWO_63 + low);
    }
  }

  /** The machine gives the intended backoff at exactly the surviving levels. */
  lemma BackoffIntendedIff(level: nat)
    requires level >= 1
    ensures CooldownLength(level) == IntendedLength(level) <==> Survives(level)
  {
    hide CooldownLength, Pow2;
    if level <= 29 {
      BackoffAsIntended(level);
    } else {
      Pow2Values();
      Pow2Monotone(28, level - 1);
      assert IntendedLength(level) == MAX_COOLDOWN;
      if level <= 54 { BackoffPastOverflow(level); } else { BackoffVanishes(level); }
    }
  }

  /** At level 30 the product overflows: the cooldown ends before it starts. */
  lemma BackoffOverflowsAtLevel30()
    ensures !Survives(30) && CooldownLength(30) < 0
  {
    hide Pow2, CooldownLength;
    Pow2Values();
    assert ODD_PART / 0x100_0000 % 2 == 1;
    BackoffPastOverflow(30);
  }

  /** From level 55 on every significant bit is shifted out and there is no cooldown at all. */
  lemma BackoffVanishes(level: nat)
    requires level >= 55
    ensures CooldownLength(level) == 0
  {
    hide Pow2;
    var j := level - 55;
    Pow2Values();
    Pow2Add(54, j);
    var p, s := Pow2(level - 1), Int64(Pow2(level - 1));
    var k := p / TWO_64 + (if p % TWO_64 >= TWO_63 then 1 else 0);
    assert s == p - k * TWO_64;
    assert BASE_COOLDOWN * Pow2(54) == 29_296_875 * TWO_64;
    assert BASE_COOLDOWN * p == BASE_COOLDOWN * (Pow2(54) * Pow2(j)) == (BASE_COOLDOWN * Pow2(54)) * Pow2(j);
    var m := 29_296_875 * Pow2(j) - BASE_COOLDOWN * k;
    assert (29_296_875 * TWO_64) * Pow2(j) == (29_296_875 * Pow2(j)) * TWO_64;
    assert BASE_COOLDOWN * s == BASE_COOLDOWN * p - BASE_COOLDOWN * (k * TWO_64);
    assert BASE_COOLDOWN * s == m * TWO_64;
    QuotientUnique(BASE_COOLDOWN * s, TWO_64, m, 0);
  }

  /**
   * After n failures in a row the cooldown runs from the last third failure for
   * min(30s * 2^(n/3 - 1), 5min) exactly when level n/3 survives the arithmetic: always below 90
   * failures, not at 90, and never again from 165 on.
   */
  lemma CooldownAfterStreak(trace: seq<Report>, id: string)
    requires |Streak(trace, id)| >= 3
    ensures var fails := Streak(trace, id);
            var n := |fails|;
            var start := fails[n / 3 * 3 - 1];
            var h := RecordFor(After(trace), id);
            && (h.cooldownUntil == start + IntendedLength(n / 3) <==> Survives(n / 3))
            && (n < 90 ==> Survives(n / 3))
            && (n == 90 ==> h.cooldownUntil < start)
            && (n >= 165 ==> h.cooldownUntil == start && !Survives(n / 3))
  {
    hide CooldownLength, IntendedLength;
    TraceState(trace, id);
    var n := |Streak(trace, id)|;
    BackoffIntendedIff(n / 3);
    BackoffOverflowsAtLevel30();
    if n >= 165 { BackoffVanishes(n / 3); }
  }
}
