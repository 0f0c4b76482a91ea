/** Sliding latency windows: a ring buffer of the last hundred samples per deployment. */
module Latency {
  import opened Sums

  const WINDOW := 100

  ghost function Same(): int -> int {
    (x: int) => x
  }

  ghost function Total(xs: seq<int>): int {
    Sum(xs, Same())
  }

  /** Integer division as the source language does it: towards zero. */
  function Quotient(a: int, b: int): int
    requires b > 0
  {
    if a >= 0 then a / b else -((-a) / b)
  }

  /** The samples a window of 100 remembers. */
  function Recent(history: seq<int>): seq<int> {
    if |history| <= WINDOW then history else history[|history| - WINDOW..]
  }

  /** The remembered samples are the latest hundred, or all if there are fewer. */
  lemma RecentAreLatest(history: seq<int>)
    ensures |Recent(history)| <= 100 && (|history| <= 100 ==> Recent(history) == history) && (|history| > 100 ==> |Recent(history)| == 100)
    ensures exists older :: history == older + Recent(history)
  {
    assert history == history[..|history| - |Recent(history)|] + Recent(history);
  }

  ghost function Mean(xs: seq<int>): int {
    if xs == [] then 0 else Quotient(Total(xs), |xs|)
  }

  /** The mean of durations is their total divided by their number, rounded down. */
  lemma MeanRoundsDown(xs: seq<int>)
    requires xs != [] && Total(xs) >= 0
    ensures |xs| * Mean(xs) <= Total(xs) < |xs| * (Mean(xs) + 1)
  {
    var t, n := Total(xs), |xs|;
    assert t == n * (t / n) + t % n;
  }

  /** Read from `pos` round to `pos`, a full ring is exactly the recent history. */
  ghost predicate RingHolds(ring: seq<int>, pos: nat, full: bool, history: seq<int>)
    requires |ring| == WINDOW && pos < WINDOW
  {
    && (full ==> |history| >= WINDOW && ring[pos..] + ring[..pos] == history[|history| - WINDOW..])
    && (!full ==> |history| == pos && ring[..pos] == history)
  }

  /** Overwriting the oldest sample and moving on keeps the ring in step with the history. */
  lemma RingStep(ring: seq<int>, pos: nat, full: bool, history: seq<int>, d: int)
    requires |ring| == WINDOW && pos < WINDOW && RingHolds(ring, pos, full, history)
    ensures var q := (pos + 1) % WINDOW;
            RingHolds(ring[pos := d], q, full || q == 0, history + [d])
  {
    Rotated(ring, pos, d);
    if full {
      var n := |history|;
      assert (history + [d])[n + 1 - WINDOW..] == history[n - WINDOW..][1..] + [d];
    } else if pos + 1 == WINDOW {
      assert ring[pos := d][0..] + ring[pos := d][..0] == ring[..pos] + [d];
      assert (history + [d])[0..] == history + [d];
    }
  }

  /** A ring that holds a history holds its recent samples, as a multiset. */
  lemma RecentSamples(ring: seq<int>, pos: nat, full: bool, history: seq<int>)
    requires |ring| == WINDOW && pos < WINDOW && RingHolds(ring, pos, full, history)
    ensures multiset(ring[..if full then WINDOW else pos]) == multiset(Recent(history))
  {
    if full {
      assert ring[..WINDOW] == ring[..pos] + ring[pos..];
      assert Recent(history) == history[|history| - WINDOW..];
    }
  }

  class LatencyWindow {
    const durations: array<int>
    var pos: nat
    var full: bool
    ghost var history: seq<int>

    ghost predicate Valid()
      reads this, durations
    {
      durations.Length == WINDOW && pos < WINDOW && RingHolds(durations[..], pos, full, history)
    }

    constructor ()
      ensures Valid() && history == [] && fresh(durations)
    {
      durations := new int[WINDOW];
      pos, full, history := 0, false, [];
      new;
    }

    method Record(d: int)
      requires Valid()
      modifies this, durations
      ensures Valid() && history == old(history) + [d]
    {
      hide RingHolds;
      RingStep(durations[..], pos, full, history, d);
      assert old(durations[..])[..] == durations[..];
      durations[pos] := d;
      assert durations[..] == old(durations[..])[pos := d];
      pos := (pos + 1) % WINDOW;
      if pos == 0 {
        full := true;
      }
      history := history + [d];
    }

    /** The mean of the recent history, zero without samples. */
    method Average() returns (avg: int)
      requires Valid()
      ensures avg == Mean(Recent(history))
    {
      var count := if full then WINDOW else pos;
      if count == 0 {
        return 0;
      }
      var total := 0;
      for i := 0 to count
        invariant total == Total(durations[..i])
      {
        assert durations[..i + 1] == durations[..i] + [durations[i]];
        SumAppend(durations[..i], durations[i], Same());
        total := total + durations[i];
      }
      if full {
        assert durations[..count] == durations[..pos] + durations[pos..];
        SumConcat(durations[..pos], durations[pos..], Same());
        SumConcat(durations[pos..], durations[..pos], Same());
      }
      return Quotient(total, count);
    }

    method HasData() returns (has: bool)
      requires Valid()
      ensures has <==> history != []
    {
      return full || pos > 0;
    }
  }

  lemma Rotated(before: seq<int>, p: nat, d: int)
    requires |before| == WINDOW && p < WINDOW
    ensures var q := (p + 1) % WINDOW;
            before[p := d][q..] + before[p := d][..q] == (before[p..] + before[..p])[1..] + [d]
  {
    var after := before[p := d];
    if p + 1 == WINDOW {
      assert after[0..] + after[..0] == before[..p] + [d];
    } else {
      assert after[p + 1..] == before[p + 1..] && after[..p + 1] == before[..p] + [d];
      assert (before[p..] + before[..p])[1..] == before[p + 1..] + before[..p];
    }
  }

  class LatencyTracker {
    var windows: map<string, LatencyWindow>
    ghost var history: map<string, seq<int>>

    ghost predicate Valid()
      reads this, windows.Values, set w | w in windows.Values :: w.durations
    {
      && windows.Keys == history.Keys
      && (forall id :: id in windows ==> windows[id].Valid() && windows[id].history == history[id])
      && (forall i, j :: i in windows && j in windows && i != j ==>
            windows[i] != windows[j] && windows[i].durations != windows[j].durations)
    }

    constructor ()
      ensures Valid() && history == map[]
    {
      windows, history := map[], map[];
    }

    ghost function HistoryOf(id: string): seq<int>
      reads this
    {
      if id in history then history[id] else []
    }

    /** The deployment's window, created on first use. */
    method WindowFor(id: string) returns (w: LatencyWindow)
      requires Valid()
      modifies this
      ensures Valid() && id in windows && windows[id] == w && windows == old(windows)[id := w]
      ensures history == old(history)[id := old(HistoryOf(id))]
      ensures if id in old(windows) then w == old(windows[id]) else fresh(w) && fresh(w.durations)
    {
      hide RingHolds;
      if id in windows {
        return windows[id];
      }
      w := new LatencyWindow();
      assert forall i :: i in windows ==> windows[i].Valid() && windows[i] != w && windows[i].durations != w.durations;
      windows := windows[id := w];
      history := history[id := []];
    }

    method RecordIn(id: string, d: int)
      requires Valid() && id in windows
      modifies this`history, windows[id], windows[id].durations
      ensures Valid() && windows == old(windows) && history == old(history)[id := old(history[id]) + [d]]
    {
      hide RingHolds;
      windows[id].Record(d);
      assert windows[id].history == old(history[id]) + [d];
      history := history[id := windows[id].history];
      assert forall i :: i in windows && i != id ==> windows[i].Valid();
    }

    method Record(id: string, d: int)
      requires Valid()
      modifies this, windows.Values, set w | w in windows.Values :: w.durations
      ensures Valid() && history == old(history)[id := old(HistoryOf(id)) + [d]]
    {
      hide Valid;
      var w := WindowFor(id);
      assert id in old(windows) ==> w == old(windows)[id] && w in old(windows.Values);
      RecordIn(id, d);
    }

    method Average(id: string) returns (avg: int)
      requires Valid()
      ensures avg == Mean(Recent(HistoryOf(id)))
    {
      if id !in windows {
        return 0;
      }
      avg := windows[id].Average();
    }

    method HasData(id: string) returns (has: bool)
      requires Valid()
      ensures has <==> HistoryOf(id) != []
    {
      if id !in windows {
        return false;
      }
      has := windows[id].HasData();
    }
  }
}
