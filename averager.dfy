/** The windowed rate averager of monitor/averager.go: a ring of optional
    per-quantum hit counters with a cursor on the slot being filled. */
module Averager {
  import opened Common

  /** One ring slot: None has seen no data point, Some(n) has seen n hits. */
  type Slot = Option<nat>

  /** The hits a slot contributes to a sum. */
  function Hits(s: Slot): nat {
    s.GetOr(0)
  }

  /** The data points a slot contributes to a count. */
  function Populated(s: Slot): nat {
    if s.Some? then 1 else 0
  }

  /** The number of ring slots the constructor allocates for a window and a
      quantum (both in nanoseconds), or None where it panics. Only the
      package constant time.Second is ever passed as the quantum. */
  function RingLength(window: int, quantum: int): (r: Option<nat>)
    requires quantum > 0
    ensures r.None? <==> window < quantum
    ensures r.Some? ==> 2 <= r.value && (r.value - 1) * quantum <= window < r.value * quantum
  {
    if window < quantum then None
    else
      var q := window / quantum;
      assert q * quantum + window % quantum == window;
      Some(q + 1)
  }

  /** Sum of the hits in the populated slots of s other than slot cur. */
  function PastSum(s: seq<Slot>, cur: int): nat {
    if s == [] then 0
    else PastSum(s[..|s| - 1], cur) + (if |s| - 1 == cur then 0 else Hits(s[|s| - 1]))
  }

  /** Number of populated slots of s other than slot cur. */
  function PastCount(s: seq<Slot>, cur: int): nat {
    if s == [] then 0
    else PastCount(s[..|s| - 1], cur) + (if |s| - 1 == cur then 0 else Populated(s[|s| - 1]))
  }

  /** Sum of the hits in every slot of s. */
  function TotalSum(s: seq<Slot>): nat {
    if s == [] then 0 else TotalSum(s[..|s| - 1]) + Hits(s[|s| - 1])
  }

  /** Number of populated slots of s. */
  function TotalCount(s: seq<Slot>): nat {
    if s == [] then 0 else TotalCount(s[..|s| - 1]) + Populated(s[|s| - 1])
  }

  /** A duration in nanoseconds as (real) seconds, as time.Duration.Seconds does. */
  function Seconds(d: int): real {
    d as real / Second as real
  }

  /** Hits per second for a sum of hits over a count of quanta; None stands
      for Go's NaN when the count is 0 (0 / 0). */
  function Rate(sum: nat, count: nat, quantum: int): Option<real>
    requires quantum > 0
  {
    if count == 0 then None
    else Some(sum as real / (count as real * Seconds(quantum)))
  }

  /** The hit rate per second over the slots other than cur. */
  function AverageOf(s: seq<Slot>, cur: int, quantum: int): Option<real>
    requires quantum > 0
  {
    Rate(PastSum(s, cur), PastCount(s, cur), quantum)
  }

  /** The slot just behind the cursor, wrapping from the first slot to the last. */
  function Behind(cur: nat, n: nat): (j: nat)
    requires cur < n
    ensures j < n
  {
    if cur == 0 then n - 1 else cur - 1
  }

  /** The cursor after a tick: one step forward, wrapping to the first slot. */
  function Next(cur: nat, n: nat): (j: nat)
    requires cur < n
    ensures j < n
  {
    if cur == n - 1 then 0 else cur + 1
  }

  /** Behind and Next are the ring's modular predecessor and successor. */
  lemma RingSteps(cur: nat, n: nat)
    requires cur < n
    ensures Behind(cur, n) == ((cur - 1) + n) % n
    ensures Next(cur, n) == (cur + 1) % n
  {
    ReduceOnce(cur - 1 + n, n);
    ReduceOnce(cur + 1, n);
  }

  /** x mod n for 0 <= x < 2n: at most one n is taken off. */
  lemma ReduceOnce(x: int, n: int)
    requires 0 < n && 0 <= x < 2 * n
    ensures x % n == if x < n then x else x - n
  {
    if x < n {
      assert x == 0 * n + x;
    } else {
      assert x == 1 * n + (x - n);
    }
  }

  /** The count in the slot behind the cursor, 0 when it is empty. */
  function LatestOf(s: seq<Slot>, cur: nat): nat
    requires cur < |s|
  {
    Hits(s[Behind(cur, |s|)])
  }

  lemma {:induction false} PastBeyondIsTotal(s: seq<Slot>, cur: int)
    requires cur < 0 || |s| <= cur
    ensures PastSum(s, cur) == TotalSum(s) && PastCount(s, cur) == TotalCount(s)
  {
    if s != [] {
      PastBeyondIsTotal(s[..|s| - 1], cur);
    }
  }

  /** The average's sum and count are the ring totals less the current slot. */
  lemma {:induction false} PastPlusCurrent(s: seq<Slot>, cur: int)
    requires 0 <= cur < |s|
    ensures PastSum(s, cur) + Hits(s[cur]) == TotalSum(s)
    ensures PastCount(s, cur) + Populated(s[cur]) == TotalCount(s)
  {
    var init := s[..|s| - 1];
    if cur == |s| - 1 {
      PastBeyondIsTotal(init, cur);
    } else {
      PastPlusCurrent(init, cur);
    }
  }

  /** Replacing one slot changes the totals by the difference of the two slots. */
  lemma {:induction false} TotalsOfUpdate(s: seq<Slot>, j: int, x: Slot)
    requires 0 <= j < |s|
    ensures TotalSum(s[j := x]) + Hits(s[j]) == TotalSum(s) + Hits(x)
    ensures TotalCount(s[j := x]) + Populated(s[j]) == TotalCount(s) + Populated(x)
  {
    var init := s[..|s| - 1];
    var t := s[j := x];
    if j == |s| - 1 {
      assert t[..|t| - 1] == init;
    } else {
      assert t[..|t| - 1] == init[j := x];
      TotalsOfUpdate(init, j, x);
    }
  }

  /** An ingested hit touches only the current slot, so it never changes the
      average until the next tick. */
  lemma IngestKeepsAverage(s: seq<Slot>, cur: int, x: Slot, quantum: int)
    requires 0 <= cur < |s| && quantum > 0
    ensures PastSum(s[cur := x], cur) == PastSum(s, cur)
    ensures PastCount(s[cur := x], cur) == PastCount(s, cur)
    ensures AverageOf(s[cur := x], cur, quantum) == AverageOf(s, cur, quantum)
  {
    PastPlusCurrent(s, cur);
    PastPlusCurrent(s[cur := x], cur);
    TotalsOfUpdate(s, cur, x);
    SamePastSameAverage(s[cur := x], s, cur, quantum);
  }

  /** The average depends on the ring only through the past sum and count. */
  lemma SamePastSameAverage(s: seq<Slot>, t: seq<Slot>, cur: int, quantum: int)
    requires quantum > 0
    requires PastSum(s, cur) == PastSum(t, cur) && PastCount(s, cur) == PastCount(t, cur)
    ensures AverageOf(s, cur, quantum) == AverageOf(t, cur, quantum)
  {
  }

  /** On a tick the slot that was current joins the average and the slot the
      cursor moves onto (the oldest one) leaves it. */
  lemma TickShiftsWindow(s: seq<Slot>, cur: nat)
    requires 2 <= |s| && cur < |s|
    ensures var next := Next(cur, |s|);
      && PastSum(s[next := Some(0)], next) + Hits(s[next]) == PastSum(s, cur) + Hits(s[cur])
      && PastCount(s[next := Some(0)], next) + Populated(s[next]) == PastCount(s, cur) + Populated(s[cur])
  {
    var next := Next(cur, |s|);
    PastPlusCurrent(s, cur);
    PastPlusCurrent(s[next := Some(0)], next);
    TotalsOfUpdate(s, next, Some(0));
  }

  /** After a tick, the latest count is what the previously current slot held. */
  lemma TickThenLatest(s: seq<Slot>, cur: nat)
    requires 2 <= |s| && cur < |s|
    ensures LatestOf(s[Next(cur, |s|) := Some(0)], Next(cur, |s|)) == Hits(s[cur])
  {
  }

  /** The average is undefined (NaN in Go) exactly when no slot other than the
      current one has a data point. */
  lemma {:induction false} AverageUndefinedIff(s: seq<Slot>, cur: int, quantum: int)
    requires quantum > 0
    ensures AverageOf(s, cur, quantum).None? <==> forall j :: 0 <= j < |s| && j != cur ==> s[j].None?
  {
    if s != [] {
      var init := s[..|s| - 1];
      AverageUndefinedIff(init, cur, quantum);
      assert forall j :: 0 <= j < |init| ==> init[j] == s[j];
    }
  }

  /** Once every slot but the current one is populated, the count is the
      number of quanta in the window. */
  lemma {:induction false} FullRingCount(s: seq<Slot>, cur: int)
    requires 0 <= cur < |s|
    requires forall j :: 0 <= j < |s| && j != cur ==> s[j].Some?
    ensures PastCount(s, cur) == |s| - 1
  {
    var init := s[..|s| - 1];
    if cur == |s| - 1 {
      PastBeyondIsTotal(init, cur);
      AllPopulatedCount(init);
    } else {
      FullRingCount(init, cur);
    }
  }

  lemma {:induction false} AllPopulatedCount(s: seq<Slot>)
    requires forall j :: 0 <= j < |s| ==> s[j].Some?
    ensures TotalCount(s) == |s|
  {
    if s != [] {
      AllPopulatedCount(s[..|s| - 1]);
    }
  }

  /** With the window fully observed, the average is the hits in the past
      window divided by the window's length in seconds (window / quantum
      quanta of quantum seconds each). */
  lemma FullWindowAverage(s: seq<Slot>, cur: int, window: int, quantum: int)
    requires quantum > 0 && RingLength(window, quantum) == Some(|s|)
    requires 0 <= cur < |s|
    requires forall j :: 0 <= j < |s| && j != cur ==> s[j].Some?
    ensures AverageOf(s, cur, quantum)
         == Some(PastSum(s, cur) as real / ((window / quantum) as real * Seconds(quantum)))
  {
    FullRingCount(s, cur);
  }

  /** The averager: ring slots, the quantum and window durations (nanoseconds)
      and the cursor on the current slot. The slice itself is never replaced,
      only its slots. */
  class WindowedAverager {
    const buckets: array<Slot>
    const quantum: int
    const window: int
    var idx: nat

    ghost predicate Valid()
      reads this
    {
      && quantum > 0
      && RingLength(window, quantum) == Some(buckets.Length)
      && idx < buckets.Length
    }

    /** newWindowedAverager; the panic for window < quantum is the
        precondition that RingLength is defined. */
    constructor (window: int, quantum: int)
      requires quantum > 0 && RingLength(window, quantum).Some?
      ensures Valid() && fresh(buckets)
      ensures this.window == window && this.quantum == quantum
      ensures buckets.Length == window / quantum + 1
      ensures idx == 0
      ensures forall j :: 0 <= j < buckets.Length ==> buckets[j].None?
    {
      this.window := window;
      this.quantum := quantum;
      buckets := new Slot[window / quantum + 1](_ => None);
      idx := 0;
    }

    /** One hit arriving at time `now` (the per-hit body of quantize): dropped
        when older than now - window, otherwise counted in the current slot. */
    method Ingest(hit: Time, now: Time)
      requires Valid()
      modifies buckets
      ensures Valid()
      ensures hit < now - window ==> buckets[..] == old(buckets[..])
      ensures now - window <= hit ==> buckets[..] == old(buckets[..])[idx := Some(Hits(old(buckets[idx])) + 1)]
    {
      if hit < now - window {
        return;
      }
      if buckets[idx].None? {
        buckets[idx] := Some(0);
      }
      buckets[idx] := Some(buckets[idx].value + 1);
    }

    /** One tick of the ticker: the cursor moves on and its new slot is reset
        to a populated zero. */
    method Tick()
      requires Valid()
      modifies this`idx, buckets
      ensures Valid()
      ensures idx == Next(old(idx), buckets.Length)
      ensures buckets[..] == old(buckets[..])[idx := Some(0)]
    {
      RingSteps(idx, buckets.Length);
      idx := (idx + 1) % buckets.Length;
      buckets[idx] := Some(0);
    }

    /** The average hit rate per second over the slots other than the current
        one; None is Go's NaN. */
    method Average() returns (avg: Option<real>)
      requires Valid()
      ensures avg == AverageOf(buckets[..], idx, quantum)
      ensures avg.None? <==> forall j :: 0 <= j < buckets.Length && j != idx ==> buckets[j].None?
    {
      var sum: nat := 0;
      var count: nat := 0;
      var i := 0;
      while i < buckets.Length
        invariant 0 <= i <= buckets.Length
        invariant sum == PastSum(buckets[..i], idx)
        invariant count == PastCount(buckets[..i], idx)
      {
        assert buckets[..i + 1][..i] == buckets[..i];
        if i != idx && buckets[i].Some? {
          sum := sum + buckets[i].value;
          count := count + 1;
        }
        i := i + 1;
      }
      assert buckets[..i] == buckets[..];
      avg := Rate(sum, count, quantum);
      AverageUndefinedIff(buckets[..], idx, quantum);
    }

    /** The hits of the most recently completed quantum: the slot behind the
        cursor, 0 when that slot has no data point. */
    method Latest() returns (hits: nat)
      requires Valid()
      ensures hits == LatestOf(buckets[..], idx)
      ensures buckets[Behind(idx, buckets.Length)].None? ==> hits == 0
    {
      RingSteps(idx, buckets.Length);
      var lastIdx := ((idx - 1) + buckets.Length) % buckets.Length;
      var latest := buckets[lastIdx];
      if latest.None? {
        return 0;
      }
      return latest.value;
    }
  }
}
