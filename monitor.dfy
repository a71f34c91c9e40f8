/** The alert state machine and the snapshot of monitor/monitor.go. One
    alert tick is a step over the `alerted` flag; the loop around it runs
    over the averages observed at successive ticks. */
module Monitoring {
  import opened Common
  import opened Averager
  import Collection
  import Report

  /** The granularity of time-series measurements: time.Second. */
  const Quantum: int := Second

  /** A traffic alert: a trigger (recovered false) or a recovery. */
  datatype Alert = Alert(recovered: bool, avgHits: real, time: Time)

  /** The options of a Monitor that the core reads. */
  datatype MonitorOpts = MonitorOpts(numTopSections: nat, alertWindow: int, alertThreshold: real)

  /** One alert tick: the new flag, the alert whose line is written to the
      output (if any), and the alert the hook accepted (if any). */
  datatype Step = Step(alerted: bool, written: Option<Alert>, delivered: Option<Alert>)

  /** What one tick of the alert loop sees: the average (None for NaN), the
      current time, and whether the hook can take an alert without blocking. */
  datatype Observation = Observation(avg: Option<real>, now: Time, hookReady: bool)

  /** The state after a run of ticks: the flag, every alert written, and every
      alert the hook accepted, oldest first. */
  datatype Run = Run(alerted: bool, output: seq<Alert>, hook: seq<Alert>)

  /** One tick of the alert loop. A trigger fires only from the normal state
      on an average above the threshold, a recovery only from the alerting
      state on an average at or below it; a NaN average fires nothing. The
      line is written and the flag flips whether or not the hook takes the
      alert. */
  function AlertStep(alerted: bool, avg: Option<real>, threshold: real, now: Time, hookReady: bool): (r: Step)
    ensures r.written.Some? <==> avg.Some? && (if alerted then avg.value <= threshold else avg.value > threshold)
    ensures r.alerted == (alerted != r.written.Some?)
    ensures r.written.Some? ==> r.written.value.recovered == alerted
    ensures r.written.Some? ==> r.written.value.avgHits == avg.value && r.written.value.time == now
    ensures r.delivered == (if hookReady then r.written else None)
  {
    match avg
    case None => Step(alerted, None, None)
    case Some(a) =>
      if a > threshold && !alerted then
        var alert := Alert(recovered := false, avgHits := a, time := now);
        Step(true, Some(alert), if hookReady then Some(alert) else None)
      else if a <= threshold && alerted then
        var alert := Alert(recovered := true, avgHits := a, time := now);
        Step(false, Some(alert), if hookReady then Some(alert) else None)
      else
        Step(alerted, None, None)
  }

  function Emitted(a: Option<Alert>): seq<Alert> {
    if a.Some? then [a.value] else []
  }

  /** The state after one more tick. */
  function Advance(prev: Run, o: Observation, threshold: real): Run {
    var step := AlertStep(prev.alerted, o.avg, threshold, o.now, o.hookReady);
    Run(step.alerted, prev.output + Emitted(step.written), prev.hook + Emitted(step.delivered))
  }

  /** The alert loop run over the given ticks from the flag `alerted`. */
  function RunFrom(alerted: bool, obs: seq<Observation>, threshold: real): Run {
    if obs == [] then Run(alerted, [], [])
    else Advance(RunFrom(alerted, obs[..|obs| - 1], threshold), obs[|obs| - 1], threshold)
  }

  /** A tick depends on the flag only, not on what was written before. */
  lemma AdvanceKeepsHistory(alerted: bool, p: seq<Alert>, y: seq<Alert>, q: seq<Alert>, v: seq<Alert>, o: Observation, threshold: real)
    ensures var r := Advance(Run(alerted, y, v), o, threshold);
      Advance(Run(alerted, p + y, q + v), o, threshold) == Run(r.alerted, p + r.output, q + r.hook)
  {
    var step := AlertStep(alerted, o.avg, threshold, o.now, o.hookReady);
    assert (p + y) + Emitted(step.written) == p + (y + Emitted(step.written));
    assert (q + v) + Emitted(step.delivered) == q + (v + Emitted(step.delivered));
  }

  /** The alert loop from its initial state, not alerted. */
  function RunAlerts(obs: seq<Observation>, threshold: real): Run {
    RunFrom(false, obs, threshold)
  }

  /** Alerts alternate trigger, recovery, trigger, ..., starting with a trigger. */
  predicate Alternating(alerts: seq<Alert>) {
    forall k :: 0 <= k < |alerts| ==> alerts[k].recovered == (k % 2 == 1)
  }

  /** Every trigger is above the threshold and every recovery at or below it. */
  predicate AcrossThreshold(alerts: seq<Alert>, threshold: real) {
    forall k :: 0 <= k < |alerts| ==>
      if alerts[k].recovered then alerts[k].avgHits <= threshold else alerts[k].avgHits > threshold
  }

  /** a is b with some elements left out, the rest in their order. */
  predicate IsSubsequence(a: seq<Alert>, b: seq<Alert>)
    decreases |b|
  {
    || a == []
    || (&& b != []
        && (|| (a[|a| - 1] == b[|b| - 1] && IsSubsequence(a[..|a| - 1], b[..|b| - 1]))
            || IsSubsequence(a, b[..|b| - 1])))
  }

  /** Over any run of ticks from the initial state the alerts strictly
      alternate starting with a trigger, the flag is set exactly after an
      odd number of alerts, and each alert lies on its side of the
      threshold. */
  lemma {:induction false} RunAlternates(obs: seq<Observation>, threshold: real)
    ensures var r := RunAlerts(obs, threshold);
      && Alternating(r.output)
      && (r.alerted <==> |r.output| % 2 == 1)
      && AcrossThreshold(r.output, threshold)
  {
    if obs != [] {
      var init := obs[..|obs| - 1];
      RunAlternates(init, threshold);
      var prev := RunAlerts(init, threshold);
      var o := obs[|obs| - 1];
      var step := AlertStep(prev.alerted, o.avg, threshold, o.now, o.hookReady);
      var r := RunAlerts(obs, threshold);
      if step.written.Some? {
        assert r.output == prev.output + [step.written.value];
      } else {
        assert r.output == prev.output;
      }
    }
  }

  /** The hook sees some of the written alerts, in the order written. */
  lemma {:induction false} HookSeesSubsequence(obs: seq<Observation>, threshold: real)
    ensures IsSubsequence(RunAlerts(obs, threshold).hook, RunAlerts(obs, threshold).output)
  {
    if obs != [] {
      var init := obs[..|obs| - 1];
      HookSeesSubsequence(init, threshold);
      var prev := RunAlerts(init, threshold);
      var o := obs[|obs| - 1];
      var step := AlertStep(prev.alerted, o.avg, threshold, o.now, o.hookReady);
      var r := RunAlerts(obs, threshold);
      if step.delivered.Some? {
        assert r.hook[..|r.hook| - 1] == prev.hook;
        assert r.output[..|r.output| - 1] == prev.output;
      } else if step.written.Some? {
        assert r.hook == prev.hook;
        assert r.output[..|r.output| - 1] == prev.output;
      } else {
        assert r.hook == prev.hook && r.output == prev.output;
      }
    }
  }

  /** Whether the hook takes an alert never changes the flag or what is written. */
  lemma {:induction false} HookDoesNotAffectState(alerted: bool, obs1: seq<Observation>, obs2: seq<Observation>, threshold: real)
    requires |obs1| == |obs2|
    requires forall k :: 0 <= k < |obs1| ==> obs1[k].avg == obs2[k].avg && obs1[k].now == obs2[k].now
    ensures RunFrom(alerted, obs1, threshold).alerted == RunFrom(alerted, obs2, threshold).alerted
    ensures RunFrom(alerted, obs1, threshold).output == RunFrom(alerted, obs2, threshold).output
  {
    if obs1 != [] {
      HookDoesNotAffectState(alerted, obs1[..|obs1| - 1], obs2[..|obs2| - 1], threshold);
    }
  }

  /** Running two stretches of ticks one after the other is running the
      second from the flag the first leaves. */
  lemma {:induction false} RunFromAppend(alerted: bool, obs1: seq<Observation>, obs2: seq<Observation>, threshold: real)
    ensures var r1 := RunFrom(alerted, obs1, threshold);
      var r2 := RunFrom(r1.alerted, obs2, threshold);
      RunFrom(alerted, obs1 + obs2, threshold) == Run(r2.alerted, r1.output + r2.output, r1.hook + r2.hook)
  {
    var r1 := RunFrom(alerted, obs1, threshold);
    if obs2 == [] {
      assert obs1 + obs2 == obs1;
      assert r1.output + [] == r1.output && r1.hook + [] == r1.hook;
    } else {
      var all := obs1 + obs2;
      var init2 := obs2[..|obs2| - 1];
      assert all[..|all| - 1] == obs1 + init2;
      assert all[|all| - 1] == obs2[|obs2| - 1];
      RunFromAppend(alerted, obs1, init2, threshold);
      var mid := RunFrom(r1.alerted, init2, threshold);
      AdvanceKeepsHistory(mid.alerted, r1.output, mid.output, r1.hook, mid.hook, obs2[|obs2| - 1], threshold);
    }
  }

  /** While the average stays at or below the threshold (or undefined), the
      normal state fires nothing. */
  lemma {:induction false} QuietWhileLow(obs: seq<Observation>, threshold: real)
    requires forall k :: 0 <= k < |obs| ==> obs[k].avg.None? || obs[k].avg.value <= threshold
    ensures RunFrom(false, obs, threshold) == Run(false, [], [])
  {
    if obs != [] {
      QuietWhileLow(obs[..|obs| - 1], threshold);
    }
  }

  /** Sustained traffic above the threshold fires one trigger, at the first
      tick, when not already alerting, and nothing more. */
  lemma {:induction false} SustainedHigh(alerted: bool, obs: seq<Observation>, threshold: real)
    requires obs != []
    requires forall k :: 0 <= k < |obs| ==> obs[k].avg.Some? && obs[k].avg.value > threshold
    ensures RunFrom(alerted, obs, threshold).alerted
    ensures RunFrom(alerted, obs, threshold).output
         == if alerted then [] else [Alert(false, obs[0].avg.value, obs[0].now)]
  {
    if |obs| > 1 {
      SustainedHigh(alerted, obs[..|obs| - 1], threshold);
    }
  }

  /** Sustained traffic at or below the threshold fires one recovery, at the
      first tick, when alerting, and nothing more. */
  lemma {:induction false} SustainedLow(alerted: bool, obs: seq<Observation>, threshold: real)
    requires obs != []
    requires forall k :: 0 <= k < |obs| ==> obs[k].avg.Some? && obs[k].avg.value <= threshold
    ensures !RunFrom(alerted, obs, threshold).alerted
    ensures RunFrom(alerted, obs, threshold).output
         == if alerted then [Alert(true, obs[0].avg.value, obs[0].now)] else []
  {
    if |obs| > 1 {
      SustainedLow(alerted, obs[..|obs| - 1], threshold);
    }
  }

  /** Low, then high, then low traffic: no alert during the first low
      stretch, one trigger when the average first exceeds the threshold and
      one recovery when it first drops back. */
  lemma LowHighLow(low1: seq<Observation>, high: seq<Observation>, low2: seq<Observation>, threshold: real)
    requires forall k :: 0 <= k < |low1| ==> low1[k].avg.None? || low1[k].avg.value <= threshold
    requires high != [] && forall k :: 0 <= k < |high| ==> high[k].avg.Some? && high[k].avg.value > threshold
    requires low2 != [] && forall k :: 0 <= k < |low2| ==> low2[k].avg.Some? && low2[k].avg.value <= threshold
    ensures RunAlerts(low1 + high + low2, threshold).output
         == [Alert(false, high[0].avg.value, high[0].now), Alert(true, low2[0].avg.value, low2[0].now)]
  {
    QuietWhileLow(low1, threshold);
    SustainedHigh(false, high, threshold);
    SustainedLow(true, low2, threshold);
    RunFromAppend(false, low1, high, threshold);
    RunFromAppend(false, low1 + high, low2, threshold);
  }

  /** The alert loop: one AlertStep per tick from the not-alerted state. */
  method RunAlertLoop(obs: seq<Observation>, threshold: real)
    returns (alerted: bool, output: seq<Alert>, hook: seq<Alert>)
    ensures Run(alerted, output, hook) == RunAlerts(obs, threshold)
    ensures Alternating(output) && (alerted <==> |output| % 2 == 1)
    ensures AcrossThreshold(output, threshold)
    ensures IsSubsequence(hook, output)
  {
    alerted, output, hook := false, [], [];
    var i := 0;
    while i < |obs|
      invariant 0 <= i <= |obs|
      invariant Run(alerted, output, hook) == RunAlerts(obs[..i], threshold)
    {
      assert obs[..i + 1][..i] == obs[..i];
      var o := obs[i];
      var step := AlertStep(alerted, o.avg, threshold, o.now, o.hookReady);
      alerted := step.alerted;
      if step.written.Some? {
        output := output + [step.written.value];
      }
      if step.delivered.Some? {
        hook := hook + [step.delivered.value];
      }
      i := i + 1;
    }
    assert obs[..i] == obs;
    RunAlternates(obs, threshold);
    HookSeesSubsequence(obs, threshold);
  }

  /** A Monitor: the collector, the averager it reads for alerts and
      summaries, and its options. */
  class Monitor {
    const collector: Collection.Collector
    const averager: WindowedAverager
    const opts: MonitorOpts

    ghost predicate Valid()
      reads this, collector, averager
    {
      && collector.Valid()
      && averager.Valid()
      && averager.window == opts.alertWindow
      && averager.quantum == Quantum
    }

    /** New, without the log reader: a fresh collector with a fresh averager
        over the alert window; it panics (here: may not be called) when the
        window is shorter than the quantum. */
    constructor (opts: MonitorOpts, requestMatch: string -> seq<string>)
      requires RingLength(opts.alertWindow, Quantum).Some?
      ensures Valid() && this.opts == opts
      ensures fresh(collector) && fresh(averager) && fresh(averager.buckets)
      ensures collector.requestMatch == requestMatch && collector.numTopSections == opts.numTopSections
      ensures collector.count == 0 && collector.records == []
      ensures collector.topSections == [] && collector.ips == []
      ensures collector.sizeCurrent == [] && collector.sizeRotated == []
      ensures collector.statusFreq == Report.StatusFreq(0, 0, 0, 0, 0)
      ensures averager.idx == 0 && forall j :: 0 <= j < averager.buckets.Length ==> averager.buckets[j].None?
    {
      collector := new Collection.Collector(opts.numTopSections, requestMatch);
      averager := new WindowedAverager(opts.alertWindow, Quantum);
      this.opts := opts;
    }

    /** One tick of alert: reads the averager's average and steps. */
    method AlertTick(alerted: bool, now: Time, hookReady: bool) returns (step: Step)
      requires Valid()
      ensures step == AlertStep(alerted, AverageOf(averager.buckets[..], averager.idx, Quantum),
                                opts.alertThreshold, now, hookReady)
    {
      var avg := averager.Average();
      step := AlertStep(alerted, avg, opts.alertThreshold, now, hookReady);
    }

    /** summary: copies the aggregates, the latest and average hit rates and
        the alert window into a snapshot, changing nothing. */
    method Summary(now: Time) returns (s: Report.Summary)
      requires Valid()
      ensures s.timestamp == now
      ensures s.topSections == multiset(collector.topSections)
      ensures s.distinctIPs == |set a | a in collector.ips|
      ensures s.sizeHist == multiset(Collection.Retained(collector.sizeRotated, collector.sizeCurrent))
      ensures s.statusFreq == collector.statusFreq
      ensures s.hitsPerSecond == LatestOf(averager.buckets[..], averager.idx)
      ensures s.avgHits == AverageOf(averager.buckets[..], averager.idx, Quantum)
      ensures s.window == opts.alertWindow
      ensures s.distinctIPs <= collector.count && Report.Total(s.statusFreq) <= collector.count
      ensures s.avgHits.None? <==> forall j :: 0 <= j < averager.buckets.Length && j != averager.idx ==> averager.buckets[j].None?
    {
      var latest := averager.Latest();
      var avg := averager.Average();
      s := Report.Summary(
        timestamp := now,
        topSections := multiset(collector.topSections),
        distinctIPs := |set a | a in collector.ips|,
        sizeHist := multiset(Collection.Retained(collector.sizeRotated, collector.sizeCurrent)),
        statusFreq := collector.statusFreq,
        hitsPerSecond := latest,
        avgHits := avg,
        window := opts.alertWindow);
      collector.SnapshotBounds();
    }
  }
}
