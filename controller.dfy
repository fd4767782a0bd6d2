/**
  The run controller of the page script as state transitions over the
  module-level variables `isRunning`, `startTime`, `testInterval`,
  `progressInterval` and `testHistory` (app.py:108-112): `startTest`
  (app.py:284-324), one firing of the continuous-mode interval callback
  (app.py:304-317), `stopTest` (app.py:326-342) and the `updateProgress`
  refresh (app.py:272-282). Clock readings (`Date.now()`) are parameters; each
  callback runs to completion before the next one starts.
*/
module Controller {
  import opened Wrappers
  import opened Settings
  import opened Sampler
  import opened History
  import Countdown

  const PROGRESS_PERIOD_MS := 1000

  /** An installed `setInterval` timer, known by its period. */
  datatype Timer = Timer(periodMs: int)

  datatype RunState = RunState(
    running: bool,
    startTime: Option<int>,
    testInterval: Option<Timer>,
    progressInterval: Option<Timer>,
    history: seq<Sample>)

  datatype StartOutcome = AlreadyRunning | Started(firstOk: bool)

  datatype TickOutcome = Skipped | Finished | Measured(ok: bool)

  /** The state when the page has loaded. */
  function Initial(): (s: RunState)
    ensures Idle(s) && s.startTime.None? && s.history == []
  {
    RunState(false, None, None, None, [])
  }

  /** Not running and no timer installed. */
  predicate Idle(s: RunState)
  {
    !s.running && s.testInterval.None? && s.progressInterval.None?
  }

  /** `startTime` in arithmetic: JavaScript reads `null` as 0. */
  function StartMs(t: Option<int>): (ms: int)
    ensures t.None? ==> ms == 0
    ensures t.Some? ==> ms == t.value
  {
    if t.Some? then t.value else 0
  }

  /** `stopTest`: clear the flag and both timers; the start time and the history stay. */
  function Stop(s: RunState): (t: RunState)
    ensures Idle(t)
    ensures t.startTime == s.startTime && t.history == s.history
  {
    s.(running := false, testInterval := None, progressInterval := None)
  }

  /**
    `startTest`: a no-op while a run is active; otherwise record the start,
    measure once, and then either arm the two timers (continuous mode) or stop
    (single mode).
  */
  function Start(c: Config, s: RunState, now: int, o: Observations): (r: (RunState, StartOutcome))
    requires WellFormed(o)
    ensures s.running ==> r == (s, AlreadyRunning)
    ensures !s.running ==> r.1 == Started(Measure(o).Ok?)
                           && r.0.startTime == Some(now)
                           && r.0.history == Record(s.history, Measure(o))
    ensures !s.running && !c.continuous ==> Idle(r.0)
    ensures !s.running && c.continuous ==>
              r.0.running
              && r.0.testInterval == Some(Timer(c.frequencyMs))
              && r.0.progressInterval == Some(Timer(PROGRESS_PERIOD_MS))
  {
    if s.running then (s, AlreadyRunning)
    else
      var m := Measure(o);
      var measured := s.(running := true, startTime := Some(now), history := Record(s.history, m));
      if c.continuous then
        (measured.(testInterval := Some(Timer(c.frequencyMs)),
                   progressInterval := Some(Timer(PROGRESS_PERIOD_MS))), Started(m.Ok?))
      else
        (Stop(measured), Started(m.Ok?))
  }

  /**
    One firing of the continuous-mode interval: nothing when not running;
    stop without measuring once the duration has elapsed; otherwise measure
    exactly once.
  */
  function Tick(c: Config, s: RunState, now: int, o: Observations): (r: (RunState, TickOutcome))
    requires WellFormed(o)
    ensures r.0.startTime == s.startTime
    ensures r.1.Measured? <==> s.running && now - StartMs(s.startTime) < c.durationMs
    ensures r.1.Finished? <==> s.running && now - StartMs(s.startTime) >= c.durationMs
    ensures r.1.Measured? ==> r.0 == s.(history := Record(s.history, Measure(o))) && r.1.ok == Measure(o).Ok?
    ensures r.1.Finished? ==> r.0 == Stop(s)
    ensures r.1.Skipped? ==> r.0 == s
  {
    if !s.running then (s, Skipped)
    else if now - StartMs(s.startTime) >= c.durationMs then (Stop(s), Finished)
    else
      var m := Measure(o);
      (s.(history := Record(s.history, m)), Measured(m.Ok?))
  }

  /** `updateProgress`: nothing while `startTime` is falsy (null or 0), else the bar and the countdown. */
  function Progress(c: Config, s: RunState, now: int): (d: Option<Countdown.Display>)
    requires Valid(c)
    ensures d.Some? <==> s.startTime.Some? && s.startTime.value != 0
    ensures d.Some? ==> d.value.progress == Countdown.Progress(c.durationMs, now - s.startTime.value)
    ensures d.Some? ==> d.value.progress <= 100.0 && 0 <= d.value.secs < 60
                        && d.value.mins * 60 + d.value.secs == Countdown.Remaining(c.durationMs, now - s.startTime.value)
  {
    if s.startTime.None? || s.startTime.value == 0 then None
    else Some(Countdown.Show(c.durationMs, now - s.startTime.value))
  }

  predicate AllWellFormed(obs: seq<Observations>)
  {
    forall i :: 0 <= i < |obs| ==> WellFormed(obs[i])
  }

  predicate AllSucceed(obs: seq<Observations>)
    requires AllWellFormed(obs)
  {
    forall i :: 0 <= i < |obs| ==> Measure(obs[i]).Ok?
  }

  /**
    The interval firing at each of `times` in turn, with the network answering
    the i-th measurement with `obs[i]`: the final state and the number of
    firings that measured.
  */
  function RunTicks(c: Config, s: RunState, times: seq<int>, obs: seq<Observations>): (r: (RunState, nat))
    requires |times| == |obs| && AllWellFormed(obs)
    ensures r.1 <= |times|
    ensures r.0.startTime == s.startTime
    ensures |s.history| <= |r.0.history| <= |s.history| + r.1
    ensures r.0.history[..|s.history|] == s.history
    ensures AllSucceed(obs) ==> |r.0.history| == |s.history| + r.1
    decreases |times|
  {
    if times == [] then (s, 0)
    else
      var n := |times| - 1;
      assert AllWellFormed(obs[..n]);
      var (p, k) := RunTicks(c, s, times[..n], obs[..n]);
      assert AllSucceed(obs) ==> AllSucceed(obs[..n]);
      var (t, out) := Tick(c, p, times[n], obs[n]);
      assert t.history[..|p.history|] == p.history;
      (t, if out.Measured? then k + 1 else k)
  }

  /**
    The timer is armed `delay` ms after the start. Its `k`-th firing (k >= 1)
    falls before the duration exactly when `k <= m`.
  */
  lemma FiringBeforeDuration(k: int, m: nat, delay: nat, period: int, duration: int)
    requires k >= 1 && period > 0
    requires (m == 0 || delay + m * period < duration) && duration <= delay + (m + 1) * period
    ensures delay + k * period < duration <==> k <= m
  {
    if k <= m {
      assert k * period <= m * period;
    } else {
      assert (m + 1) * period <= k * period;
    }
  }

  /**
    Firings of a running continuous run of which exactly the first `m` fall
    before the duration: those `m` each measure once, the next one stops the
    run, and every later one does nothing.
  */
  lemma {:induction false} RunUntilDeadline(c: Config, s: RunState, t0: int, m: nat, times: seq<int>, obs: seq<Observations>)
    requires s.running && s.startTime == Some(t0)
    requires |times| == |obs| && AllWellFormed(obs)
    requires forall i :: 0 <= i < |times| ==> (times[i] - t0 < c.durationMs <==> i < m)
    ensures RunTicks(c, s, times, obs).1 == if |times| <= m then |times| else m
    ensures RunTicks(c, s, times, obs).0.running <==> |times| <= m
    ensures |times| > m ==> Idle(RunTicks(c, s, times, obs).0)
    decreases |times|
  {
    if times != [] {
      var n := |times| - 1;
      var prefix, prefixObs := times[..n], obs[..n];
      assert AllWellFormed(prefixObs);
      assert forall i :: 0 <= i < |prefix| ==> prefix[i] == times[i];
      RunUntilDeadline(c, s, t0, m, prefix, prefixObs);
      var (p, k) := RunTicks(c, s, prefix, prefixObs);
      var (t, out) := Tick(c, p, times[n], obs[n]);
      assert RunTicks(c, s, times, obs) == (t, if out.Measured? then k + 1 else k);
      assert StartMs(p.startTime) == t0;
      if n < m {
        assert p.running && times[n] - t0 < c.durationMs;
        assert out.Measured? && t.running;
      } else if n == m {
        assert p.running && times[n] - t0 >= c.durationMs;
        assert out.Finished? && Idle(t);
      } else {
        assert out.Skipped? && t == p;
      }
    }
  }

  /**
    A continuous run started at `t0` whose first measurement took `delay` ms:
    `setInterval` is armed only when that measurement returns, so the timer
    fires at `t0 + delay + k * frequencyMs`. When exactly `m` of those firings
    fall before the duration, they each measure once, the next one stops the
    run, and every later one does nothing.
  */
  lemma ContinuousSchedule(c: Config, s: RunState, t0: int, delay: nat, m: nat, times: seq<int>, obs: seq<Observations>)
    requires Valid(c)
    requires s.running && s.startTime == Some(t0)
    requires (m == 0 || delay + m * c.frequencyMs < c.durationMs) && c.durationMs <= delay + (m + 1) * c.frequencyMs
    requires |times| == |obs| && AllWellFormed(obs)
    requires forall i :: 0 <= i < |times| ==> times[i] == t0 + delay + (i + 1) * c.frequencyMs
    ensures RunTicks(c, s, times, obs).1 == if |times| <= m then |times| else m
    ensures RunTicks(c, s, times, obs).0.running <==> |times| <= m
    ensures |times| > m ==> Idle(RunTicks(c, s, times, obs).0)
  {
    forall i | 0 <= i < |times|
      ensures times[i] - t0 < c.durationMs <==> i < m
    {
      FiringBeforeDuration(i + 1, m, delay, c.frequencyMs, c.durationMs);
    }
    RunUntilDeadline(c, s, t0, m, times, obs);
  }

  /**
    A one-minute run at a ten-second frequency, from a freshly loaded page,
    whose first measurement takes less than ten seconds: the start measures
    once, the next five firings (before 60 s) measure once each, the sixth
    ends the run, and with every measurement succeeding the history holds six
    records.
  */
  lemma MinuteAtTenSeconds(t0: int, delay: nat, first: Observations, times: seq<int>, obs: seq<Observations>)
    requires delay < 10_000
    requires WellFormed(first) && |times| == |obs| && |times| >= 6 && AllWellFormed(obs)
    requires forall i :: 0 <= i < |times| ==> times[i] == t0 + delay + (i + 1) * 10_000
    ensures var c := FromSidebar(Continuous, 1, 10);
            var started := Start(c, Initial(), t0, first);
            var ended := RunTicks(c, started.0, times, obs);
            && started.1.Started?
            && ended.1 == 5
            && Idle(ended.0)
            && (Measure(first).Ok? && AllSucceed(obs) ==> |ended.0.history| == 6)
  {
    var c := FromSidebar(Continuous, 1, 10);
    var started := Start(c, Initial(), t0, first);
    ContinuousSchedule(c, started.0, t0, delay, 5, times, obs);
  }

  /**
    The same run when the first measurement takes twelve seconds: the firings
    come at 22, 32, 42 and 52 s and measure, and the one at 62 s ends the run,
    so only four firings measure.
  */
  lemma MinuteAtTenSecondsSlowStart(t0: int, first: Observations, times: seq<int>, obs: seq<Observations>)
    requires WellFormed(first) && |times| == |obs| && |times| >= 5 && AllWellFormed(obs)
    requires forall i :: 0 <= i < |times| ==> times[i] == t0 + 12_000 + (i + 1) * 10_000
    ensures var c := FromSidebar(Continuous, 1, 10);
            var started := Start(c, Initial(), t0, first);
            var ended := RunTicks(c, started.0, times, obs);
            && ended.1 == 4
            && Idle(ended.0)
  {
    var c := FromSidebar(Continuous, 1, 10);
    var started := Start(c, Initial(), t0, first);
    ContinuousSchedule(c, started.0, t0, 12_000, 4, times, obs);
  }

  /**
    The sliders allow a frequency longer than the duration (one minute, every
    two minutes): whatever the first measurement took, the first firing
    already ends the run, so only the initial measurement is ever made.
  */
  lemma FrequencyBeyondDuration(t0: int, delay: nat, first: Observations, times: seq<int>, obs: seq<Observations>)
    requires WellFormed(first) && |times| == |obs| && |times| >= 1 && AllWellFormed(obs)
    requires forall i :: 0 <= i < |times| ==> times[i] == t0 + delay + (i + 1) * 120_000
    ensures var c := FromSidebar(Continuous, 1, 120);
            var started := Start(c, Initial(), t0, first);
            var ended := RunTicks(c, started.0, times, obs);
            && ended.1 == 0
            && Idle(ended.0)
            && |ended.0.history| == |started.0.history| <= 1
  {
    var c := FromSidebar(Continuous, 1, 120);
    var started := Start(c, Initial(), t0, first);
    ContinuousSchedule(c, started.0, t0, delay, 0, times, obs);
  }

  /** A single-test run leaves the page idle with one record on success and none on failure. */
  lemma SingleTestRun(c: Config, now: int, o: Observations)
    requires !c.continuous && WellFormed(o)
    ensures Idle(Start(c, Initial(), now, o).0)
    ensures |Start(c, Initial(), now, o).0.history| == if Measure(o).Ok? then 1 else 0
  {
  }

  /** After a stop, every later firing of the interval does nothing. */
  lemma {:induction false} StoppedRunIgnoresTicks(c: Config, s: RunState, times: seq<int>, obs: seq<Observations>)
    requires |times| == |obs| && AllWellFormed(obs)
    ensures RunTicks(c, Stop(s), times, obs) == (Stop(s), 0)
    decreases |times|
  {
    if times != [] {
      var n := |times| - 1;
      assert AllWellFormed(obs[..n]);
      StoppedRunIgnoresTicks(c, s, times[..n], obs[..n]);
    }
  }
}
