/**
  The page script's mutable state and the functions that change it
  (app.py:103-372), as a class whose fields are the script's module-level
  variables and whose methods follow the script statement by statement. Each
  method is proved to move the state exactly as the corresponding transition
  of the Controller module does.
*/
module Page {
  import opened Wrappers
  import Settings
  import opened Metrics
  import opened Sampler
  import opened History
  import opened Controller
  import Countdown

  class SpeedTest {
    /** CONTINUOUS, DURATION_MS and FREQUENCY_MS, fixed when the page is generated. */
    const config: Settings.Config

    var isRunning: bool
    var testInterval: Option<Timer>
    var progressInterval: Option<Timer>
    var startTime: Option<int>
    var testHistory: seq<Sample>

    /** The browser-storage slot 'speedtest_history' that the save timer writes. */
    var stored: Option<seq<Sample>>

    predicate Valid()
    {
      Settings.Valid(config)
    }

    /** The controller's view of the fields. */
    function State(): RunState
      reads this
    {
      RunState(isRunning, startTime, testInterval, progressInterval, testHistory)
    }

    constructor (c: Settings.Config)
      requires Settings.Valid(c)
      ensures Valid() && config == c
      ensures State() == Initial() && stored == None
    {
      config := c;
      isRunning := false;
      testInterval := None;
      progressInterval := None;
      startTime := None;
      testHistory := [];
      stored := None;
    }

    /**
      `runSingleTest`: five latency probes, then the download and the upload;
      on success one record is appended, and the first throw ends the attempt
      with the history untouched.
    */
    method RunSingleTest(o: Observations) returns (ok: bool)
      requires WellFormed(o)
      modifies this`testHistory
      ensures ok == Measure(o).Ok?
      ensures testHistory == Record(old(testHistory), Measure(o))
    {
      var pings: seq<real> := [];
      for i := 0 to PROBE_COUNT
        invariant ProbeTimes(o.probes[..i]) == Ok(pings)
      {
        match o.probes[i]
        case Threw(_) =>
          assert o.probes[..i + 1][..i] == o.probes[..i];
          ProbeFailureIsFinal(o.probes, i + 1);
          ok := false;
          return;
        case Done(rtt) =>
          assert o.probes[..i + 1][..i] == o.probes[..i];
          pings := pings + [rtt];
      }
      assert o.probes[..PROBE_COUNT] == o.probes;
      var ping := Ping(pings);
      var jitter := Jitter(pings);

      if o.download.Threw? {
        ok := false;
        return;
      }
      var dlMbps := Mbps(o.download.value.bytes, o.download.value.elapsedMs);

      if o.uploadMs.Threw? {
        ok := false;
        return;
      }
      var ulMbps := Mbps(UPLOAD_BYTES, o.uploadMs.value);

      testHistory := testHistory + [Sample(o.clock, ping, jitter, dlMbps, ulMbps)];
      ok := true;
    }

    /** `stopTest`. */
    method StopTest()
      modifies this
      ensures State() == Stop(old(State()))
      ensures stored == old(stored)
    {
      isRunning := false;
      if testInterval.Some? {
        testInterval := None;
      }
      if progressInterval.Some? {
        progressInterval := None;
      }
    }

    /** `startTest`, with `now` the reading of `Date.now()`. */
    method StartTest(now: int, o: Observations) returns (outcome: StartOutcome)
      requires WellFormed(o)
      modifies this
      ensures (State(), outcome) == Start(config, old(State()), now, o)
      ensures stored == old(stored)
    {
      if isRunning {
        return AlreadyRunning;
      }
      isRunning := true;
      startTime := Some(now);
      var ok := RunSingleTest(o);
      if config.continuous {
        testInterval := Some(Timer(config.frequencyMs));
        progressInterval := Some(Timer(PROGRESS_PERIOD_MS));
      } else {
        StopTest();
      }
      outcome := Started(ok);
    }

    /** One firing of the continuous-mode interval callback at time `now`. */
    method OnTick(now: int, o: Observations) returns (outcome: TickOutcome)
      requires WellFormed(o)
      modifies this
      ensures (State(), outcome) == Tick(config, old(State()), now, o)
      ensures stored == old(stored)
    {
      if !isRunning {
        return Skipped;
      }
      if now - StartMs(startTime) >= config.durationMs {
        StopTest();
        return Finished;
      }
      var ok := RunSingleTest(o);
      outcome := Measured(ok);
    }

    /** `updateProgress` at time `now`: what the bar and the countdown text show, if anything. */
    method UpdateProgress(now: int) returns (shown: Option<Countdown.Display>)
      requires Valid()
      ensures shown == Progress(config, State(), now)
    {
      if startTime.None? || startTime.value == 0 {
        return None;
      }
      var elapsed := now - startTime.value;
      var progress := Countdown.Progress(config.durationMs, elapsed);
      var remaining := Countdown.Remaining(config.durationMs, elapsed);
      var mins := remaining / 60;
      var secs := remaining % 60;
      shown := Some(Countdown.Display(progress, mins, secs));
    }

    /** One firing of the five-second save timer. */
    method SaveHistory()
      modifies this`stored
      ensures stored == if testHistory == [] then old(stored) else Persisted(testHistory)
    {
      if |testHistory| > 0 {
        stored := Some(LastHundred(testHistory));
      }
    }
  }
}
