/**
  One measurement, `runSingleTest` (app.py:205-255), as a function of what the
  network and the clock reported. Each `await fetch(...)` either yields a
  timing or throws; the first throw ends the measurement in the `catch`, and
  nothing is recorded.
*/
module Sampler {
  import opened Wrappers
  import opened Metrics

  /** What one awaited network step produced: its value, or the message it threw. */
  datatype Fetch<T> = Done(value: T) | Threw(message: string)

  /** A timed transfer: bytes moved and the milliseconds it took. */
  datatype Transfer = Transfer(bytes: nat, elapsedMs: real)

  /**
    The inputs of one measurement: the outcome of each of the five latency
    probes (the elapsed milliseconds), the download (the blob's size and the
    elapsed time), the upload's elapsed time, and the locale time string taken
    when the record is made.
  */
  datatype Observations = Observations(
    probes: seq<Fetch<real>>,
    download: Fetch<Transfer>,
    uploadMs: Fetch<real>,
    clock: string)

  /** One history record: time, ping and jitter in ms, download and upload in Mbps. */
  datatype Sample = Sample(time: string, ping: real, jitter: real, dl: real, ul: real)

  /**
    What a monotonic clock can report: one outcome per probe the loop issues,
    no negative round-trip time, and transfers that take some time.
  */
  predicate WellFormed(o: Observations)
  {
    && |o.probes| == PROBE_COUNT
    && (forall i :: 0 <= i < |o.probes| && o.probes[i].Done? ==> o.probes[i].value >= 0.0)
    && (o.download.Done? ==> o.download.value.elapsedMs > 0.0)
    && (o.uploadMs.Done? ==> o.uploadMs.value > 0.0)
  }

  predicate AllDone(probes: seq<Fetch<real>>)
  {
    forall i :: 0 <= i < |probes| ==> probes[i].Done?
  }

  /**
    The `pings` array the probe loop builds: every timing in order, or the
    message of the first probe that threw.
  */
  function ProbeTimes(probes: seq<Fetch<real>>): (r: Result<seq<real>>)
    ensures r.Ok? <==> AllDone(probes)
    ensures r.Ok? ==> |r.value| == |probes| && forall i :: 0 <= i < |probes| ==> probes[i] == Done(r.value[i])
    ensures r.Err? ==> exists i :: 0 <= i < |probes| && probes[i] == Threw(r.message) && AllDone(probes[..i])
    decreases |probes|
  {
    if probes == [] then Ok([])
    else
      var init := probes[..|probes| - 1];
      assert forall i :: 0 <= i < |init| ==> init[i] == probes[i];
      match ProbeTimes(init)
      case Err(m) =>
        assert exists i :: 0 <= i < |init| && init[i] == Threw(m) && AllDone(init[..i]) && init[..i] == probes[..i];
        Err(m)
      case Ok(pings) =>
        match probes[|probes| - 1]
        case Threw(m) =>
          assert probes[..|probes| - 1] == init;
          Err(m)
        case Done(rtt) => Ok(pings + [rtt])
  }

  /** A failed probe decides the outcome of the whole probe phase. */
  lemma {:induction false} ProbeFailureIsFinal(probes: seq<Fetch<real>>, k: nat)
    requires k <= |probes| && ProbeTimes(probes[..k]).Err?
    ensures ProbeTimes(probes) == ProbeTimes(probes[..k])
    decreases |probes| - k
  {
    if k < |probes| {
      var next := probes[..k + 1];
      assert next[..k] == probes[..k];
      ProbeFailureIsFinal(probes, k + 1);
    } else {
      assert probes[..k] == probes;
    }
  }

  /** `runSingleTest` from the network's answers to the sample it records, or the error it catches. */
  function Measure(o: Observations): (r: Result<Sample>)
    requires WellFormed(o)
    ensures r.Ok? <==> AllDone(o.probes) && o.download.Done? && o.uploadMs.Done?
    ensures r.Ok? ==> r.value.time == o.clock
    ensures r.Ok? ==> r.value.ping >= 0.0 && r.value.jitter >= 0.0 && r.value.dl >= 0.0 && r.value.ul >= 0.0
    ensures r.Ok? ==> (exists i :: 0 <= i < |o.probes| && o.probes[i] == Done(r.value.ping))
                      && forall i :: 0 <= i < |o.probes| ==> r.value.ping <= o.probes[i].value
    ensures r.Ok? ==> r.value.jitter == Jitter(ProbeTimes(o.probes).value)
    ensures r.Ok? ==> r.value.dl == Mbps(o.download.value.bytes, o.download.value.elapsedMs)
    ensures r.Ok? ==> r.value.ul == Mbps(UPLOAD_BYTES, o.uploadMs.value)
    ensures !AllDone(o.probes) ==> r == Err(ProbeTimes(o.probes).message)
    ensures AllDone(o.probes) && o.download.Threw? ==> r == Err(o.download.message)
    ensures AllDone(o.probes) && o.download.Done? && o.uploadMs.Threw? ==> r == Err(o.uploadMs.message)
  {
    match ProbeTimes(o.probes)
    case Err(m) => Err(m)
    case Ok(pings) =>
      var ping := Ping(pings);
      var jitter := Jitter(pings);
      match o.download
      case Threw(m) => Err(m)
      case Done(d) =>
        match o.uploadMs
        case Threw(m) => Err(m)
        case Done(ms) =>
          assert forall i :: 0 <= i < |pings| ==> pings[i] >= 0.0 by {
            assert forall i :: 0 <= i < |pings| ==> o.probes[i] == Done(pings[i]);
          }
          Ok(Sample(o.clock, ping, jitter, Mbps(d.bytes, d.elapsedMs), Mbps(UPLOAD_BYTES, ms)))
  }

  /**
    A recorded sample's jitter lies between zero and the spread of its
    probes, and is zero exactly when all five probes took the same time.
  */
  lemma MeasuredJitter(o: Observations)
    requires WellFormed(o) && Measure(o).Ok?
    ensures Measure(o).value.jitter <= Peak(ProbeTimes(o.probes).value) - Measure(o).value.ping
    ensures Measure(o).value.jitter == 0.0 <==> forall i :: 0 <= i < |o.probes| ==> o.probes[i] == o.probes[0]
  {
    var pings := ProbeTimes(o.probes).value;
    JitterAtMostSpread(pings);
    JitterZeroIffConstant(pings);
    assert forall i :: 0 <= i < |pings| ==> o.probes[i] == Done(pings[i]);
  }
}
