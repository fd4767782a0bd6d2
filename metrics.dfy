/**
  The arithmetic that turns raw timings into the four reported metrics
  (app.py:211-234): the ping is the smallest probe round-trip time, the
  jitter the mean absolute difference between adjacent probes, and a
  throughput is megabits divided by seconds.
*/
module Metrics {

  const PROBE_COUNT := 5
  const DOWNLOAD_BYTES := 25_000_000
  const UPLOAD_BYTES := 5_000_000

  function Abs(x: real): (a: real)
    ensures a >= 0.0 && (a == x || a == -x)
  {
    if x < 0.0 then -x else x
  }

  /** `Math.min(...pings)`: the ping is the smallest probe time. */
  function Ping(rtts: seq<real>): (m: real)
    requires |rtts| > 0
    ensures forall i :: 0 <= i < |rtts| ==> m <= rtts[i]
    ensures exists i :: 0 <= i < |rtts| && rtts[i] == m
  {
    if |rtts| == 1 then rtts[0]
    else
      var rest := Ping(rtts[1..]);
      assert forall i :: 1 <= i < |rtts| ==> rtts[i] == rtts[1..][i - 1];
      if rtts[0] <= rest then rtts[0] else rest
  }

  /** The largest probe time; used only to bound the jitter. */
  function Peak(rtts: seq<real>): (m: real)
    requires |rtts| > 0
    ensures forall i :: 0 <= i < |rtts| ==> rtts[i] <= m
    ensures exists i :: 0 <= i < |rtts| && rtts[i] == m
  {
    if |rtts| == 1 then rtts[0]
    else
      var rest := Peak(rtts[1..]);
      assert forall i :: 1 <= i < |rtts| ==> rtts[i] == rtts[1..][i - 1];
      if rest <= rtts[0] then rtts[0] else rest
  }

  /**
    The reduce over `pings.slice(1)`: starting from 0, add |p[i+1] - p[i]| for
    each adjacent pair, left to right.
  */
  function AbsDiffSum(rtts: seq<real>): (s: real)
    ensures s >= 0.0
    decreases |rtts|
  {
    if |rtts| < 2 then 0.0
    else AbsDiffSum(rtts[..|rtts| - 1]) + Abs(rtts[|rtts| - 1] - rtts[|rtts| - 2])
  }

  /**
    The jitter: the sum of adjacent differences divided by `pings.length - 1`.
    The page always has five probes; with fewer than two the division is not
    meaningful, so at least two are required.
  */
  function Jitter(rtts: seq<real>): (j: real)
    requires |rtts| >= 2
    ensures j >= 0.0
  {
    AbsDiffSum(rtts) / (|rtts| - 1) as real
  }

  /** Megabits per second for `bytes` transferred in `elapsedMs` milliseconds. */
  function Mbps(bytes: nat, elapsedMs: real): (r: real)
    requires elapsedMs > 0.0
    ensures r >= 0.0
    ensures r * (elapsedMs / 1000.0) == (bytes as real) * 8.0 / 1_000_000.0
  {
    ((bytes as real) * 8.0 / 1_000_000.0) / (elapsedMs / 1000.0)
  }

  predicate Constant(rtts: seq<real>)
  {
    forall i :: 0 <= i < |rtts| ==> rtts[i] == rtts[0]
  }

  lemma {:induction false} AbsDiffSumZeroIffConstant(rtts: seq<real>)
    ensures AbsDiffSum(rtts) == 0.0 <==> Constant(rtts)
    decreases |rtts|
  {
    if |rtts| >= 2 {
      var init := rtts[..|rtts| - 1];
      AbsDiffSumZeroIffConstant(init);
      assert forall i :: 0 <= i < |init| ==> init[i] == rtts[i];
      if Constant(rtts) {
        assert Constant(init);
      }
      if AbsDiffSum(rtts) == 0.0 {
        assert Constant(init);
        assert rtts[|rtts| - 1] == rtts[|rtts| - 2];
      }
    }
  }

  /** The jitter is zero exactly when every probe took the same time. */
  lemma JitterZeroIffConstant(rtts: seq<real>)
    requires |rtts| >= 2
    ensures Jitter(rtts) == 0.0 <==> Constant(rtts)
  {
    AbsDiffSumZeroIffConstant(rtts);
  }

  /** `n` copies of `d` added up, without a product the solver must reason about. */
  function Repeated(n: nat, d: real): (total: real)
    ensures d >= 0.0 ==> total >= 0.0
  {
    if n == 0 then 0.0 else Repeated(n - 1, d) + d
  }

  lemma {:induction false} AbsDiffSumBounded(rtts: seq<real>, lo: real, spread: real)
    requires |rtts| >= 1
    requires forall i :: 0 <= i < |rtts| ==> lo <= rtts[i] <= lo + spread
    ensures AbsDiffSum(rtts) <= Repeated(|rtts| - 1, spread)
    decreases |rtts|
  {
    if |rtts| >= 2 {
      var init := rtts[..|rtts| - 1];
      assert forall i :: 0 <= i < |init| ==> init[i] == rtts[i];
      AbsDiffSumBounded(init, lo, spread);
      assert Abs(rtts[|rtts| - 1] - rtts[|rtts| - 2]) <= spread;
    }
  }

  lemma {:induction false} RepeatedIsProduct(n: nat, d: real)
    ensures Repeated(n, d) == n as real * d
  {
    if n > 0 {
      RepeatedIsProduct(n - 1, d);
      assert n as real * d == (n - 1) as real * d + d;
    }
  }

  /** The jitter never exceeds the spread between the slowest and the fastest probe. */
  lemma JitterAtMostSpread(rtts: seq<real>)
    requires |rtts| >= 2
    ensures Jitter(rtts) <= Peak(rtts) - Ping(rtts)
  {
    var spread := Peak(rtts) - Ping(rtts);
    AbsDiffSumBounded(rtts, Ping(rtts), spread);
    JitterFromSumBound(rtts, spread);
  }

  lemma JitterFromSumBound(rtts: seq<real>, spread: real)
    requires |rtts| >= 2
    requires AbsDiffSum(rtts) <= Repeated(|rtts| - 1, spread)
    ensures Jitter(rtts) <= spread
  {
    var n := |rtts| - 1;
    RepeatedIsProduct(n, spread);
    QuotientBound(AbsDiffSum(rtts), n as real, spread);
  }

  lemma QuotientBound(total: real, n: real, bound: real)
    requires n > 0.0 && total <= n * bound
    ensures total / n <= bound
  {
    var q := total / n;
    assert q * n == total;
    assert n * (bound - q) >= 0.0;
  }

  /** The worked example: probes 10, 20, 10, 20 give a ping of 10 and a jitter of 10. */
  lemma AlternatingProbesExample()
    ensures Ping([10.0, 20.0, 10.0, 20.0]) == 10.0
    ensures Jitter([10.0, 20.0, 10.0, 20.0]) == 10.0
  {
    var p := [10.0, 20.0, 10.0, 20.0];
    assert p[..3] == [10.0, 20.0, 10.0];
    assert p[..3][..2] == [10.0, 20.0];
    assert [10.0, 20.0][..1] == [10.0];
    assert AbsDiffSum(p) == 30.0;
  }

  /** The throughput written as the textbook formula: bits per second over one million. */
  lemma MbpsIsBitsPerSecond(bytes: nat, elapsedMs: real)
    requires elapsedMs > 0.0
    ensures Mbps(bytes, elapsedMs) == ((bytes as real) * 8.0 / (elapsedMs / 1000.0)) / 1_000_000.0
  {
  }

  /** A transfer that takes longer yields a lower (or equal) rate. */
  lemma MbpsAntitone(bytes: nat, fasterMs: real, slowerMs: real)
    requires 0.0 < fasterMs <= slowerMs
    ensures Mbps(bytes, slowerMs) <= Mbps(bytes, fasterMs)
  {
    var bits := (bytes as real) * 8.0 / 1_000_000.0;
    var fast, slow := fasterMs / 1000.0, slowerMs / 1000.0;
    assert Mbps(bytes, slowerMs) * slow == bits;
    assert Mbps(bytes, fasterMs) * fast == bits;
    assert Mbps(bytes, slowerMs) * fast <= Mbps(bytes, slowerMs) * slow;
  }

  /** The full download payload received in two seconds is exactly 100 Mbps; the upload payload in 0.4 s likewise. */
  lemma PayloadExamples()
    ensures Mbps(DOWNLOAD_BYTES, 2000.0) == 100.0
    ensures Mbps(UPLOAD_BYTES, 400.0) == 100.0
  {
  }
}
