/**
  The arithmetic of the progress bar and the "Time remaining" text that
  continuous mode refreshes every second (app.py:272-281). The clock reading
  is an input: `elapsedMs` is `Date.now() - startTime`, a whole number of
  milliseconds.
*/
module Countdown {
  import Settings

  /** What one refresh shows: the bar width in percent and the minutes and seconds left. */
  datatype Display = Display(progress: real, mins: int, secs: int)

  /** `Math.ceil`: the least integer not below `x`. */
  function Ceil(x: real): (c: int)
    ensures c as real - 1.0 < x <= c as real
  {
    -((-x).Floor)
  }

  /** `Math.min(100, (elapsed / DURATION_MS) * 100)`. */
  function Progress(durationMs: int, elapsedMs: int): (p: real)
    requires durationMs > 0
    ensures p <= 100.0
    ensures p == 100.0 <==> elapsedMs >= durationMs
    ensures elapsedMs < durationMs ==> p * durationMs as real == elapsedMs as real * 100.0
    ensures elapsedMs >= 0 ==> p >= 0.0
  {
    var fraction := (elapsedMs as real / durationMs as real) * 100.0;
    if fraction < 100.0 then fraction else 100.0
  }

  /**
    `Math.max(0, Math.ceil((DURATION_MS - elapsed) / 1000))`: the whole seconds
    still to go, rounded up, never negative. It is the least such count that
    covers what is left of the run.
  */
  function Remaining(durationMs: int, elapsedMs: int): (r: int)
    ensures r >= 0
    ensures r * 1000 >= durationMs - elapsedMs
    ensures r == 0 || (r - 1) * 1000 < durationMs - elapsedMs
  {
    var c := Ceil((durationMs - elapsedMs) as real / 1000.0);
    if c < 0 then 0 else c
  }

  /** `Math.floor(remaining / 60)` and `remaining % 60`. */
  function Split(remaining: int): (ms: (int, int))
    requires remaining >= 0
    ensures ms.0 >= 0 && 0 <= ms.1 < 60
    ensures ms.0 * 60 + ms.1 == remaining
  {
    (remaining / 60, remaining % 60)
  }

  /** One refresh of the progress bar and text. */
  function Show(durationMs: int, elapsedMs: int): (d: Display)
    requires durationMs > 0
    ensures d.progress == Progress(durationMs, elapsedMs) && d.progress <= 100.0
    ensures 0 <= d.secs < 60 && d.mins >= 0
    ensures d.mins * 60 + d.secs == Remaining(durationMs, elapsedMs)
  {
    var (mins, secs) := Split(Remaining(durationMs, elapsedMs));
    Display(Progress(durationMs, elapsedMs), mins, secs)
  }

  /** The bar is full exactly when the text says no time is left. */
  lemma BarFullIffNothingLeft(durationMs: int, elapsedMs: int)
    requires durationMs > 0
    ensures Show(durationMs, elapsedMs).progress == 100.0 <==> Show(durationMs, elapsedMs).mins == Show(durationMs, elapsedMs).secs == 0
  {
    var r := Remaining(durationMs, elapsedMs);
    assert r == 0 <==> elapsedMs >= durationMs;
  }

  /**
    For a configured run and a clock that has not gone backwards, the text
    never shows more than the configured duration: at most 60m 0s, and
    exactly the configured minutes at the start.
  */
  lemma {:induction false} ShownTimeWithinDuration(c: Settings.Config, elapsedMs: int)
    requires Settings.Valid(c) && elapsedMs >= 0
    ensures Remaining(c.durationMs, elapsedMs) <= c.durationMs / 1000
    ensures Show(c.durationMs, elapsedMs).mins <= 60
    ensures Show(c.durationMs, elapsedMs).mins == 60 ==> Show(c.durationMs, elapsedMs).secs == 0
    ensures elapsedMs == 0 ==> Show(c.durationMs, 0) == Display(0.0, c.durationMs / 60000, 0)
  {
    var r := Remaining(c.durationMs, elapsedMs);
    var seconds := c.durationMs / 1000;
    assert c.durationMs == seconds * 1000;
    assert r <= 3600;
    if elapsedMs == 0 {
      assert r == seconds;
      assert seconds == (c.durationMs / 60000) * 60;
    }
  }
}
