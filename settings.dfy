/**
  The run configuration: the sidebar's mode and sliders (app.py:27-32) and the
  three constants they are baked into at the top of the page script
  (CONTINUOUS, DURATION_MS and FREQUENCY_MS, app.py:104-106).
*/
module Settings {

  datatype Mode = SingleTest | Continuous

  /** The page script's configuration constants. */
  datatype Config = Config(continuous: bool, durationMs: int, frequencyMs: int)

  const DEFAULT_DURATION_MIN := 1
  const DEFAULT_FREQ_SEC := 10
  const MS_PER_MINUTE := 60 * 1000
  const MS_PER_SECOND := 1000

  /** Slider bounds: duration 1..60 minutes, frequency 2..120 seconds. */
  predicate InSliderRange(durationMin: int, freqSec: int)
  {
    1 <= durationMin <= 60 && 2 <= freqSec <= 120
  }

  /** What any configuration coming out of the sidebar looks like. */
  predicate Valid(c: Config)
  {
    && MS_PER_MINUTE <= c.durationMs <= 60 * MS_PER_MINUTE
    && c.durationMs % MS_PER_MINUTE == 0
    && 2 * MS_PER_SECOND <= c.frequencyMs <= 120 * MS_PER_SECOND
    && c.frequencyMs % MS_PER_SECOND == 0
  }

  /**
    The configuration the page is generated with. In single-test mode the
    sliders are not shown and the defaults (1 minute, 10 seconds) are used;
    in continuous mode the slider values, which the widgets keep in range.
  */
  function FromSidebar(mode: Mode, sliderMin: int, sliderSec: int): (c: Config)
    requires mode == Continuous ==> InSliderRange(sliderMin, sliderSec)
    ensures Valid(c)
    ensures c.continuous <==> mode == Continuous
    ensures mode == SingleTest ==> c.durationMs == MS_PER_MINUTE && c.frequencyMs == 10 * MS_PER_SECOND
    ensures mode == Continuous ==>
              c.durationMs / MS_PER_MINUTE == sliderMin && c.frequencyMs / MS_PER_SECOND == sliderSec
  {
    var durationMin := if mode == Continuous then sliderMin else DEFAULT_DURATION_MIN;
    var freqSec := if mode == Continuous then sliderSec else DEFAULT_FREQ_SEC;
    Config(mode == Continuous, durationMin * 60 * 1000, freqSec * 1000)
  }
}
