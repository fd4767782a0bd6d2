# Consistent Speedtest: a Dafny model of the measurement core

The Streamlit page `app.py` generates a browser script. That script measures a
connection against Cloudflare's speed-test endpoints. This project models the part
of that script that has behaviour:

- how one measurement turns raw timings into ping, jitter, download Mbps and
  upload Mbps;
- how a run is started, paced by an interval timer, and stopped, in single-test
  and continuous mode;
- the append-only test history and the window of it that is saved;
- the countdown and progress-bar arithmetic, and the configuration constants.

Network answers and clock readings are parameters. A `Fetch` value is either a
timing or the message an awaited call threw. `now` stands for a `Date.now()`
reading. The five probe times, the download's blob size and duration, the upload
duration and the locale time string are bundled in `Sampler.Observations`.

Modules, one per component:

- `Settings`: the sidebar's mode and sliders, and the constants `CONTINUOUS`,
  `DURATION_MS` and `FREQUENCY_MS` built from them.
- `Metrics`: the minimum, the jitter reduce and the Mbps formula, as pure
  functions over `real`.
- `Countdown`: the arithmetic in `updateProgress`.
- `Sampler`: `runSingleTest` as a function `Measure` from observations to a
  sample or an error.
- `History`: how a measurement extends the history, and `slice(-100)`.
- `Controller`: `startTest`, one firing of the interval callback, `stopTest`
  and `updateProgress` as pure state transitions, with lemmas about whole runs.
- `Page`: the class `SpeedTest`. Its fields are the script's module-level
  variables and its methods follow the script statement by statement.
  `StartTest`, `OnTick`, `StopTest` and `UpdateProgress` are proved to match the
  corresponding `Controller` transition. `RunSingleTest` is proved to append
  exactly `History.Record(…, Sampler.Measure(o))`. `SaveHistory` is proved to
  write exactly `History.Persisted`.

Notes on the code that shape the model:

- The jitter divides by `pings.length - 1`, so a single probe would divide by
  zero. The probe loop always makes five probes, so `Jitter` requires at least two.
- The interval callback is `async` and `setInterval` does not await it, so
  firings can overlap an in-flight measurement. The model runs each firing to
  completion.
- The duration is checked when the timer fires, before measuring
  (`Controller.Tick`), not after a measurement completes.
- `setInterval` is armed only after the first measurement returns, so the
  firings come at the start time plus that measurement's duration plus whole
  periods (`Controller.ContinuousSchedule`).
- There is no way to clear the history.
- Throughput is computed as `(bytes*8/1e6)/seconds`. This equals bits per second
  divided by one million (`Metrics.MbpsIsBitsPerSecond`).

## Model

| member | source | states |
|---|---|---|
| `Settings.FromSidebar` | app.py:28-32 | Single-test mode uses 1 min and 10 s. Continuous mode uses the slider values, which can be read back from the millisecond constants. Every configuration has a duration of 1-60 whole minutes and a frequency of 2-120 whole seconds. |
| `Metrics.Ping` | app.py:211-217 | The ping is at most every probe time and equals one of them. |
| `Metrics.AbsDiffSum` | app.py:218 | The reduce over adjacent absolute differences is never negative. |
| `Metrics.Jitter` | app.py:218 | The jitter is never negative. |
| `Metrics.JitterZeroIffConstant` | app.py:218 | The jitter is 0 exactly when all probe times are equal (both directions). |
| `Metrics.JitterAtMostSpread` | app.py:217-218 | The jitter is at most the slowest probe minus the ping. |
| `Metrics.AlternatingProbesExample` | app.py:217-218 | Probes 10, 20, 10, 20 give a ping of 10 and a jitter of 10. |
| `Metrics.Mbps` | app.py:222-226 | The rate is never negative, and rate × seconds equals the megabits transferred (the inverse of the formula). |
| `Metrics.MbpsIsBitsPerSecond` | app.py:225-226 | The code's formula equals bits per second divided by one million. |
| `Metrics.MbpsAntitone` | app.py:225-226 | A longer transfer of the same payload never gives a higher rate. |
| `Metrics.PayloadExamples` | app.py:223-234 | The 25,000,000-byte download in 2000 ms is exactly 100 Mbps. The 5,000,000-byte upload in 400 ms is also 100 Mbps. |
| `Countdown.Ceil` | app.py:278 | `Math.ceil` gives the least integer not below its argument. |
| `Countdown.Progress` | app.py:274-275 | The bar is at most 100 %. It is 100 % exactly when the duration has elapsed. Before that it is proportional to the elapsed time. |
| `Countdown.Remaining` | app.py:278 | The seconds left are never negative. They are the least whole number of seconds that covers the rest of the duration. |
| `Countdown.Split` | app.py:279-280 | mins·60 + secs equals the seconds left, with 0 ≤ secs < 60. |
| `Countdown.Show` | app.py:272-281 | One refresh shows the bar `Progress` gives (at most 100 %) and a minutes/seconds split of the seconds left (0 ≤ secs < 60). |
| `Countdown.BarFullIffNothingLeft` | app.py:275-281 | The bar is full exactly when the text shows 0m 0s. |
| `Countdown.ShownTimeWithinDuration` | app.py:278-281 | While the clock has not gone backwards, the countdown shows at most the configured duration (never more than 60m 0s). At the start it shows exactly the configured minutes. |
| `Sampler.ProbeTimes` | app.py:211-216 | Without a throw the loop collects exactly one time per probe, in order. Otherwise the error is the message of the first probe that threw, and all earlier probes succeeded. |
| `Sampler.ProbeFailureIsFinal` | app.py:212-216 | Once a probe throws, the remaining probes do not change the outcome. |
| `Sampler.Measure` | app.py:205-255 | A measurement succeeds exactly when no probe, the download or the upload threw. A sample carries the time string and non-negative metrics. Its ping is the smallest probe time and its jitter is `Jitter` of the probe times. Its download rate is `Mbps` of the blob size and download time, and its upload rate is `Mbps` of the 5,000,000-byte payload and upload time. The error is the message of the first step that threw: a probe, else the download, else the upload. |
| `Sampler.MeasuredJitter` | app.py:217-218 | A recorded jitter is at most the probe spread. It is 0 exactly when all five probes returned the same time. |
| `History.Record` | app.py:244-254 | A successful measurement appends exactly one record at the end and leaves earlier records unchanged. A caught error leaves the history as it was. |
| `History.LastHundred` | app.py:370 | The saved window holds min(100, length) records. They are the newest records, in their original order. |
| `History.Persisted` | app.py:368-372 | Nothing is written for an empty history. Otherwise exactly `LastHundred` of the history is written: 1 to 100 records, ending with the newest one. |
| `History.LastHundredOfAppend` | app.py:370 | The window after an append equals the previous window plus the new record, windowed again. |
| `History.LastHundredIdempotent` | app.py:370 | Windowing an already-saved window changes nothing. |
| `Controller.Initial` | app.py:108-112 | A freshly loaded page is idle, has no start time and has an empty history. |
| `Controller.StartMs` | app.py:308 | In `Date.now() - startTime`, a null start time counts as 0. |
| `Controller.Stop` | app.py:326-335 | After a stop the page is idle: not running and no timer installed. The start time and the history are unchanged. |
| `Controller.Start` | app.py:284-324 | Starting while running changes nothing. Otherwise the start time is now and exactly one measurement is recorded. Continuous mode then arms the test timer at the configured frequency and the progress timer at 1 s. Single-test mode ends idle. |
| `Controller.Tick` | app.py:304-317 | A firing measures exactly when running and the duration has not elapsed. It stops the run without measuring exactly when running and the duration has elapsed. Otherwise it changes nothing. The start time never changes. |
| `Controller.Progress` | app.py:272-278 | Nothing is shown while the start time is null or 0. Otherwise the bar is `Countdown.Progress` of the time since the start (at most 100 %), and the text splits the seconds left. |
| `Controller.RunTicks` | app.py:304-317 | Over any sequence of firings the history only grows. Earlier records stay as they were. It grows by at most one record per measuring firing, and by exactly one per measuring firing when every measurement succeeds. |
| `Controller.FiringBeforeDuration` | app.py:308 | With the timer armed some delay after the start, its k-th firing falls before the duration exactly when k ≤ m, where m is the number of firings before the duration. |
| `Controller.RunUntilDeadline` | app.py:304-317 | When exactly the first m firings of a running run fall before the duration, those m measure once each. The next firing ends the run, and later ones do nothing. |
| `Controller.ContinuousSchedule` | app.py:297-317 | The timer is armed only after the first measurement returns, so it fires at start + delay + k periods. When m of those firings fall before the duration, they measure once each. The next firing ends the run, and later ones do nothing. |
| `Controller.MinuteAtTenSeconds` | app.py:297-317 | A 1-minute run at 10 s from a fresh page, whose first measurement takes under 10 s, measures at the start and at the next five firings. The sixth firing ends it. With every measurement succeeding, the history holds 6 records. |
| `Controller.MinuteAtTenSecondsSlowStart` | app.py:297-317 | If the first measurement of that run takes 12 s, only four firings (22-52 s) measure, and the one at 62 s ends the run. |
| `Controller.FrequencyBeyondDuration` | app.py:297-317 | With a 1-minute duration and a 120 s frequency, the first firing ends the run whatever the first measurement took, so only the initial measurement is made. |
| `Controller.SingleTestRun` | app.py:296-323 | A single-test run from a fresh page ends idle with one record on success and none on failure. |
| `Controller.StoppedRunIgnoresTicks` | app.py:305 | After a stop, any number of later firings change nothing and measure nothing. |
| `Page.SpeedTest.constructor` | app.py:104-112 | A freshly loaded page is idle with an empty history and uses the given constants. |
| `Page.SpeedTest.RunSingleTest` | app.py:205-255 | The probe loop, download and upload append exactly the sample `Measure` gives. They return true on success. After a throw they return false with the history unchanged. |
| `Page.SpeedTest.StopTest` | app.py:326-342 | The fields change exactly as `Controller.Stop` says. |
| `Page.SpeedTest.StartTest` | app.py:284-324 | The fields and the outcome are exactly those of `Controller.Start`. |
| `Page.SpeedTest.OnTick` | app.py:304-317 | The fields and the outcome are exactly those of `Controller.Tick`. |
| `Page.SpeedTest.UpdateProgress` | app.py:272-282 | The values shown are those of `Controller.Progress`. |
| `Page.SpeedTest.SaveHistory` | app.py:368-372 | The storage slot gets the window of the history when the history is non-empty. Otherwise it keeps its old content. |

## Left out

- Page setup, CSS, the sidebar widgets and the HTML layout (app.py:1-101, 376-382): presentation only.
- Chart.js (`initChart`, `updateLegend`, `toggleMetric`, `updateChart`) and the DOM writes of `updateHistoryDisplay` and the status text: presentation only.
- The `fetch` calls, `performance.now()`, `Date.now()` and `toLocaleTimeString()`: network and clocks. Their results are parameters.
- Overlap of firings: the interval callback is `async` and not awaited, so a firing can start while an earlier measurement is in flight. Each firing is modelled as atomic.
- The race in which `stopTest` runs while `startTest` awaits its first measurement: the timers are then still installed afterwards. This is concurrency, and is not modelled.
- Interval handles are modelled by their period (`Timer`). Handle identities and `clearInterval` on them are not modelled.
- `toFixed(1)` rounding and strings in the history: records hold reals.
- IEEE edge cases: a zero transfer time (giving `Infinity`), NaN, and float rounding. `Sampler.WellFormed` requires transfer times above zero and probe times not below zero, as a monotonic clock reports them.
- Restoring the history from browser storage in `window.onload` and the JSON encoding (app.py:345-365): only the saved window (`History.LastHundred`) and the slot it is written to are modelled.
- `Metrics.Jitter`: does not model the NaN from a one-probe list, because the probe loop always makes five probes.
