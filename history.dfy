/**
  The test history: an append-only list of samples in completion order
  (app.py:112, 245-246), and the window of it that the five-second save timer
  writes to browser storage (app.py:368-372).
*/
module History {
  import opened Wrappers
  import opened Sampler

  const PERSIST_LIMIT := 100

  /** The history after one measurement: one record more on success, unchanged on a caught error. */
  function Record(h: seq<Sample>, m: Result<Sample>): (r: seq<Sample>)
    ensures |r| == |h| + (if m.Ok? then 1 else 0)
    ensures r[..|h|] == h
    ensures m.Ok? ==> r[|h|] == m.value
  {
    if m.Ok? then h + [m.value] else h
  }

  /**
    `testHistory.slice(-100)`: the newest `min(100, |h|)` records, in their
    original order.
  */
  function LastHundred(h: seq<Sample>): (w: seq<Sample>)
    ensures |w| == (if |h| < PERSIST_LIMIT then |h| else PERSIST_LIMIT)
    ensures forall i :: 0 <= i < |w| ==> w[i] == h[|h| - |w| + i]
  {
    var start := if |h| - PERSIST_LIMIT > 0 then |h| - PERSIST_LIMIT else 0;
    h[start..]
  }

  /** What one run of the save timer writes: nothing for an empty history. */
  function Persisted(h: seq<Sample>): (saved: Option<seq<Sample>>)
    ensures saved.None? <==> h == []
    ensures saved.Some? ==> saved.value == LastHundred(h)
    ensures saved.Some? ==> 0 < |saved.value| <= PERSIST_LIMIT && saved.value[|saved.value| - 1] == h[|h| - 1]
  {
    if |h| > 0 then Some(LastHundred(h)) else None
  }

  /**
    The window of a longer history can be kept incrementally: the last hundred
    after an append are the last hundred of (the previous window plus the new
    record).
  */
  lemma LastHundredOfAppend(h: seq<Sample>, s: Sample)
    ensures LastHundred(h + [s]) == LastHundred(LastHundred(h) + [s])
  {
    var a, b := LastHundred(h + [s]), LastHundred(LastHundred(h) + [s]);
    assert |a| == |b|;
    forall i | 0 <= i < |a|
      ensures a[i] == b[i]
    {
      if i == |a| - 1 {
        assert a[i] == s == b[i];
      } else {
        var w := LastHundred(h);
        assert a[i] == h[|h| + 1 - |a| + i];
        assert b[i] == w[|w| + 1 - |b| + i];
      }
    }
  }

  /**
    Windowing a history that is already a saved window (as after `onload`
    restores one) returns it unchanged.
  */
  lemma LastHundredIdempotent(h: seq<Sample>)
    ensures LastHundred(LastHundred(h)) == LastHundred(h)
  {
  }
}
