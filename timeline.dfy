/**
 * Values shared by both filmstrip elements: the frame events of a WebPageTest
 * timeline, the parsed timeline document, axis labels, and the fixed-interval
 * time axis (the points 0, interval, 2*interval, ... up to an end, inclusive).
 */
module Timeline {

  /** One captured filmstrip frame: capture time in whole ms, image path, visual completeness in percent. */
  datatype FrameEvent = FrameEvent(time: int, image: string, visuallyComplete: int)

  /** The parsed timeline JSON: measured page url, summary link, visual-complete time in ms, sparse frames. */
  datatype Timeline = Timeline(url: string, summary: string, visualComplete: int, frames: seq<FrameEvent>)

  /** The one failure the sampling code can raise: reading `.time` of an array element that is not there. */
  datatype Failure = MissingFrame

  datatype Result<T> = Ok(value: T) | Err(error: Failure)

  /** A value that may be absent (`null` or `undefined`). */
  datatype Option<T> = None | Some(value: T)

  /** A cell of the timing row: the axis point in ms and the fraction digits its seconds text is formatted with. */
  datatype Label = Label(ms: int, digits: nat)

  /** The timing row for the first n axis points: point k is at k * interval ms. */
  function AxisLabels(n: nat, interval: int, digits: nat): (labels: seq<Label>)
    ensures |labels| == n
  {
    seq(n, k requires 0 <= k < n => Label(k * interval, digits))
  }

  /** Frame events in ascending capture order (the order the timeline JSON lists them in). */
  predicate Sorted(e: seq<FrameEvent>)
  {
    forall i, j :: 0 <= i < j < |e| ==> e[i].time <= e[j].time
  }

  /** Number of axis points k * interval (k = 0, 1, ...) that are at most `end`. */
  function AxisPointCount(end: int, interval: int): (n: nat)
    requires interval > 0
    ensures n == 0 <==> end < 0
  {
    if end < 0 then 0 else end / interval + 1
  }

  lemma MulLe(a: int, b: int, c: int)
    requires a <= b && 0 <= c
    ensures a * c <= b * c
  {
    assert b * c - a * c == (b - a) * c;
  }

  /** Axis point k as the sampling loops reach it: `current` starts at 0 and grows by `interval` per step. */
  function Point(k: nat, interval: int): int
  {
    if k == 0 then 0 else Point(k - 1, interval) + interval
  }

  lemma {:induction false} PointIsMultiple(k: nat, interval: int)
    ensures Point(k, interval) == k * interval
  {
    if k > 0 {
      PointIsMultiple(k - 1, interval);
      assert k * interval == (k - 1) * interval + interval;
    }
  }

  /** The axis has one point for each multiple of the interval from 0 up to `end` inclusive, and no other. */
  lemma AxisPointsUpToEnd(end: int, interval: int, k: nat)
    requires interval > 0
    ensures k < AxisPointCount(end, interval) <==> k * interval <= end
  {
    if end >= 0 {
      var q := end / interval;
      assert end == q * interval + end % interval;
      if k <= q {
        MulLe(k, q, interval);
      } else {
        MulLe(q + 1, k, interval);
        assert (q + 1) * interval == q * interval + interval;
      }
    } else {
      MulLe(0, k, interval);
    }
  }

  /** A loop that stopped after n points, the last within `end` and the next beyond it, visited the whole axis. */
  lemma AxisPointCountExact(end: int, interval: int, n: nat)
    requires interval > 0
    requires n * interval > end
    requires n == 0 || (n - 1) * interval <= end
    ensures n == AxisPointCount(end, interval)
  {
    AxisPointsUpToEnd(end, interval, n);
    if n > 0 {
      AxisPointsUpToEnd(end, interval, n - 1);
    } else {
      AxisPointsUpToEnd(end, interval, 0);
    }
  }

  /** A loop from 0 in steps of `interval` that stops at the first point past `end` visited every axis point. */
  lemma AxisWalked(end: int, interval: int, n: nat)
    requires interval > 0
    requires Point(n, interval) > end
    requires n == 0 || Point(n, interval) - interval <= end
    ensures n == AxisPointCount(end, interval)
  {
    PointIsMultiple(n, interval);
    if n > 0 {
      assert n * interval == (n - 1) * interval + interval;
    }
    AxisPointCountExact(end, interval, n);
  }
}
