/**
 * The sampling loop of `WPTEmbedFilmstrip.buildFilmstrip`. It keeps the event
 * on show (`currentMeta`) and the one after it (`nextMeta`), and walks the axis
 * 0, interval, ... up to visualComplete inclusive. At each point it moves on
 * to `nextMeta` at most once, when the point is strictly after the time of
 * `nextMeta`, and shows the event then current. Reading `nextMeta.time` once
 * the events have run out throws a TypeError.
 */
module EmbedSampling {
  import opened Timeline
  import Resampling

  /** `Array.prototype.shift`: the first element (undefined when empty) and the rest. */
  function Shift(q: seq<FrameEvent>): (r: (Option<FrameEvent>, seq<FrameEvent>))
    ensures r.0.None? <==> q == []
    ensures r.0.Some? ==> [r.0.value] + r.1 == q
    ensures r.0.None? ==> r.1 == []
  {
    if q == [] then (None, []) else (Some(q[0]), q[1..])
  }

  /** Index of the event on show before the next point, given the indices shown so far. */
  function Before(cs: seq<nat>): nat
  {
    if cs == [] then 0 else cs[|cs| - 1]
  }

  /**
   * The indices of the events shown at the first n axis points, or None when
   * one of these points throws because the event on show has no successor.
   */
  function Run(e: seq<FrameEvent>, interval: int, n: nat): (r: Option<seq<nat>>)
    requires e != []
    ensures r.Some? ==> |r.value| == n && Before(r.value) < |e|
  {
    if n == 0 then Some([])
    else match Run(e, interval, n - 1)
      case None => None
      case Some(cs) =>
        var c := Before(cs);
        if c + 1 < |e| then
          Some(cs + [if Point(n - 1, interval) > e[c + 1].time then c + 1 else c])
        else None
  }

  /** Every shown index is a valid index of `e`. */
  lemma {:induction false} RunInRange(e: seq<FrameEvent>, interval: int, n: nat)
    requires e != [] && Run(e, interval, n).Some?
    ensures forall k :: 0 <= k < n ==> Run(e, interval, n).value[k] < |e|
  {
    if n > 0 {
      RunInRange(e, interval, n - 1);
    }
  }

  /** A run that got through n points got through every shorter prefix of them, showing the same events. */
  lemma {:induction false} RunPrefix(e: seq<FrameEvent>, interval: int, m: nat, n: nat)
    requires e != [] && m <= n && Run(e, interval, n).Some?
    ensures Run(e, interval, m).Some? && Run(e, interval, m).value == Run(e, interval, n).value[..m]
    decreases n
  {
    if m < n {
      RunPrefix(e, interval, m, n - 1);
      var cs := Run(e, interval, n - 1).value;
      assert Run(e, interval, n).value[..n - 1] == cs;
      assert Run(e, interval, n).value[..m] == cs[..m];
    } else {
      assert Run(e, interval, n).value[..n] == Run(e, interval, n).value;
    }
  }

  /**
   * The event shown at point k starts the timeline or was captured strictly
   * before that point.
   */
  lemma {:induction false} ShownIsCaptured(e: seq<FrameEvent>, interval: int, n: nat)
    requires e != [] && interval > 0 && Run(e, interval, n).Some?
    ensures var cs := Run(e, interval, n).value;
      forall k :: 0 <= k < n ==> cs[k] < |e| && (cs[k] == 0 || e[cs[k]].time < Point(k, interval))
  {
    if n > 0 {
      ShownIsCaptured(e, interval, n - 1);
      var cs := Run(e, interval, n - 1).value;
      var r := Run(e, interval, n).value;
      assert r == cs + [r[n - 1]];
      ShownLastIsCaptured(e, interval, n);
      forall k | 0 <= k < n - 1
        ensures r[k] < |e| && (r[k] == 0 || e[r[k]].time < Point(k, interval))
      {
        assert r[k] == cs[k];
      }
    }
  }

  lemma ShownLastIsCaptured(e: seq<FrameEvent>, interval: int, n: nat)
    requires e != [] && interval > 0 && n > 0 && Run(e, interval, n).Some?
    requires var cs := Run(e, interval, n - 1).value;
      forall k :: 0 <= k < n - 1 ==> cs[k] < |e| && (cs[k] == 0 || e[cs[k]].time < Point(k, interval))
    ensures var c := Run(e, interval, n).value[n - 1];
      c < |e| && (c == 0 || e[c].time < Point(n - 1, interval))
    ensures var b, c := Before(Run(e, interval, n - 1).value), Run(e, interval, n).value[n - 1];
      && b + 1 < |e|
      && (c == b || c == b + 1)
      && (c == b + 1 <==> e[b + 1].time < Point(n - 1, interval))
  {
    var cs := Run(e, interval, n - 1).value;
    var c := Before(cs);
    var r := Run(e, interval, n).value;
    if r[n - 1] == c && c > 0 {
      assert c == cs[n - 2];
      assert Point(n - 2, interval) <= Point(n - 1, interval);
    }
  }

  /** The embed element moves on by at most one event per point, so it lags when events are denser than the axis. */
  lemma {:induction false} OneStepPerPoint(e: seq<FrameEvent>, interval: int, n: nat)
    requires e != [] && Run(e, interval, n).Some?
    ensures var cs := Run(e, interval, n).value;
      forall k :: 0 <= k < n ==> Before(cs[..k]) <= cs[k] <= Before(cs[..k]) + 1
  {
    if n > 0 {
      OneStepPerPoint(e, interval, n - 1);
      var cs := Run(e, interval, n - 1).value;
      var r := Run(e, interval, n).value;
      assert r == cs + [r[n - 1]];
      forall k | 0 <= k < n
        ensures Before(r[..k]) <= r[k] <= Before(r[..k]) + 1
      {
        if k < n - 1 {
          assert r[..k] == cs[..k];
          assert r[k] == cs[k];
        } else {
          assert r[..k] == cs;
        }
      }
    }
  }

  /**
   * The embed element never runs ahead of `getFrames`: the event it shows at a
   * point has an index at most that of the last event captured before the
   * point, whatever the order of the events.
   */
  lemma EmbedNeverAhead(e: seq<FrameEvent>, interval: int, n: nat, k: nat)
    requires e != [] && interval > 0 && Run(e, interval, n).Some? && k < n
    ensures Run(e, interval, n).value[k] <= Resampling.LastBefore(e, k * interval)
  {
    ShownIsCaptured(e, interval, n);
    PointIsMultiple(k, interval);
    Resampling.LastBeforeIsLast(e, k * interval);
  }

  /**
   * When a run gets through all n points, the last event of the timeline is
   * shown at most at the final point: showing it earlier makes the next point
   * read the time of a successor that does not exist.
   */
  lemma LastEventOnlyAtEnd(e: seq<FrameEvent>, interval: int, n: nat, k: nat)
    requires e != [] && Run(e, interval, n).Some? && k + 1 < n
    ensures Run(e, interval, n).value[k] < |e| - 1
  {
    RunInRange(e, interval, n);
    RunPrefix(e, interval, k + 1, n);
    RunPrefix(e, interval, k + 2, n);
    var cs := Run(e, interval, k + 1).value;
    assert Before(cs) == Run(e, interval, n).value[k];
  }

  /** A timeline with a single frame throws at the first point. */
  lemma SingleFrameThrows(e: seq<FrameEvent>, interval: int, n: nat)
    requires |e| == 1 && n > 0
    ensures Run(e, interval, n).None?
  {
    if n > 1 {
      SingleFrameThrows(e, interval, n - 1);
    }
  }

  /** Outcome of the sampling loop. */
  datatype Build =
    | NoFrame                                               // no first event: return before the loop
    | Thrown                                                // TypeError reading `nextMeta.time`
    | Built(frames: seq<FrameEvent>, labels: seq<Label>)    // the filmstrip and timing rows

  /** What the loop of `buildFilmstrip` yields for a timeline. */
  function Embedded(e: seq<FrameEvent>, visualComplete: int, interval: int, digits: nat): (b: Build)
    requires interval > 0
    ensures b.NoFrame? <==> e == []
    ensures b.Built? ==> |b.frames| == |b.labels| == AxisPointCount(visualComplete, interval)
  {
    if e == [] then NoFrame
    else match Run(e, interval, AxisPointCount(visualComplete, interval))
      case None => Thrown
      case Some(cs) =>
        RunInRange(e, interval, |cs|);
        Built(seq(|cs|, k requires 0 <= k < |cs| => e[cs[k]]), AxisLabels(|cs|, interval, digits))
  }

  /**
   * What the loop promises: no event means no output; otherwise either a
   * TypeError or one frame and one timing label per point of the axis
   * 0..visualComplete, each label at its point and each frame the event the
   * run shows there.
   */
  lemma EmbeddedFacts(e: seq<FrameEvent>, visualComplete: int, interval: int, digits: nat)
    requires interval > 0
    ensures Embedded(e, visualComplete, interval, digits).NoFrame? <==> e == []
    ensures |e| == 1 && visualComplete >= 0 ==> Embedded(e, visualComplete, interval, digits).Thrown?
    ensures var b := Embedded(e, visualComplete, interval, digits);
      b.Built? ==>
        && |b.frames| == |b.labels| == AxisPointCount(visualComplete, interval)
        && (forall k :: 0 <= k < |b.labels| ==> b.labels[k] == Label(k * interval, digits))
        && (forall k :: 0 <= k < |b.frames| ==>
              exists i :: 0 <= i <= Resampling.LastBefore(e, k * interval) && b.frames[k] == e[i])
  {
    var n := AxisPointCount(visualComplete, interval);
    if |e| == 1 && visualComplete >= 0 {
      AxisPointsUpToEnd(visualComplete, interval, 0);
      SingleFrameThrows(e, interval, n);
    }
    if e != [] && Run(e, interval, n).Some? {
      BuiltFramesLag(e, interval, n, digits);
    }
  }

  /** The frames of a surviving walk of n points: each is an event no later than the last one before its point. */
  lemma BuiltFramesLag(e: seq<FrameEvent>, interval: int, n: nat, digits: nat)
    requires e != [] && interval > 0 && Run(e, interval, n).Some?
    ensures var cs := Run(e, interval, n).value;
      forall k :: 0 <= k < n ==>
        && cs[k] < |e|
        && exists i :: 0 <= i <= Resampling.LastBefore(e, k * interval) && e[cs[k]] == e[i]
  {
    var cs := Run(e, interval, n).value;
    RunInRange(e, interval, n);
    forall k | 0 <= k < n
      ensures cs[k] < |e| && exists i :: 0 <= i <= Resampling.LastBefore(e, k * interval) && e[cs[k]] == e[i]
    {
      EmbedNeverAhead(e, interval, n, k);
    }
  }

  ghost predicate Walking(e: seq<FrameEvent>, interval: int, digits: nat, end: int,
                          frames: seq<FrameEvent>, timings: seq<Label>, queue: seq<FrameEvent>,
                          cur: FrameEvent, next: Option<FrameEvent>, current: int, cs: seq<nat>)
  {
    && e != []
    && Run(e, interval, |frames|) == Some(cs)
    && cur == e[Before(cs)]
    && next == (if Before(cs) + 1 < |e| then Some(e[Before(cs) + 1]) else None)
    && queue == (if Before(cs) + 2 <= |e| then e[Before(cs) + 2..] else [])
    && current == Point(|frames|, interval)
    && (|frames| == 0 || current - interval <= end)
    && |timings| == |frames| == |cs|
    && (forall k :: 0 <= k < |cs| ==> cs[k] < |e| && frames[k] == e[cs[k]])
    && (forall k :: 0 <= k < |timings| ==> timings[k] == Label(Point(k, interval), digits))
  }

  /** The prefix facts every branch of the loop body keeps. */
  lemma WalkRecords(e: seq<FrameEvent>, interval: int, digits: nat, end: int,
                    frames: seq<FrameEvent>, timings: seq<Label>, queue: seq<FrameEvent>,
                    cur: FrameEvent, next: FrameEvent, current: int, cs: seq<nat>, c: nat)
    requires Walking(e, interval, digits, end, frames, timings, queue, cur, Some(next), current, cs)
    requires c < |e|
    ensures var f, t, cs' := frames + [e[c]], timings + [Label(current, digits)], cs + [c];
      && |t| == |f| == |cs'|
      && (forall k :: 0 <= k < |cs'| ==> cs'[k] < |e| && f[k] == e[cs'[k]])
      && (forall k :: 0 <= k < |t| ==> t[k] == Label(Point(k, interval), digits))
  {
    var f, t, cs' := frames + [e[c]], timings + [Label(current, digits)], cs + [c];
    forall k | 0 <= k < |cs'|
      ensures cs'[k] < |e| && f[k] == e[cs'[k]]
    {
      if k < |cs| {
        assert cs'[k] == cs[k] && f[k] == frames[k];
      }
    }
    forall k | 0 <= k < |t|
      ensures t[k] == Label(Point(k, interval), digits)
    {
      if k < |timings| {
        assert t[k] == timings[k];
      }
    }
  }

  /** The two `shift`s before the loop leave the walk at its first point. */
  lemma WalkBegin(e: seq<FrameEvent>, interval: int, digits: nat, end: int)
    requires e != []
    ensures Walking(e, interval, digits, end, [], [], Shift(Shift(e).1).1, Shift(e).0.value, Shift(Shift(e).1).0, 0, [])
  {
    assert Shift(e) == (Some(e[0]), e[1..]);
    if |e| >= 2 {
      assert Shift(e[1..]) == (Some(e[1]), e[2..]);
    } else {
      assert e[1..] == [];
    }
  }

  lemma WalkAdvance(e: seq<FrameEvent>, interval: int, digits: nat, end: int,
                    frames: seq<FrameEvent>, timings: seq<Label>, queue: seq<FrameEvent>,
                    cur: FrameEvent, next: FrameEvent, current: int, cs: seq<nat>)
    requires Walking(e, interval, digits, end, frames, timings, queue, cur, Some(next), current, cs)
    requires current <= end && current > next.time
    ensures Walking(e, interval, digits, end, frames + [next], timings + [Label(current, digits)],
                    Shift(queue).1, next, Shift(queue).0, current + interval, cs + [Before(cs) + 1])
  {
    var c := Before(cs) + 1;
    assert Run(e, interval, |frames| + 1) == Some(cs + [c]);
    assert Before(cs + [c]) == c;
    if c + 1 < |e| {
      assert queue == e[c + 1..];
      assert Shift(queue) == (Some(e[c + 1]), e[c + 2..]);
    } else {
      assert Shift(queue) == (None, []);
    }
    WalkRecords(e, interval, digits, end, frames, timings, queue, cur, next, current, cs, c);
  }

  lemma WalkStay(e: seq<FrameEvent>, interval: int, digits: nat, end: int,
                 frames: seq<FrameEvent>, timings: seq<Label>, queue: seq<FrameEvent>,
                 cur: FrameEvent, next: FrameEvent, current: int, cs: seq<nat>)
    requires Walking(e, interval, digits, end, frames, timings, queue, cur, Some(next), current, cs)
    requires current <= end && current <= next.time
    ensures |frames| > 0 ==> frames[|frames| - 1] == cur
    ensures Walking(e, interval, digits, end, frames + [cur], timings + [Label(current, digits)],
                    queue, cur, Some(next), current + interval, cs + [Before(cs)])
  {
    if |frames| > 0 {
      assert frames[|frames| - 1] == e[cs[|cs| - 1]];
    }
    var c := Before(cs);
    assert Run(e, interval, |frames| + 1) == Some(cs + [c]);
    assert Before(cs + [c]) == c;
    WalkRecords(e, interval, digits, end, frames, timings, queue, cur, next, current, cs, c);
  }

  /** A finished walk produced exactly the frames and labels `Embedded` describes. */
  lemma WalkDone(e: seq<FrameEvent>, interval: int, digits: nat, visualComplete: int,
                 frames: seq<FrameEvent>, timings: seq<Label>, queue: seq<FrameEvent>,
                 cur: FrameEvent, next: Option<FrameEvent>, current: int, cs: seq<nat>)
    requires interval > 0
    requires Walking(e, interval, digits, visualComplete, frames, timings, queue, cur, next, current, cs)
    requires current > visualComplete
    ensures Embedded(e, visualComplete, interval, digits) == Built(frames, timings)
  {
    AxisWalked(visualComplete, interval, |frames|);
    var labels := AxisLabels(|cs|, interval, digits);
    forall k | 0 <= k < |cs|
      ensures timings[k] == labels[k]
    {
      PointIsMultiple(k, interval);
    }
    assert timings == labels;
    assert frames == seq(|cs|, k requires 0 <= k < |cs| => e[cs[k]]);
  }

  /** A walk that reads a missing `nextMeta` is the TypeError `Embedded` describes. */
  lemma WalkThrows(e: seq<FrameEvent>, interval: int, digits: nat, visualComplete: int,
                   frames: seq<FrameEvent>, timings: seq<Label>, queue: seq<FrameEvent>,
                   cur: FrameEvent, current: int, cs: seq<nat>)
    requires interval > 0
    requires Walking(e, interval, digits, visualComplete, frames, timings, queue, cur, None, current, cs)
    requires current <= visualComplete
    ensures Embedded(e, visualComplete, interval, digits) == Thrown
  {
    var n := AxisPointCount(visualComplete, interval);
    PointIsMultiple(|frames|, interval);
    AxisPointsUpToEnd(visualComplete, interval, |frames|);
    assert Run(e, interval, |frames| + 1).None?;
    RunThrowsLater(e, interval, |frames| + 1, n);
  }

  /** Once a point throws, every longer run throws. */
  lemma {:induction false} RunThrowsLater(e: seq<FrameEvent>, interval: int, m: nat, n: nat)
    requires e != [] && m <= n && Run(e, interval, m).None?
    ensures Run(e, interval, n).None?
  {
    if n > m {
      RunThrowsLater(e, interval, m, n - 1);
    }
  }

  /**
   * The loop of `buildFilmstrip` over the timeline `data`, with the current
   * interval and label precision: shift off the first two events, return when
   * there is none, then walk the axis up to visualComplete.
   */
  method SampleTimeline(data: Timeline, interval: int, digits: nat) returns (r: Build)
    requires interval > 0
    ensures r == Embedded(data.frames, data.visualComplete, interval, digits)
  {
    var e := data.frames;
    var framesMeta := e;
    var timings: seq<Label> := [];
    var frames: seq<FrameEvent> := [];
    var end := data.visualComplete;
    var current := 0;
    var s := Shift(framesMeta);
    var currentMeta := s.0;
    framesMeta := s.1;
    s := Shift(framesMeta);
    var nextMeta := s.0;
    framesMeta := s.1;
    if currentMeta.None? {
      return NoFrame;
    }
    var cur := currentMeta.value;
    ghost var cs: seq<nat> := [];
    WalkBegin(e, interval, digits, end);
    while current <= end
      invariant Walking(e, interval, digits, end, frames, timings, framesMeta, cur, nextMeta, current, cs)
      decreases end - current
    {
      if nextMeta.None? {
        WalkThrows(e, interval, digits, end, frames, timings, framesMeta, cur, current, cs);
        return Thrown;
      }
      var next := nextMeta.value;
      var shown: FrameEvent;
      if current > next.time {
        WalkAdvance(e, interval, digits, end, frames, timings, framesMeta, cur, next, current, cs);
        cur := next;
        s := Shift(framesMeta);
        nextMeta := s.0;
        framesMeta := s.1;
        shown := cur;
        cs := cs + [Before(cs) + 1];
      } else if |frames| == 0 {
        WalkStay(e, interval, digits, end, frames, timings, framesMeta, cur, next, current, cs);
        shown := cur;
        cs := cs + [Before(cs)];
      } else {
        WalkStay(e, interval, digits, end, frames, timings, framesMeta, cur, next, current, cs);
        shown := frames[|frames| - 1];
        cs := cs + [Before(cs)];
      }
      frames := frames + [shown];
      timings := timings + [Label(current, digits)];
      current := current + interval;
    }
    WalkDone(e, interval, digits, end, frames, timings, framesMeta, cur, nextMeta, current, cs);
    return Built(frames, timings);
  }
}
