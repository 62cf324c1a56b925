/**
 * `WPTTest.getFrames`: the sparse frame events of one timeline resampled onto
 * the fixed-interval axis 0, interval, 2*interval, ... up to
 * visualComplete + interval inclusive. A queue of events is walked forward by
 * `advanceTo(cutoff)`, which shifts the head off while the head AND the event
 * after it are both strictly before the cutoff, and then shows the head.
 *
 * For events in ascending time order (the order a timeline lists them in) this
 * is last-observation-carry-forward: each point shows the last event captured
 * strictly before it, or the first event when none is.
 */
module Resampling {
  import opened Timeline

  /**
   * Reference definition: the last index whose event is strictly before `t`,
   * or 0 when no event is. Defined for any order of events.
   */
  function LastBefore(e: seq<FrameEvent>, t: int): (p: nat)
    requires |e| > 0
    ensures p < |e|
  {
    if |e| == 1 then 0
    else if e[|e| - 1].time < t then |e| - 1
    else LastBefore(e[..|e| - 1], t)
  }

  /** `LastBefore` is 0 or an event before `t`, and every later event is at or after `t`. */
  lemma {:induction false} LastBeforeIsLast(e: seq<FrameEvent>, t: int)
    requires |e| > 0
    ensures LastBefore(e, t) == 0 || e[LastBefore(e, t)].time < t
    ensures forall j :: LastBefore(e, t) < j < |e| ==> e[j].time >= t
  {
    if |e| > 1 && e[|e| - 1].time >= t {
      var f := e[..|e| - 1];
      LastBeforeIsLast(f, t);
      assert forall j :: 0 <= j < |f| ==> f[j] == e[j];
    }
  }

  /** The two properties of `LastBefore` determine it. */
  lemma LastBeforeUnique(e: seq<FrameEvent>, t: int, q: nat)
    requires q < |e|
    requires q == 0 || e[q].time < t
    requires forall j :: q < j < |e| ==> e[j].time >= t
    ensures q == LastBefore(e, t)
  {
    LastBeforeIsLast(e, t);
    var p := LastBefore(e, t);
    assert p <= q by {
      assert p == 0 || e[p].time < t;
    }
    assert q <= p by {
      assert q == 0 || e[q].time < t;
    }
  }

  /**
   * Number of events one call of `advanceTo(t)` shifts off a non-empty queue.
   */
  function Skip(e: seq<FrameEvent>, t: int): (n: nat)
    requires |e| > 0
    ensures n < |e|
  {
    if |e| > 1 && e[0].time < t && e[1].time < t then 1 + Skip(e[1..], t) else 0
  }

  /**
   * `advanceTo(t)` shifts only events before `t`, and stops at the first event
   * that is not before `t` or has no successor before `t`.
   */
  lemma {:induction false} SkipStops(e: seq<FrameEvent>, t: int)
    requires |e| > 0
    ensures Skip(e, t) == 0 || e[Skip(e, t)].time < t
    ensures forall j :: 0 <= j < Skip(e, t) ==> e[j].time < t
    ensures Skip(e, t) + 1 < |e| ==> e[Skip(e, t)].time >= t || e[Skip(e, t) + 1].time >= t
  {
    if |e| > 1 && e[0].time < t && e[1].time < t {
      var f := e[1..];
      SkipStops(f, t);
      assert forall j :: 0 <= j < |f| ==> f[j] == e[j + 1];
    }
  }

  /** On events in time order one call of `advanceTo(t)` lands on the last event before `t`. */
  lemma SkipIsLastBefore(e: seq<FrameEvent>, t: int)
    requires |e| > 0 && Sorted(e)
    ensures Skip(e, t) == LastBefore(e, t)
  {
    var n := Skip(e, t);
    SkipStops(e, t);
    forall j | n < j < |e|
      ensures e[j].time >= t
    {
      if e[n].time >= t {
        assert e[n].time <= e[j].time;
      } else {
        assert e[n + 1].time <= e[j].time;
      }
    }
    LastBeforeUnique(e, t, n);
  }

  /** Searching for the last event before `t` may start at any index that is 0 or before `t`. */
  lemma LastBeforeFrom(e: seq<FrameEvent>, c: nat, t: int)
    requires c < |e|
    requires c == 0 || e[c].time < t
    ensures c + LastBefore(e[c..], t) == LastBefore(e, t)
  {
    var s := e[c..];
    var p := LastBefore(s, t);
    LastBeforeIsLast(s, t);
    assert s[p] == e[c + p];
    forall j | c + p < j < |e|
      ensures e[j].time >= t
    {
      assert e[j] == s[j - c];
    }
    LastBeforeUnique(e, t, c + p);
  }

  /** Index of the queue head `advanceTo(current)` shows at axis point k, for any order of events. */
  function Cursor(e: seq<FrameEvent>, interval: int, k: nat): (c: nat)
    requires |e| > 0
    ensures c < |e|
  {
    if k == 0 then Skip(e, 0)
    else
      var p := Cursor(e, interval, k - 1);
      p + Skip(e[p..], Point(k, interval))
  }

  /** A suffix of events in time order is in time order. */
  lemma SortedSuffix(e: seq<FrameEvent>, p: nat)
    requires Sorted(e) && p <= |e|
    ensures Sorted(e[p..])
  {
    forall i, j | 0 <= i < j < |e[p..]|
      ensures e[p..][i].time <= e[p..][j].time
    {
      assert e[p..][i] == e[p + i] && e[p..][j] == e[p + j];
    }
  }

  /** One `advanceTo(t)` from the last event before an earlier cutoff lands on the last event before `t`. */
  lemma AdvanceFromLastBefore(e: seq<FrameEvent>, p: nat, t0: int, t: int)
    requires |e| > 0 && Sorted(e) && t0 <= t
    requires p == LastBefore(e, t0)
    ensures p + Skip(e[p..], t) == LastBefore(e, t)
  {
    LastBeforeIsLast(e, t0);
    SortedSuffix(e, p);
    SkipIsLastBefore(e[p..], t);
    LastBeforeFrom(e, p, t);
  }

  /** On events in time order, axis point k shows the last event captured strictly before it. */
  lemma {:induction false} CursorIsLastBefore(e: seq<FrameEvent>, interval: int, k: nat)
    requires |e| > 0 && Sorted(e) && interval > 0
    ensures Cursor(e, interval, k) == LastBefore(e, Point(k, interval))
  {
    if k == 0 {
      SkipIsLastBefore(e, 0);
    } else {
      CursorIsLastBefore(e, interval, k - 1);
      CursorAdvances(e, interval, k);
    }
  }

  lemma CursorAdvances(e: seq<FrameEvent>, interval: int, k: nat)
    requires |e| > 0 && Sorted(e) && interval > 0 && k > 0
    requires Cursor(e, interval, k - 1) == LastBefore(e, Point(k - 1, interval))
    ensures Cursor(e, interval, k) == LastBefore(e, Point(k, interval))
  {
    var t0, t := Point(k - 1, interval), Point(k, interval);
    assert t0 <= t;
    var p := Cursor(e, interval, k - 1);
    AdvanceFromLastBefore(e, p, t0, t);
    assert Cursor(e, interval, k) == p + Skip(e[p..], t);
  }

  /** The queue only moves forward: the head shown at a later axis point is never an earlier event, in any order of events. */
  lemma {:induction false} CursorMonotone(e: seq<FrameEvent>, interval: int, j: nat, k: nat)
    requires |e| > 0 && j <= k
    ensures Cursor(e, interval, j) <= Cursor(e, interval, k)
    decreases k
  {
    if j < k {
      CursorMonotone(e, interval, j, k - 1);
    }
  }

  /** Reference definition of last-observation-carry-forward on the axis 0, interval, ... up to visualComplete + interval. */
  function Locf(e: seq<FrameEvent>, visualComplete: int, interval: int): (r: Result<seq<FrameEvent>>)
    requires interval > 0
    ensures r.Err? <==> e == [] && visualComplete + interval >= 0
    ensures r.Ok? ==> |r.value| == AxisPointCount(visualComplete + interval, interval)
  {
    var n := AxisPointCount(visualComplete + interval, interval);
    if n == 0 then Ok([])
    else if e == [] then Err(MissingFrame)
    else Ok(seq(n, k requires 0 <= k < n => e[LastBefore(e, k * interval)]))
  }

  /** Each recorded frame k is the event at `Cursor(e, interval, k)`. */
  ghost predicate ShowsCursors(e: seq<FrameEvent>, interval: int, frames: seq<FrameEvent>)
  {
    forall k :: 0 <= k < |frames| ==> e != [] && frames[k] == e[Cursor(e, interval, k)]
  }

  /** On events in time order, frames that show the queue head at every axis point are the LOCF samples. */
  lemma CursorsAreLocf(e: seq<FrameEvent>, visualComplete: int, interval: int, frames: seq<FrameEvent>)
    requires Sorted(e) && interval > 0
    requires |frames| == AxisPointCount(visualComplete + interval, interval)
    requires |frames| > 0 ==> e != []
    requires ShowsCursors(e, interval, frames)
    ensures Locf(e, visualComplete, interval) == Ok(frames)
  {
    var n := |frames|;
    if n > 0 {
      var l := seq(n, k requires 0 <= k < n => e[LastBefore(e, k * interval)]);
      forall k | 0 <= k < n
        ensures frames[k] == l[k]
      {
        CursorIsLastBefore(e, interval, k);
        PointIsMultiple(k, interval);
      }
      assert frames == l;
    }
  }

  /**
   * `advanceTo(cutoff)` on the queue `meta`: the queue it leaves behind, whose
   * head it returns; reading `framesMeta[0].time` of an empty queue throws.
   */
  method AdvanceTo(meta: seq<FrameEvent>, cutoff: int) returns (r: Result<seq<FrameEvent>>)
    ensures r.Err? <==> meta == []
    ensures r.Ok? ==> r.value == meta[Skip(meta, cutoff)..]
    ensures r.Ok? && Sorted(meta) ==> r.value[0] == meta[LastBefore(meta, cutoff)]
  {
    if |meta| == 0 {
      return Err(MissingFrame);
    }
    var q := meta;
    if q[0].time < cutoff {
      while |q| > 1 && q[0].time < cutoff && q[1].time < cutoff
        invariant 0 < |q| <= |meta|
        invariant q == meta[|meta| - |q|..]
        invariant Skip(meta, cutoff) == (|meta| - |q|) + Skip(q, cutoff)
        decreases |q|
      {
        q := q[1..];
      }
    }
    if Sorted(meta) {
      SkipIsLastBefore(meta, cutoff);
    }
    return Ok(q);
  }

  /**
   * `getFrames(interval, frameCount)`: walks the axis from 0 while
   * current <= visualComplete + interval, advancing the queue to each point
   * and recording the head. `frameCount` is not read by the source. It throws
   * exactly when the axis has a point and the timeline no event; otherwise it
   * yields one frame per axis point, and on a timeline in time order these are
   * the LOCF samples.
   */
  method GetFrames(data: Timeline, interval: int, frameCount: int) returns (r: Result<seq<FrameEvent>>)
    requires interval > 0
    ensures r.Err? <==> data.frames == [] && data.visualComplete + interval >= 0
    ensures r.Ok? ==> |r.value| == AxisPointCount(data.visualComplete + interval, interval)
    ensures r.Ok? ==> ShowsCursors(data.frames, interval, r.value)
    ensures r.Ok? && Sorted(data.frames) ==> r == Locf(data.frames, data.visualComplete, interval)
  {
    var e := data.frames;
    var end := data.visualComplete + interval;
    var framesMeta := e;
    var frames: seq<FrameEvent> := [];
    var current := 0;
    ghost var c := 0;
    while current <= end
      invariant Walking(e, interval, end, frames, framesMeta, current, c)
      decreases end - current
    {
      var next := AdvanceTo(framesMeta, current);
      if next.Err? {
        assert |frames| == 0 && e == [] && current == 0;
        return Err(MissingFrame);
      }
      WalkStep(e, interval, end, frames, framesMeta, current, c);
      c := Cursor(e, interval, |frames|);
      framesMeta := next.value;
      frames := frames + [framesMeta[0]];
      current := current + interval;
    }
    assert e == [] ==> |frames| == 0 && end < 0;
    AxisWalked(end, interval, |frames|);
    if Sorted(e) {
      CursorsAreLocf(e, data.visualComplete, interval, frames);
    }
    return Ok(frames);
  }

  /** Loop invariant of `getFrames` after |frames| axis points, with `c` the index of the queue head. */
  ghost predicate Walking(e: seq<FrameEvent>, interval: int, end: int, frames: seq<FrameEvent>,
                          meta: seq<FrameEvent>, current: int, c: nat)
  {
    && current == Point(|frames|, interval)
    && (|frames| == 0 || current - interval <= end)
    && (|frames| == 0 ==> meta == e)
    && (|frames| > 0 ==> c < |e| && c == Cursor(e, interval, |frames| - 1) && meta == e[c..])
    && ShowsCursors(e, interval, frames)
  }

  /** One turn of the loop: advance the queue to `current`, record its head, move to the next point. */
  lemma WalkStep(e: seq<FrameEvent>, interval: int, end: int, frames: seq<FrameEvent>,
                 meta: seq<FrameEvent>, current: int, c: nat)
    requires Walking(e, interval, end, frames, meta, current, c)
    requires current <= end && meta != []
    ensures e != []
    ensures
      var next := meta[Skip(meta, current)..];
      Walking(e, interval, end, frames + [next[0]], next, current + interval, Cursor(e, interval, |frames|))
  {
    var k := |frames|;
    assert e != [] by {
      if k == 0 { assert meta == e; }
    }
    CursorStep(e, interval, k, meta);
    var c' := Cursor(e, interval, k);
    var next := meta[Skip(meta, current)..];
    assert next == e[c'..];
    ShowsNextCursor(e, interval, frames, next[0]);
    assert current + interval == Point(k + 1, interval);
  }

  lemma ShowsNextCursor(e: seq<FrameEvent>, interval: int, frames: seq<FrameEvent>, x: FrameEvent)
    requires ShowsCursors(e, interval, frames)
    requires e != [] && x == e[Cursor(e, interval, |frames|)]
    ensures ShowsCursors(e, interval, frames + [x])
  {
    var f := frames + [x];
    forall k | 0 <= k < |f|
      ensures f[k] == e[Cursor(e, interval, k)]
    {
      if k < |frames| {
        assert f[k] == frames[k];
      }
    }
  }

  /** The queue left by `advanceTo` at axis point k starts at `Cursor(e, interval, k)`. */
  lemma CursorStep(e: seq<FrameEvent>, interval: int, k: nat, meta: seq<FrameEvent>)
    requires e != [] && meta != []
    requires k == 0 ==> meta == e
    requires k > 0 ==> meta == e[Cursor(e, interval, k - 1)..]
    ensures meta[Skip(meta, Point(k, interval))..] == e[Cursor(e, interval, k)..]
  {
    if k > 0 {
      CursorNext(e, interval, k, Cursor(e, interval, k - 1));
    }
  }

  lemma CursorNext(e: seq<FrameEvent>, interval: int, k: nat, c: nat)
    requires k > 0 && c < |e| && c == Cursor(e, interval, k - 1)
    ensures e[c..][Skip(e[c..], Point(k, interval))..] == e[Cursor(e, interval, k)..]
  {
    var t := Point(k, interval);
    var n := Skip(e[c..], t);
    assert Cursor(e, interval, k) == c + n;
  }

  /**
   * Three events at 0, 200 and 500 ms, visualComplete 600, interval 100: the
   * axis runs 0..700 and, because an event only counts from the point strictly
   * after its capture time, points 200 and 500 still show the previous frame.
   */
  lemma ThreeEventExample()
    ensures
      var a, b, c := FrameEvent(0, "a", 0), FrameEvent(200, "b", 50), FrameEvent(500, "c", 100);
      Locf([a, b, c], 600, 100) == Ok([a, a, a, b, b, b, c, c])
  {
    var a, b, c := FrameEvent(0, "a", 0), FrameEvent(200, "b", 50), FrameEvent(500, "c", 100);
    var e := [a, b, c];
    assert AxisPointCount(700, 100) == 8;
    var l := seq(8, k requires 0 <= k < 8 => e[LastBefore(e, k * 100)]);
    LastBeforeUnique(e, 0, 0);
    LastBeforeUnique(e, 100, 0);
    LastBeforeUnique(e, 200, 0);
    LastBeforeUnique(e, 300, 1);
    LastBeforeUnique(e, 400, 1);
    LastBeforeUnique(e, 500, 1);
    LastBeforeUnique(e, 600, 2);
    LastBeforeUnique(e, 700, 2);
    assert l[0] == a && l[1] == a && l[2] == a;
    assert l[3] == b && l[4] == b && l[5] == b;
    assert l[6] == c && l[7] == c;
    assert l == [a, a, a, b, b, b, c, c];
  }
}
