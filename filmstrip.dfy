/**
 * The `<wpt-filmstrip>` element and its `<wpt-test>` children.
 *
 * A test owns one timeline: setting its `timeline` starts a fetch, and when
 * the document arrives the test marks itself dirty and, when it sits in a
 * filmstrip, raises "test-modified". The filmstrip answers by rebuilding its
 * timing row (one label per axis point up to the longest test plus one
 * interval) and asking every test to render its pair of rows into the table
 * body. A test's rows are a `RowGroup`; taking them out of the table
 * (`extract`) and putting them back are edits of the body's sequence of groups.
 */
module Filmstrip {
  import opened Timeline
  import opened Intervals
  import CamelCase
  import Resampling

  /**
   * The rows one test renders: its meta row (summary link, page name, and a
   * cell spanning `colspan` columns) and its filmstrip row. `owner` is the id
   * of the test and `build` counts the test's renders, so each rendered group
   * is a distinct value as each rendered fragment is a distinct set of nodes.
   */
  datatype RowGroup = RowGroup(owner: nat, build: nat, link: string, colspan: int, name: string, frames: seq<FrameEvent>)

  /** The table body with the rows of the tests after the timing row. */
  class TableBody {
    var groups: seq<RowGroup>

    constructor()
      ensures groups == []
    {
      groups := [];
    }
  }

  /** `groups` with the rows of the given owners taken out, the rest in their order. */
  function WithoutOwners(groups: seq<RowGroup>, owners: set<nat>): (r: seq<RowGroup>)
    ensures |r| <= |groups|
    ensures owners == {} ==> r == groups
  {
    if groups == [] then []
    else (if groups[0].owner in owners then [] else [groups[0]]) + WithoutOwners(groups[1..], owners)
  }

  /** Exactly the groups of other owners stay. */
  lemma {:induction false} WithoutOwnersMembers(groups: seq<RowGroup>, owners: set<nat>)
    ensures forall g :: g in WithoutOwners(groups, owners) <==> g in groups && g.owner !in owners
  {
    if groups != [] {
      WithoutOwnersMembers(groups[1..], owners);
      assert groups == [groups[0]] + groups[1..];
    }
  }

  /** Taking rows out of a concatenation takes them out of each part. */
  lemma {:induction false} WithoutOwnersAppend(a: seq<RowGroup>, b: seq<RowGroup>, owners: set<nat>)
    ensures WithoutOwners(a + b, owners) == WithoutOwners(a, owners) + WithoutOwners(b, owners)
  {
    if a != [] {
      assert (a + b)[1..] == a[1..] + b;
      WithoutOwnersAppend(a[1..], b, owners);
    } else {
      assert a + b == b;
    }
  }

  /** Taking out two sets of owners one after the other takes out their union. */
  lemma {:induction false} WithoutOwnersTwice(groups: seq<RowGroup>, s: set<nat>, t: set<nat>)
    ensures WithoutOwners(WithoutOwners(groups, s), t) == WithoutOwners(groups, s + t)
  {
    if groups != [] {
      WithoutOwnersTwice(groups[1..], s, t);
      if groups[0].owner !in s {
        assert WithoutOwners(groups, s) == [groups[0]] + WithoutOwners(groups[1..], s);
        assert WithoutOwners(groups, s)[1..] == WithoutOwners(groups[1..], s);
      } else {
        assert WithoutOwners(groups, s) == WithoutOwners(groups[1..], s);
      }
    }
  }

  /** Taking out owners that have no rows changes nothing. */
  lemma {:induction false} WithoutAbsentOwners(groups: seq<RowGroup>, owners: set<nat>)
    requires forall g :: g in groups ==> g.owner !in owners
    ensures WithoutOwners(groups, owners) == groups
  {
    if groups != [] {
      assert groups[0] in groups;
      assert forall g :: g in groups[1..] ==> g in groups;
      WithoutAbsentOwners(groups[1..], owners);
      assert groups == [groups[0]] + groups[1..];
    }
  }

  /** The failure `getFrames` raises: a timeline with no frames whose axis has a point. */
  predicate Throws(d: Timeline, interval: int)
  {
    d.frames == [] && d.visualComplete + interval >= 0
  }

  /**
   * What a rendered filmstrip row shows for timeline `d`: one frame per axis
   * point up to visualComplete + interval, each the head of the event queue
   * `advanceTo` leaves at that point, which for events in time order is the
   * last frame captured strictly before the point.
   */
  ghost predicate Filmed(d: Timeline, interval: int, frames: seq<FrameEvent>)
    requires interval > 0
  {
    && |frames| == AxisPointCount(d.visualComplete + interval, interval)
    && Resampling.ShowsCursors(d.frames, interval, frames)
    && (Sorted(d.frames) ==> Resampling.Locf(d.frames, d.visualComplete, interval) == Ok(frames))
  }

  /** The fields of a test, as one value. */
  datatype TestState = TestState(
    connected: bool, dirty: bool, data: Option<Timeline>, timeline: string,
    props: map<string, Option<string>>, fragment: Option<RowGroup>, extracted: Option<RowGroup>, builds: nat)

  /**
   * A render of a test whose state was `before` that rebuilt its rows: the
   * new group carries the test's summary link and page name, spans
   * `frameCount` columns, shows the sampled frames, and is the one in the table.
   */
  ghost predicate Rebuilt(before: TestState, after: TestState, id: nat, interval: int, frameCount: int)
    requires interval > 0
  {
    && before.data.Some?
    && after.fragment.Some?
    && var d, g := before.data.value, after.fragment.value;
    && after == before.(builds := before.builds + 1, fragment := Some(g), extracted := None)
    && g == RowGroup(id, before.builds + 1, d.summary, frameCount, d.url, g.frames)
    && Filmed(d, interval, g.frames)
  }

  /**
   * One `renderInto` of a valid test, from state `before` with the table rows
   * `groups` to `after` and `groups'`: without a timeline nothing changes;
   * otherwise the test rebuilds, and either the new group ends the table or,
   * when sampling fails, the test's rows are out of the table.
   */
  ghost predicate RenderEffect(before: TestState, after: TestState, id: nat, groups: seq<RowGroup>, groups': seq<RowGroup>,
                               interval: int, frameCount: int, ok: bool)
    requires interval > 0
  {
    if before.data.None? then ok && after == before && groups' == groups
    else
      && (ok <==> !Throws(before.data.value, interval))
      && (ok ==> Rebuilt(before, after, id, interval, frameCount) && groups' == WithoutOwners(groups, {id}) + [after.fragment.value])
      && (!ok ==> Abandoned(before, after, id, frameCount) && ValidState(after, id) && DetachedFrom(after, id, groups')
                  && groups' == WithoutOwners(groups, {id}))
  }

  /**
   * A render of a test whose state was `before` that failed in `getFrames`:
   * the rows were taken out and are held, the new row group has its meta row
   * but no frames and is not in the table, and the timeline stays (still
   * dirty, so the next render tries again).
   */
  predicate Abandoned(before: TestState, after: TestState, id: nat, frameCount: int)
  {
    && before.data.Some?
    && var d := before.data.value;
    && after == before.(builds := before.builds + 1,
                        fragment := Some(RowGroup(id, before.builds + 1, d.summary, frameCount, d.url, [])),
                        extracted := if before.extracted.Some? then before.extracted else before.fragment)
  }

  /** Rows can only be extracted after a render, and every row group of a test is its own. */
  predicate WellFormedState(s: TestState, id: nat)
  {
    && (s.extracted.Some? ==> s.fragment.Some?)
    && (s.fragment.Some? ==> s.fragment.value.owner == id)
    && (s.extracted.Some? ==> s.extracted.value.owner == id)
  }

  /** Well formed, and a test with a timeline is dirty: `dirty` is set on load and never cleared. */
  predicate ValidState(s: TestState, id: nat)
  {
    WellFormedState(s, id) && (s.data.Some? ==> s.dirty)
  }

  /** While a test holds no rows in the table, the table has none of its rows. */
  predicate DetachedFrom(s: TestState, id: nat, groups: seq<RowGroup>)
  {
    s.extracted.Some? || s.fragment.None? ==> forall g :: g in groups ==> g.owner != id
  }

  /** `duration`: the visual-complete time of the loaded timeline, 0 before it is loaded. */
  function DurationOf(s: TestState): int
  {
    if s.data.Some? then s.data.value.visualComplete else 0
  }

  /** The attributes a test observes. */
  const TEST_OBSERVED: seq<string> := ["label", "timeline", "timeline-video", "aspect-ratio", "size", "test-name", "interval"]

  /** The property each observed attribute is written to, index by index. */
  const TEST_PROPERTIES: seq<string> := ["label", "timeline", "timelineVideo", "aspectRatio", "size", "testName", "interval"]

  /**
   * The observed attributes land on the properties above. Only "timeline" has
   * a setter on the test element; the others become plain properties.
   */
  lemma TestAttributeProperties()
    ensures forall i :: 0 <= i < |TEST_OBSERVED| ==> CamelCase.ToCamelCase(TEST_OBSERVED[i]) == TEST_PROPERTIES[i]
  {
    forall i | 0 <= i < |TEST_OBSERVED|
      ensures CamelCase.ToCamelCase(TEST_OBSERVED[i]) == TEST_PROPERTIES[i]
    {
      var name := TEST_OBSERVED[i];
      if i == 2 {
        assert name == "timeline-video";
        CamelCase.TimelineVideoName();
      } else if i == 3 {
        assert name == "aspect-ratio";
        CamelCase.AspectRatioName();
      } else if i == 5 {
        assert name == "test-name";
        CamelCase.TestNameName();
      } else {
        assert name == TEST_PROPERTIES[i] && '-' !in name;
        CamelCase.NoDashUnchanged(name);
      }
    }
  }

  /** One `<wpt-test>`: the timeline it loaded and the rows it rendered. */
  class WPTTest {
    /** Stands for the element's identity. */
    const id: nat
    var connected: bool
    var dirty: bool
    var data: Option<Timeline>
    var timeline: string
    /** Observed attributes without a setter, stored as plain properties. */
    var props: map<string, Option<string>>
    /** The rows of the last render (the `#fragStart`..`#fragEnd` range). */
    var fragment: Option<RowGroup>
    /** The rows while taken out of the table. */
    var extracted: Option<RowGroup>
    var builds: nat

    function State(): TestState
      reads this
    {
      TestState(connected, dirty, data, timeline, props, fragment, extracted, builds)
    }

    ghost predicate WellFormed()
      reads this
    {
      WellFormedState(State(), id)
    }

    ghost predicate Valid()
      reads this
    {
      ValidState(State(), id)
    }

    ghost predicate Detached(body: TableBody)
      reads this, body
    {
      DetachedFrom(State(), id, body.groups)
    }

    /** What `extract` hands back: the extracted rows, else the rendered ones. */
    function Held(): Option<RowGroup>
      reads this
    {
      if extracted.Some? then extracted else fragment
    }

    constructor(id: nat)
      ensures this.id == id
      ensures State() == TestState(false, false, None, "", map[], None, None, 0)
      ensures Valid()
    {
      this.id := id;
      connected, dirty, data, timeline := false, false, None, "";
      props, fragment, extracted, builds := map[], None, None, 0;
    }

    /** `#maybeNotify`: mark dirty; "test-modified" is raised exactly when the test is connected. */
    method MaybeNotify() returns (notified: bool)
      modifies this
      ensures State() == old(State()).(dirty := true)
      ensures notified == connected
    {
      dirty := true;
      notified := connected;
    }

    /** `connectedCallback`: only inside a filmstrip does the test connect and notify. */
    method ConnectedCallback(parentIsFilmstrip: bool) returns (notified: bool)
      modifies this
      ensures parentIsFilmstrip ==> notified && State() == old(State()).(connected := true, dirty := true)
      ensures !parentIsFilmstrip ==> !notified && State() == old(State())
    {
      notified := false;
      if parentIsFilmstrip {
        connected := true;
        notified := MaybeNotify();
      }
    }

    /**
     * `updateTimeline`, up to the fetch: a missing or empty url, or the url
     * already set, is ignored; any other url is recorded and fetched.
     */
    method UpdateTimeline(url: Option<string>) returns (fetch: Option<string>)
      modifies this
      ensures fetch.Some? <==> url.Some? && url.value != "" && url.value != old(timeline)
      ensures fetch.Some? ==> fetch == url && State() == old(State()).(timeline := url.value)
      ensures fetch.None? ==> State() == old(State())
    {
      fetch := None;
      if url.None? || url.value == "" || url.value == timeline {
        return;
      }
      timeline := url.value;
      fetch := url;
    }

    /**
     * The rest of `updateTimeline` once a fetch has answered: the document
     * replaces `data` whichever url it was fetched for, and the test notifies.
     */
    method TimelineLoaded(d: Timeline) returns (notified: bool)
      modifies this
      ensures State() == old(State()).(data := Some(d), dirty := true)
      ensures notified == connected
      ensures old(WellFormed()) ==> Valid()
    {
      data := Some(d);
      notified := MaybeNotify();
    }

    /**
     * `attributeChangedCallback`: a change of an observed attribute is written
     * to the camel-cased property (the `timeline` setter, or a plain property)
     * and the test notifies.
     */
    method AttributeChanged(name: string, oldValue: Option<string>, newValue: Option<string>)
      returns (fetch: Option<string>, notified: bool)
      modifies this
      ensures !(name in TEST_OBSERVED && oldValue != newValue) ==>
        fetch.None? && !notified && State() == old(State())
      ensures name in TEST_OBSERVED && oldValue != newValue ==>
        && notified == connected && dirty
        && connected == old(connected) && data == old(data)
        && fragment == old(fragment) && extracted == old(extracted) && builds == old(builds)
      ensures name in TEST_OBSERVED && oldValue != newValue && CamelCase.ToCamelCase(name) == "timeline" ==>
        && props == old(props)
        && (fetch.Some? <==> newValue.Some? && newValue.value != "" && newValue.value != old(timeline))
        && timeline == (if fetch.Some? then fetch.value else old(timeline))
      ensures name in TEST_OBSERVED && oldValue != newValue && CamelCase.ToCamelCase(name) != "timeline" ==>
        fetch.None? && timeline == old(timeline) && props == old(props)[CamelCase.ToCamelCase(name) := newValue]
      ensures old(Valid()) ==> Valid()
    {
      fetch, notified := None, false;
      if name in TEST_OBSERVED && oldValue != newValue {
        var n := CamelCase.ToCamelCase(name);
        if n == "timeline" {
          fetch := UpdateTimeline(newValue);
        } else {
          props := props[n := newValue];
        }
        notified := MaybeNotify();
      }
    }

    /**
     * `extract`: before any render there is nothing to take out; rows already
     * taken out are handed back as they are; otherwise the rendered rows leave
     * the table and are kept as extracted.
     */
    method Extract(body: TableBody) returns (f: Option<RowGroup>)
      requires WellFormed() && Detached(body)
      modifies this, body
      ensures f == old(Held())
      ensures old(fragment).None? || old(extracted).Some? ==> State() == old(State()) && body.groups == old(body.groups)
      ensures old(fragment).Some? && old(extracted).None? ==>
        State() == old(State()).(extracted := old(fragment)) && body.groups == WithoutOwners(old(body.groups), {id})
      ensures body.groups == WithoutOwners(old(body.groups), {id})
      ensures forall g :: g in body.groups ==> g.owner != id
      ensures WellFormed() && Detached(body)
      ensures old(Valid()) ==> Valid()
    {
      f := None;
      if fragment.Some? {
        if extracted.Some? {
          WithoutAbsentOwners(body.groups, {id});
          f := extracted;
          return;
        }
        WithoutOwnersMembers(body.groups, {id});
        body.groups := WithoutOwners(body.groups, {id});
        extracted := fragment;
        f := extracted;
      } else {
        WithoutAbsentOwners(body.groups, {id});
      }
    }

    /** `disconnectedCallback`: the rows leave the table. */
    method DisconnectedCallback(body: TableBody)
      requires WellFormed() && Detached(body)
      modifies this, body
      ensures State() == old(State()).(extracted := old(Held()))
      ensures body.groups == WithoutOwners(old(body.groups), {id})
      ensures WellFormed() && Detached(body)
      ensures old(Valid()) ==> Valid()
    {
      var _ := Extract(body);
    }

    /**
     * `renderInto`: without a timeline nothing happens. Rows rendered before are
     * taken out of the table; when the test is clean they go back at the end of
     * `body` as they are. Otherwise a new group is built with the summary link,
     * page name and `frameCount` columns, the frames are sampled into it, and it
     * goes at the end of `body`. Sampling a timeline without frames fails and
     * leaves the new group out of the table.
     */
    method RenderInto(interval: int, frameCount: int, body: TableBody) returns (ok: bool)
      requires interval > 0
      requires WellFormed() && Detached(body)
      modifies this, body
      ensures WellFormed() && Detached(body)
      ensures old(Valid()) ==> Valid()
      ensures old(Valid()) ==> RenderEffect(old(State()), State(), id, old(body.groups), body.groups, interval, frameCount, ok)
      ensures old(data).None? ==> ok && State() == old(State()) && body.groups == old(body.groups)
      ensures old(data).Some? && old(fragment).Some? && !old(dirty) ==>
        && ok && State() == old(State()).(extracted := None)
        && body.groups == WithoutOwners(old(body.groups), {id}) + [old(Held()).value]
      ensures old(data).Some? && (old(fragment).None? || old(dirty)) ==>
        && (ok <==> !Throws(old(data).value, interval))
        && (ok ==> Rebuilt(old(State()), State(), id, interval, frameCount)
                   && body.groups == WithoutOwners(old(body.groups), {id}) + [fragment.value])
        && (!ok ==> State() == old(State()).(
                      builds := old(builds) + 1,
                      fragment := Some(RowGroup(id, old(builds) + 1, old(data).value.summary, frameCount, old(data).value.url, [])),
                      extracted := old(Held()))
                    && body.groups == WithoutOwners(old(body.groups), {id}))
    {
      ok := true;
      if data.None? {
        return;
      }
      if fragment.Some? {
        var f := Extract(body);
        if !dirty {
          body.groups := body.groups + [f.value];
          extracted := None;
          return;
        }
      } else {
        WithoutAbsentOwners(body.groups, {id});
      }
      ok := Rebuild(interval, frameCount, body);
    }

    /** The building half of `renderInto`, entered with none of the test's rows in `body`. */
    method Rebuild(interval: int, frameCount: int, body: TableBody) returns (ok: bool)
      requires interval > 0 && data.Some?
      requires WellFormed() && forall g :: g in body.groups ==> g.owner != id
      modifies this, body
      ensures WellFormed() && Detached(body)
      ensures old(Valid()) ==> Valid()
      ensures ok <==> !Throws(old(data).value, interval)
      ensures ok ==> Rebuilt(old(State()), State(), id, interval, frameCount) && body.groups == old(body.groups) + [fragment.value]
      ensures !ok ==> State() == old(State()).(
                        builds := old(builds) + 1,
                        fragment := Some(RowGroup(id, old(builds) + 1, old(data).value.summary, frameCount, old(data).value.url, [])))
                      && body.groups == old(body.groups)
    {
      var d := data.value;
      builds := builds + 1;
      fragment := Some(RowGroup(id, builds, d.summary, frameCount, d.url, []));
      var r := Resampling.GetFrames(d, interval, frameCount);
      if r.Err? {
        ok := false;
        return;
      }
      ok := true;
      fragment := Some(RowGroup(id, builds, d.summary, frameCount, d.url, r.value));
      body.groups := body.groups + [fragment.value];
      extracted := None;
    }
  }

  /** A number that may be `-Infinity`, the value of `Math.max()` over no arguments. */
  datatype Extent = NegInfinity | Finite(ms: int)

  /** `Math.max` over durations. */
  function MaxDuration(ds: seq<int>): (m: Extent)
    ensures m.NegInfinity? <==> ds == []
  {
    if ds == [] then NegInfinity
    else
      var last := ds[|ds| - 1];
      match MaxDuration(ds[..|ds| - 1])
      case NegInfinity => Finite(last)
      case Finite(m) => Finite(if m > last then m else last)
  }

  /** The maximum is one of the durations and at least every one of them. */
  lemma {:induction false} MaxDurationIsMax(ds: seq<int>)
    requires ds != []
    ensures MaxDuration(ds).ms in ds
    ensures forall d :: d in ds ==> d <= MaxDuration(ds).ms
  {
    var init := ds[..|ds| - 1];
    assert ds == init + [ds[|ds| - 1]];
    if init != [] {
      MaxDurationIsMax(init);
    }
  }

  /** `-Infinity + n` stays `-Infinity`. */
  function Plus(e: Extent, n: int): (r: Extent)
    ensures r.NegInfinity? <==> e.NegInfinity?
  {
    match e
    case NegInfinity => NegInfinity
    case Finite(m) => Finite(m + n)
  }

  /** The timing row for a loop over 0, interval, ... while at most `end`: empty when `end` is -Infinity. */
  function Timings(end: Extent, interval: int, digits: nat): (labels: seq<Label>)
    requires interval > 0
    ensures end.NegInfinity? ==> labels == []
    ensures end.Finite? ==> |labels| == AxisPointCount(end.ms, interval)
    ensures forall k :: 0 <= k < |labels| ==> labels[k] == Label(k * interval, digits)
  {
    match end
    case NegInfinity => []
    case Finite(m) => AxisLabels(AxisPointCount(m, interval), interval, digits)
  }

  /**
   * The timing row is wide enough for every test: a test of duration d renders
   * AxisPointCount(d + interval) frames, which is at most the number of labels,
   * and exactly that number for the longest test.
   */
  lemma RowsFitTimingRow(durations: seq<int>, interval: int, digits: nat, k: nat)
    requires interval > 0 && k < |durations|
    ensures AxisPointCount(durations[k] + interval, interval)
         <= |Timings(Plus(MaxDuration(durations), interval), interval, digits)|
    ensures durations[k] == MaxDuration(durations).ms ==>
         AxisPointCount(durations[k] + interval, interval)
         == |Timings(Plus(MaxDuration(durations), interval), interval, digits)|
  {
    MaxDurationIsMax(durations);
    assert durations[k] in durations;
    AxisPointCountGrows(durations[k] + interval, MaxDuration(durations).ms + interval, interval);
  }

  /** A later end never has fewer axis points. */
  lemma AxisPointCountGrows(a: int, b: int, interval: int)
    requires interval > 0 && a <= b
    ensures AxisPointCount(a, interval) <= AxisPointCount(b, interval)
  {
    if a >= 0 {
      var k := a / interval;
      assert k * interval <= a by {
        assert a == k * interval + a % interval;
      }
      AxisPointsUpToEnd(b, interval, k);
    }
  }

  /** `for (x = 0; x <= end; x += interval)` pushing one timing cell per step. */
  method AxisTimings(end: Extent, interval: int, digits: nat) returns (labels: seq<Label>)
    requires interval > 0
    ensures labels == Timings(end, interval, digits)
  {
    labels := [];
    var x := 0;
    while end.Finite? && x <= end.ms
      invariant x == |labels| * interval
      invariant labels == AxisLabels(|labels|, interval, digits)
      invariant |labels| == 0 || (end.Finite? && (|labels| - 1) * interval <= end.ms)
      decreases if end.Finite? then end.ms + interval - x else 0
    {
      assert (|labels| + 1) * interval == |labels| * interval + interval;
      labels := labels + [Label(x, digits)];
      x := x + interval;
    }
    if end.Finite? {
      AxisPointCountExact(end.ms, interval, |labels|);
    }
  }

  /** The ids of the tests, in order (an element's identity never changes). */
  function Ids(tests: seq<WPTTest>): seq<nat>
  {
    seq(|tests|, i requires 0 <= i < |tests| => tests[i].id)
  }

  /** The fields of the tests, in order. */
  function States(tests: seq<WPTTest>): seq<TestState>
    reads tests
  {
    seq(|tests|, i requires 0 <= i < |tests| reads tests => tests[i].State())
  }

  /** The `duration` of each test, in order. */
  function Durations(ss: seq<TestState>): seq<int>
  {
    seq(|ss|, i requires 0 <= i < |ss| => DurationOf(ss[i]))
  }

  /** The ids of the tests that have a timeline (the ones `renderInto` does not skip). */
  function LoadedIds(ss: seq<TestState>, ids: seq<nat>): set<nat>
    requires |ss| == |ids|
  {
    set i | 0 <= i < |ss| && ss[i].data.Some? :: ids[i]
  }

  /** The rendered rows of the tests that have a timeline, in test order. */
  function Fragments(ss: seq<TestState>): seq<RowGroup>
  {
    if ss == [] then []
    else
      var s := ss[|ss| - 1];
      Fragments(ss[..|ss| - 1]) + (if s.data.Some? && s.fragment.Some? then [s.fragment.value] else [])
  }

  /** Tests with different ids, each of them valid and detached with respect to the table rows `groups`. */
  ghost predicate Children(ss: seq<TestState>, ids: seq<nat>, groups: seq<RowGroup>)
  {
    && |ss| == |ids|
    && (forall i, j :: 0 <= i < j < |ids| ==> ids[i] != ids[j])
    && (forall i :: 0 <= i < |ss| ==> ValidState(ss[i], ids[i]) && DetachedFrom(ss[i], ids[i], groups))
  }

  /** What one call of `renderInto` did to a valid test: nothing without a timeline, else a rebuild. */
  ghost predicate Rendered(before: TestState, after: TestState, id: nat, interval: int, frameCount: int)
    requires interval > 0
  {
    if before.data.None? then after == before else Rebuilt(before, after, id, interval, frameCount)
  }

  /** No test with a timeline makes `getFrames` fail. */
  predicate NoneThrows(ss: seq<TestState>, interval: int)
  {
    forall i :: 0 <= i < |ss| && ss[i].data.Some? ==> !Throws(ss[i].data.value, interval)
  }

  /**
   * The first n tests, whose states were `before`, were rendered in turn and
   * none of them failed: each test with a timeline rebuilt its rows, and the
   * table rows `groups0` lost the old rows of those tests and gained the new
   * ones at the end, in test order. The other tests were not touched.
   */
  ghost predicate RenderedUpTo(before: seq<TestState>, after: seq<TestState>, ids: seq<nat>,
                               groups0: seq<RowGroup>, groups: seq<RowGroup>, interval: int, frameCount: int, n: nat)
    requires interval > 0
  {
    && |before| == |after| == |ids| && n <= |before|
    && (forall i :: 0 <= i < n ==> Rendered(before[i], after[i], ids[i], interval, frameCount))
    && (forall i :: n <= i < |before| ==> after[i] == before[i])
    && NoneThrows(before[..n], interval)
    && groups == WithoutOwners(groups0, LoadedIds(before[..n], ids[..n])) + Fragments(after[..n])
  }

  /** The loop state of `RenderAll` after n tests. */
  ghost predicate Walked(before: seq<TestState>, after: seq<TestState>, ids: seq<nat>,
                         groups0: seq<RowGroup>, groups: seq<RowGroup>, interval: int, frameCount: int, n: nat)
    requires interval > 0
  {
    RenderedUpTo(before, after, ids, groups0, groups, interval, frameCount, n) && Children(after, ids, groups)
  }

  /**
   * The walk over the tests, whose states were `before`, stopped at test n:
   * the tests before it were rendered as `RenderedUpTo` describes, test n
   * failed in `getFrames` and its rows are out of the table, and the tests
   * after it were not touched.
   */
  ghost predicate FailedAt(before: seq<TestState>, after: seq<TestState>, ids: seq<nat>,
                           groups0: seq<RowGroup>, groups: seq<RowGroup>, interval: int, frameCount: int, n: nat)
    requires interval > 0
  {
    && |before| == |after| == |ids| && n < |before|
    && (forall i :: 0 <= i < n ==> Rendered(before[i], after[i], ids[i], interval, frameCount))
    && (forall i :: n < i < |before| ==> after[i] == before[i])
    && NoneThrows(before[..n], interval)
    && RenderEffect(before[n], after[n], ids[n], WithoutOwners(groups0, LoadedIds(before[..n], ids[..n])) + Fragments(after[..n]),
                    groups, interval, frameCount, false)
  }

  /**
   * A failure sticks: the test the walk stopped at keeps its timeline, which
   * still fails, so the next walk fails too, at that test or before it, and
   * the tests after it are never rendered again until a timeline changes.
   */
  lemma FailureSticks(s0: seq<TestState>, s1: seq<TestState>, s2: seq<TestState>, ids: seq<nat>,
                      g0: seq<RowGroup>, g1: seq<RowGroup>, g2: seq<RowGroup>, interval: int, frameCount: int, n: nat)
    requires interval > 0 && FailedAt(s0, s1, ids, g0, g1, interval, frameCount, n)
    ensures s1[n].data == s0[n].data && s1[n].data.Some? && Throws(s1[n].data.value, interval)
    ensures !NoneThrows(s1, interval)
    ensures forall m: nat :: FailedAt(s1, s2, ids, g1, g2, interval, frameCount, m) ==>
      m <= n && forall i :: n < i < |s0| ==> s2[i] == s0[i]
  {
  }

  /** All tests were rendered in turn, as `RenderedUpTo` describes. */
  ghost predicate AllRendered(before: seq<TestState>, after: seq<TestState>, ids: seq<nat>,
                              groups0: seq<RowGroup>, groups: seq<RowGroup>, interval: int, frameCount: int)
    requires interval > 0
  {
    && |before| == |after| == |ids|
    && (forall i :: 0 <= i < |before| ==> Rendered(before[i], after[i], ids[i], interval, frameCount))
    && groups == WithoutOwners(groups0, LoadedIds(before, ids)) + Fragments(after)
  }

  /** Every rendered row belongs to one of the tests. */
  lemma {:induction false} FragmentOwners(ss: seq<TestState>, ids: seq<nat>)
    requires |ss| == |ids|
    requires forall i :: 0 <= i < |ss| ==> WellFormedState(ss[i], ids[i])
    ensures forall g :: g in Fragments(ss) ==> g.owner in ids
  {
    if ss != [] {
      var n := |ss| - 1;
      FragmentOwners(ss[..n], ids[..n]);
      assert forall x :: x in ids[..n] ==> x in ids;
      assert ids[n] in ids;
    }
  }

  /** Replacing test n by a valid state that only added rows of its own keeps the children well formed. */
  lemma ChildrenKept(now: seq<TestState>, ids: seq<nat>, groups: seq<RowGroup>, n: nat, s: TestState, groups': seq<RowGroup>)
    requires Children(now, ids, groups) && n < |now|
    requires ValidState(s, ids[n]) && DetachedFrom(s, ids[n], groups')
    requires forall g :: g in groups' ==> g in groups || g.owner == ids[n]
    ensures Children(now[n := s], ids, groups')
  {
    var next := now[n := s];
    forall i | 0 <= i < |next|
      ensures ValidState(next[i], ids[i]) && DetachedFrom(next[i], ids[i], groups')
    {
      if i != n {
        assert ids[i] != ids[n] by {
          if i < n { assert ids[i] != ids[n]; } else { assert ids[n] != ids[i]; }
        }
        assert next[i] == now[i] && DetachedFrom(now[i], ids[i], groups);
      }
    }
  }

  /** A test whose sampling failed took its rows out of the table and added none. */
  lemma RenderFails(now: seq<TestState>, ids: seq<nat>, groups: seq<RowGroup>, n: nat, s: TestState, groups': seq<RowGroup>,
                    interval: int, frameCount: int)
    requires interval > 0 && Children(now, ids, groups) && n < |now|
    requires RenderEffect(now[n], s, ids[n], groups, groups', interval, frameCount, false)
    ensures Children(now[n := s], ids, groups')
  {
    WithoutOwnersMembers(groups, {ids[n]});
    ChildrenKept(now, ids, groups, n, s, groups');
  }

  /** The tests with a timeline among the first n + 1: those among the first n, and test n if it has one. */
  lemma LoadedIdsNext(ss: seq<TestState>, ids: seq<nat>, n: nat)
    requires |ss| == |ids| && n < |ss|
    ensures LoadedIds(ss[..n + 1], ids[..n + 1])
         == LoadedIds(ss[..n], ids[..n]) + (if ss[n].data.Some? then {ids[n]} else {})
  {
    var a, b := LoadedIds(ss[..n + 1], ids[..n + 1]), LoadedIds(ss[..n], ids[..n]);
    forall x | x in a ensures x in b + (if ss[n].data.Some? then {ids[n]} else {}) {
      var i :| 0 <= i < n + 1 && ss[..n + 1][i].data.Some? && ids[..n + 1][i] == x;
      if i < n {
        assert ss[..n][i] == ss[i] && ids[..n][i] == ids[i];
      }
    }
    forall x | x in b ensures x in a {
      var i :| 0 <= i < n && ss[..n][i].data.Some? && ids[..n][i] == x;
      assert ss[..n + 1][i] == ss[i] && ids[..n + 1][i] == ids[i];
    }
    if ss[n].data.Some? {
      assert ss[..n + 1][n] == ss[n] && ids[..n + 1][n] == ids[n];
    }
  }

  /** The rows of the first n tests carry none of the owners of the tests after them. */
  lemma FragmentsAvoid(ss: seq<TestState>, ids: seq<nat>, n: nat)
    requires Children(ss, ids, []) || (|ss| == |ids| && (forall i, j :: 0 <= i < j < |ids| ==> ids[i] != ids[j])
                                      && forall i :: 0 <= i < |ss| ==> WellFormedState(ss[i], ids[i]))
    requires n < |ss|
    ensures forall g :: g in Fragments(ss[..n]) ==> g.owner != ids[n]
  {
    FragmentOwners(ss[..n], ids[..n]);
    forall x | x in ids[..n] ensures x != ids[n] {
      var j :| 0 <= j < n && ids[..n][j] == x;
      assert ids[j] != ids[n];
    }
  }

  /** Rebuilding test `id` takes its rows out of the table and puts the new group at the end. */
  lemma RowsAfterRebuild(groups0: seq<RowGroup>, loaded: set<nat>, frags: seq<RowGroup>, id: nat, g: RowGroup)
    requires forall x :: x in frags ==> x.owner != id
    ensures WithoutOwners(WithoutOwners(groups0, loaded) + frags, {id}) + [g]
         == WithoutOwners(groups0, loaded + {id}) + (frags + [g])
  {
    WithoutOwnersAppend(WithoutOwners(groups0, loaded), frags, {id});
    WithoutOwnersTwice(groups0, loaded, {id});
    WithoutAbsentOwners(frags, {id});
  }

  /** Before the first test nothing is rendered. */
  lemma WalkStart(ss: seq<TestState>, ids: seq<nat>, groups: seq<RowGroup>, interval: int, frameCount: int)
    requires interval > 0 && Children(ss, ids, groups)
    ensures Walked(ss, ss, ids, groups, groups, interval, frameCount, 0)
  {
    assert ss[..0] == [] && ids[..0] == [];
    assert LoadedIds([], []) == {};
    WithoutAbsentOwners(groups, {});
  }

  /** A walk over all tests rendered all of them. */
  lemma WalkComplete(before: seq<TestState>, after: seq<TestState>, ids: seq<nat>,
                     groups0: seq<RowGroup>, groups: seq<RowGroup>, interval: int, frameCount: int)
    requires interval > 0
    requires Walked(before, after, ids, groups0, groups, interval, frameCount, |before|)
    ensures AllRendered(before, after, ids, groups0, groups, interval, frameCount)
    ensures NoneThrows(before, interval) && Children(after, ids, groups)
  {
    assert before[..|before|] == before && ids[..|ids|] == ids && after[..|after|] == after;
  }

  /** Rendering test n keeps the walk's description true for n + 1 tests. */
  lemma RenderStep(before: seq<TestState>, now: seq<TestState>, ids: seq<nat>, groups0: seq<RowGroup>,
                   groups: seq<RowGroup>, s: TestState, groups': seq<RowGroup>, interval: int, frameCount: int, n: nat)
    requires interval > 0 && n < |before|
    requires Walked(before, now, ids, groups0, groups, interval, frameCount, n)
    requires RenderEffect(now[n], s, ids[n], groups, groups', interval, frameCount, true)
    ensures Walked(before, now[n := s], ids, groups0, groups', interval, frameCount, n + 1)
  {
    RowsStep(before, now, ids, groups0, groups, s, groups', interval, frameCount, n);
    if now[n].data.Some? {
      WithoutOwnersMembers(groups, {ids[n]});
    }
    ChildrenKept(now, ids, groups, n, s, groups');
  }

  /** One turn of the walk: a render that succeeds extends it, one that fails leaves the children consistent. */
  lemma RenderNext(before: seq<TestState>, now: seq<TestState>, after: seq<TestState>, ids: seq<nat>,
                   groups0: seq<RowGroup>, groups: seq<RowGroup>, groups': seq<RowGroup>,
                   interval: int, frameCount: int, n: nat, rendered: bool)
    requires interval > 0 && n < |before|
    requires Walked(before, now, ids, groups0, groups, interval, frameCount, n)
    requires n < |now| == |after| && n < |ids| && after == now[n := after[n]]
    requires RenderEffect(now[n], after[n], ids[n], groups, groups', interval, frameCount, rendered)
    ensures rendered ==> Walked(before, after, ids, groups0, groups', interval, frameCount, n + 1)
    ensures !rendered ==> Children(after, ids, groups') && !NoneThrows(before, interval)
    ensures !rendered ==> FailedAt(before, after, ids, groups0, groups', interval, frameCount, n)
  {
    if rendered {
      RenderStep(before, now, ids, groups0, groups, after[n], groups', interval, frameCount, n);
    } else {
      RenderFails(now, ids, groups, n, after[n], groups', interval, frameCount);
      assert now[n] == before[n];
      assert after[..n] == now[..n];
    }
  }

  /** The table rows after rendering test n are those `RenderedUpTo` describes for n + 1 tests. */
  lemma RowsStep(before: seq<TestState>, now: seq<TestState>, ids: seq<nat>, groups0: seq<RowGroup>,
                 groups: seq<RowGroup>, s: TestState, groups': seq<RowGroup>, interval: int, frameCount: int, n: nat)
    requires interval > 0 && n < |before|
    requires Walked(before, now, ids, groups0, groups, interval, frameCount, n)
    requires RenderEffect(now[n], s, ids[n], groups, groups', interval, frameCount, true)
    ensures RenderedUpTo(before, now[n := s], ids, groups0, groups', interval, frameCount, n + 1)
  {
    var next := now[n := s];
    assert before[n] == now[n];
    RowsStepGroups(before, now, ids, groups0, groups, s, groups', interval, frameCount, n);
    NoneThrowsNext(before, n, interval);
    forall i | 0 <= i < n + 1
      ensures Rendered(before[i], next[i], ids[i], interval, frameCount)
    {
      if i < n {
        assert next[i] == now[i];
      }
    }
  }

  /** The table rows part of `RowsStep`. */
  lemma RowsStepGroups(before: seq<TestState>, now: seq<TestState>, ids: seq<nat>, groups0: seq<RowGroup>,
                       groups: seq<RowGroup>, s: TestState, groups': seq<RowGroup>, interval: int, frameCount: int, n: nat)
    requires interval > 0 && n < |before| == |now| == |ids| && before[n] == now[n]
    requires Children(now, ids, groups)
    requires groups == WithoutOwners(groups0, LoadedIds(before[..n], ids[..n])) + Fragments(now[..n])
    requires RenderEffect(now[n], s, ids[n], groups, groups', interval, frameCount, true)
    ensures groups' == WithoutOwners(groups0, LoadedIds(before[..n + 1], ids[..n + 1])) + Fragments(now[n := s][..n + 1])
  {
    assert now[n := s][..n + 1] == now[..n] + [s];
    FragmentsSnoc(now[..n], s);
    LoadedIdsNext(before, ids, n);
    if now[n].data.None? {
      assert LoadedIds(before[..n + 1], ids[..n + 1]) == LoadedIds(before[..n], ids[..n]);
    } else {
      FragmentsAvoid(now, ids, n);
      RowsAfterRebuild(groups0, LoadedIds(before[..n], ids[..n]), Fragments(now[..n]), ids[n], s.fragment.value);
    }
  }

  /** A walk that did not fail on the first n tests nor on test n did not fail on the first n + 1. */
  lemma NoneThrowsNext(ss: seq<TestState>, n: nat, interval: int)
    requires n < |ss| && NoneThrows(ss[..n], interval)
    requires ss[n].data.Some? ==> !Throws(ss[n].data.value, interval)
    ensures NoneThrows(ss[..n + 1], interval)
  {
    var b := ss[..n + 1];
    forall i | 0 <= i < |b|
      ensures b[i].data.Some? ==> !Throws(b[i].data.value, interval)
    {
      if i < n { assert b[i] == ss[..n][i]; }
    }
  }

  lemma FragmentsSnoc(ss: seq<TestState>, s: TestState)
    ensures Fragments(ss + [s]) == Fragments(ss) + (if s.data.Some? && s.fragment.Some? then [s.fragment.value] else [])
  {
    assert (ss + [s])[..|ss|] == ss;
  }

  /** The rendered rows of two runs of tests, one after the other, are those of each in turn. */
  lemma {:induction false} FragmentsAppend(a: seq<TestState>, b: seq<TestState>)
    ensures Fragments(a + b) == Fragments(a) + Fragments(b)
    decreases |b|
  {
    if b == [] {
      assert a + b == a;
    } else {
      var init, s := b[..|b| - 1], b[|b| - 1];
      var last := if s.data.Some? && s.fragment.Some? then [s.fragment.value] else [];
      assert b == init + [s];
      assert a + b == (a + init) + [s];
      FragmentsAppend(a, init);
      FragmentsSnoc(a + init, s);
      FragmentsSnoc(init, s);
      calc {
        Fragments(a + b);
        Fragments(a + init) + last;
        Fragments(a) + Fragments(init) + last;
        Fragments(a) + (Fragments(init) + last);
        Fragments(a) + Fragments(b);
      }
    }
  }

  /** A test without a timeline holds no rendered rows among those of its run. */
  lemma FragmentsSkipUnloaded(pre: seq<TestState>, s: TestState, post: seq<TestState>)
    requires s.data.None?
    ensures Fragments(pre + [s] + post) == Fragments(pre) + Fragments(post)
  {
    FragmentsSnoc(pre, s);
    FragmentsAppend(pre + [s], post);
  }

  /**
   * A test whose timeline is not loaded yet still counts in the `Math.max` of
   * `updateTests` with duration 0, so the timing row reaches at least one
   * interval (two labels), while `renderInto` skips it and the table gets no
   * rows from it: the rendered rows are those of the other tests.
   */
  lemma UnloadedTestWidensAxis(ss: seq<TestState>, i: nat, interval: int, digits: nat)
    requires interval > 0 && i < |ss| && ss[i].data.None?
    ensures MaxDuration(Durations(ss)).Finite? && MaxDuration(Durations(ss)).ms >= 0
    ensures |Timings(Plus(MaxDuration(Durations(ss)), interval), interval, digits)| >= 2
    ensures Fragments(ss) == Fragments(ss[..i]) + Fragments(ss[i + 1..])
  {
    var ds := Durations(ss);
    assert ds[i] == 0 && ds[i] in ds;
    MaxDurationIsMax(ds);
    AxisPointsUpToEnd(MaxDuration(ds).ms + interval, interval, 1);
    FragmentsWithout(ss, i);
  }

  lemma FragmentsWithout(ss: seq<TestState>, i: nat)
    requires i < |ss| && ss[i].data.None?
    ensures Fragments(ss) == Fragments(ss[..i]) + Fragments(ss[i + 1..])
  {
    var pre, s, post := ss[..i], ss[i], ss[i + 1..];
    assert ss == pre + [s] + post;
    FragmentsSkipUnloaded(pre, s, post);
  }

  /**
   * After a walk over all tests the timing row spans every rendered row: each
   * meta cell spans as many columns as the row has labels, each filmstrip row
   * has at most that many frames, and the longest test's row has exactly as many.
   */
  lemma RenderedRowsFit(before: seq<TestState>, after: seq<TestState>, ids: seq<nat>, groups0: seq<RowGroup>,
                        groups: seq<RowGroup>, interval: int, digits: nat, labels: seq<Label>, i: nat)
    requires interval > 0
    requires labels == Timings(Plus(MaxDuration(Durations(before)), interval), interval, digits)
    requires AllRendered(before, after, ids, groups0, groups, interval, |labels|)
    requires i < |before| && before[i].data.Some?
    ensures after[i].fragment.Some? && after[i].fragment.value.colspan == |labels|
    ensures |after[i].fragment.value.frames| <= |labels|
    ensures DurationOf(before[i]) == MaxDuration(Durations(before)).ms ==> |after[i].fragment.value.frames| == |labels|
  {
    RowsFitTimingRow(Durations(before), interval, digits, i);
  }

  /** One turn of the `forEach` of `updateTests`: test i renders into `body`, and no other test changes. */
  method RenderChild(tests: seq<WPTTest>, i: nat, interval: int, frameCount: int, body: TableBody) returns (rendered: bool)
    requires interval > 0 && i < |tests| && Children(States(tests), Ids(tests), body.groups)
    modifies body, tests[i]
    ensures States(tests) == old(States(tests))[i := States(tests)[i]]
    ensures RenderEffect(old(States(tests))[i], States(tests)[i], Ids(tests)[i], old(body.groups), body.groups,
                         interval, frameCount, rendered)
  {
    ghost var now := States(tests);
    ghost var ids := Ids(tests);
    var t := tests[i];
    assert now[i] == t.State() && ValidState(now[i], ids[i]) && DetachedFrom(now[i], ids[i], body.groups);
    rendered := t.RenderInto(interval, frameCount, body);
    forall j | 0 <= j < |tests| && j != i
      ensures tests[j] != t
    {
      assert ids[j] != ids[i] by {
        if j < i { assert ids[j] != ids[i]; } else { assert ids[i] != ids[j]; }
      }
    }
    assert States(tests) == now[i := t.State()];
  }

  /**
   * The `forEach` of `updateTests`: each test renders into `body` in turn;
   * a failing render ends the walk.
   */
  method RenderAll(tests: seq<WPTTest>, interval: int, frameCount: int, body: TableBody) returns (ok: bool)
    requires interval > 0 && Children(States(tests), Ids(tests), body.groups)
    modifies body, tests
    ensures Children(States(tests), Ids(tests), body.groups)
    ensures ok <==> NoneThrows(old(States(tests)), interval)
    ensures ok ==> AllRendered(old(States(tests)), States(tests), Ids(tests), old(body.groups), body.groups, interval, frameCount)
    ensures !ok ==> exists n :: FailedAt(old(States(tests)), States(tests), Ids(tests), old(body.groups), body.groups, interval, frameCount, n)
  {
    ghost var before := States(tests);
    ghost var ids := Ids(tests);
    ghost var groups0 := body.groups;
    WalkStart(before, ids, groups0, interval, frameCount);
    ok := true;
    var i := 0;
    while i < |tests|
      invariant 0 <= i <= |tests|
      invariant Walked(before, States(tests), ids, groups0, body.groups, interval, frameCount, i)
    {
      ghost var now := States(tests);
      ghost var groups := body.groups;
      var rendered := RenderChild(tests, i, interval, frameCount, body);
      RenderNext(before, now, States(tests), ids, groups0, groups, body.groups, interval, frameCount, i, rendered);
      if !rendered {
        return false;
      }
      i := i + 1;
    }
    WalkComplete(before, States(tests), ids, groups0, body.groups, interval, frameCount);
  }

  /** The attributes the filmstrip observes; only "interval" has a setter. */
  const FILMSTRIP_OBSERVED: seq<string> := ["aspect-ratio", "size", "interval"]

  /** The `<wpt-filmstrip>` element: interval, timing row and the table its tests render into. */
  class WPTFilmstrip {
    /** The body of the shadow root's main table. */
    const body: TableBody
    var wired: bool
    var intervalMs: int
    var digits: nat
    /** The timing row. */
    var labels: seq<Label>
    /** Observed attributes without a setter, stored as plain properties. */
    var props: map<string, Option<string>>

    ghost predicate Valid()
      reads this
    {
      Supported(IntervalSetting(intervalMs, digits))
    }

    /** `get interval()`: the getter reads a field no setter writes. */
    function Interval(): (r: string)
      ensures FilmstripSetting(Text(r)) == DEFAULT_SETTING
    {
      "100"
    }

    constructor()
      ensures fresh(body) && body.groups == []
      ensures !wired && intervalMs == 100 && digits == 1 && labels == [] && props == map[]
      ensures Valid()
    {
      body := new TableBody();
      wired, intervalMs, digits, labels, props := false, 100, 1, [], map[];
    }

    /** `connectedCallback` / `wireElements`: wiring happens once and enables `updateTests`. */
    method ConnectedCallback()
      modifies this
      ensures wired && intervalMs == old(intervalMs) && digits == old(digits)
      ensures labels == old(labels) && props == old(props)
    {
      if wired {
        return;
      }
      wired := true;
    }

    /**
     * `updateTests`, also the "test-modified" listener: before wiring nothing
     * happens. Otherwise the timing row is rebuilt for the longest test plus one
     * interval, and every test renders into the table with that many columns,
     * in order; the first test whose sampling fails stops the walk.
     */
    method UpdateTests(tests: seq<WPTTest>) returns (ok: bool)
      requires Valid() && Children(States(tests), Ids(tests), body.groups)
      modifies this, body, tests
      ensures Valid() && Children(States(tests), Ids(tests), body.groups)
      ensures wired == old(wired) && intervalMs == old(intervalMs) && digits == old(digits) && props == old(props)
      ensures !old(wired) ==> ok && labels == old(labels) && body.groups == old(body.groups)
      ensures !old(wired) ==> States(tests) == old(States(tests))
      ensures old(wired) ==> labels == Timings(Plus(MaxDuration(Durations(old(States(tests)))), intervalMs), intervalMs, digits)
      ensures old(wired) ==> (ok <==> NoneThrows(old(States(tests)), intervalMs))
      ensures old(wired) && ok ==>
        AllRendered(old(States(tests)), States(tests), Ids(tests), old(body.groups), body.groups, intervalMs, |labels|)
      ensures old(wired) && !ok ==>
        exists n :: FailedAt(old(States(tests)), States(tests), Ids(tests), old(body.groups), body.groups, intervalMs, |labels|, n)
    {
      ok := true;
      if !wired {
        return;
      }
      ghost var before, groups0 := States(tests), body.groups;
      var end := Plus(MaxDuration(Durations(States(tests))), intervalMs);
      labels := AxisTimings(end, intervalMs, digits);
      assert States(tests) == before && body.groups == groups0;
      ok := RenderAll(tests, intervalMs, |labels|, body);
    }

    /**
     * `set interval`: the value (a number first turned into its decimal string)
     * selects the interval and label precision; the tests are re-rendered only
     * when the interval in ms changed.
     */
    method SetInterval(a: IntervalArg, tests: seq<WPTTest>) returns (ok: bool)
      requires Valid() && Children(States(tests), Ids(tests), body.groups)
      modifies this, body, tests
      ensures Valid() && Children(States(tests), Ids(tests), body.groups)
      ensures IntervalSetting(intervalMs, digits) == FilmstripSetting(a)
      ensures wired == old(wired) && props == old(props)
      ensures intervalMs == old(intervalMs) || !old(wired) ==>
        ok && labels == old(labels) && body.groups == old(body.groups) && States(tests) == old(States(tests))
      ensures intervalMs != old(intervalMs) && old(wired) ==>
        && labels == Timings(Plus(MaxDuration(Durations(old(States(tests)))), intervalMs), intervalMs, digits)
        && (ok <==> NoneThrows(old(States(tests)), intervalMs))
        && (ok ==> AllRendered(old(States(tests)), States(tests), Ids(tests), old(body.groups), body.groups, intervalMs, |labels|))
        && (!ok ==> exists n :: FailedAt(old(States(tests)), States(tests), Ids(tests), old(body.groups), body.groups, intervalMs, |labels|, n))
    {
      var setting := FilmstripSetting(a);
      var previous := intervalMs;
      intervalMs, digits := setting.ms, setting.digits;
      ok := true;
      if intervalMs != previous {
        ok := UpdateTests(tests);
      }
    }

    /**
     * `attributeChangedCallback`: a change of an observed attribute is written
     * to the camel-cased property; "interval" goes through the setter (a removed
     * attribute writes null), the others become plain properties.
     */
    method AttributeChanged(name: string, oldValue: Option<string>, newValue: Option<string>, tests: seq<WPTTest>)
      returns (ok: bool)
      requires Valid() && Children(States(tests), Ids(tests), body.groups)
      modifies this, body, tests
      ensures Valid() && Children(States(tests), Ids(tests), body.groups)
      ensures wired == old(wired)
      ensures !(name in FILMSTRIP_OBSERVED && oldValue != newValue && CamelCase.ToCamelCase(name) == "interval") ==>
        && ok && intervalMs == old(intervalMs) && digits == old(digits) && labels == old(labels)
        && body.groups == old(body.groups) && States(tests) == old(States(tests))
      ensures !(name in FILMSTRIP_OBSERVED && oldValue != newValue) ==> props == old(props)
      ensures name in FILMSTRIP_OBSERVED && oldValue != newValue && CamelCase.ToCamelCase(name) != "interval" ==>
        props == old(props)[CamelCase.ToCamelCase(name) := newValue]
      ensures name in FILMSTRIP_OBSERVED && oldValue != newValue && CamelCase.ToCamelCase(name) == "interval" ==>
        && props == old(props)
        && IntervalSetting(intervalMs, digits) == FilmstripSetting(if newValue.Some? then Text(newValue.value) else Null)
        && (intervalMs == old(intervalMs) || !old(wired) ==>
              ok && labels == old(labels) && body.groups == old(body.groups) && States(tests) == old(States(tests)))
        && (intervalMs != old(intervalMs) && old(wired) ==>
              && labels == Timings(Plus(MaxDuration(Durations(old(States(tests)))), intervalMs), intervalMs, digits)
              && (ok <==> NoneThrows(old(States(tests)), intervalMs))
              && (ok ==> AllRendered(old(States(tests)), States(tests), Ids(tests), old(body.groups), body.groups, intervalMs, |labels|))
              && (!ok ==> exists n :: FailedAt(old(States(tests)), States(tests), Ids(tests), old(body.groups), body.groups, intervalMs, |labels|, n)))
    {
      ok := true;
      if name in FILMSTRIP_OBSERVED && oldValue != newValue {
        var n := CamelCase.ToCamelCase(name);
        if n == "interval" {
          ok := SetInterval(if newValue.Some? then Text(newValue.value) else Null, tests);
        } else {
          props := props[n := newValue];
        }
      }
    }
  }

  /** The filmstrip's observed attributes land on "aspectRatio", "size" and "interval". */
  lemma FilmstripAttributeProperties()
    ensures CamelCase.ToCamelCase(FILMSTRIP_OBSERVED[0]) == "aspectRatio"
    ensures CamelCase.ToCamelCase(FILMSTRIP_OBSERVED[1]) == "size"
    ensures CamelCase.ToCamelCase(FILMSTRIP_OBSERVED[2]) == "interval"
  {
    CamelCase.AspectRatioName();
    CamelCase.NoDashUnchanged("size");
    CamelCase.NoDashUnchanged("interval");
  }
}
