/**
 * The `<wpt-embed-filmstrip>` element: one timeline shown as a single
 * filmstrip. Setting `timeline-url` starts a fetch; the loaded document, and
 * every write of `interval`, rebuild the filmstrip: the sampling loop runs,
 * and then the meta cell, the filmstrip row and the timing row of the shadow
 * root are written. Those writes look the cells up by id, which finds nothing
 * before the element is wired.
 */
module EmbedFilmstrip {
  import opened Timeline
  import opened Intervals
  import CamelCase
  import EmbedSampling

  /** What the shadow root shows after a build: summary link, meta colspan, page name, frames, timing labels. */
  datatype Shown = Shown(link: string, colspan: int, name: string, frames: seq<FrameEvent>, labels: seq<Label>)

  /** The fields of the element, as one value. */
  datatype EmbedState = EmbedState(
    wired: bool, intervalMs: int, digits: nat, timelineUrl: string, timelineData: Option<Timeline>,
    testId: Option<string>, timelineVideo: Option<string>, aspectRatio: Option<string>,
    props: map<string, Option<string>>, shown: Option<Shown>)

  /** The attributes the element observes ("size" is commented out in the list). */
  const EMBED_OBSERVED: seq<string> := ["test-id", "timeline-url", "timeline-video", "aspect-ratio", "test-name", "interval"]

  /** The property each observed attribute is written to, index by index. */
  const EMBED_PROPERTIES: seq<string> := ["testId", "timelineUrl", "timelineVideo", "aspectRatio", "testName", "interval"]

  /**
   * The observed attributes land on the properties above; all but "testName"
   * have a setter on the element.
   */
  lemma EmbedAttributeProperties()
    ensures forall i :: 0 <= i < |EMBED_OBSERVED| ==> CamelCase.ToCamelCase(EMBED_OBSERVED[i]) == EMBED_PROPERTIES[i]
  {
    forall i | 0 <= i < |EMBED_OBSERVED|
      ensures CamelCase.ToCamelCase(EMBED_OBSERVED[i]) == EMBED_PROPERTIES[i]
    {
      var name := EMBED_OBSERVED[i];
      if i == 0 {
        assert name == "test-id";
        CamelCase.TestIdName();
      } else if i == 1 {
        assert name == "timeline-url";
        CamelCase.TimelineUrlName();
      } else if i == 2 {
        assert name == "timeline-video";
        CamelCase.TimelineVideoName();
      } else if i == 3 {
        assert name == "aspect-ratio";
        CamelCase.AspectRatioName();
      } else if i == 4 {
        assert name == "test-name";
        CamelCase.TestNameName();
      } else {
        assert name == "interval" && '-' !in name;
        CamelCase.NoDashUnchanged(name);
      }
    }
  }

  /**
   * What a build writes for timeline `d`: nothing when the loop returned
   * early or threw; otherwise the summary link, the page name, a meta cell
   * spanning the frames, and the frames and labels the loop produced.
   */
  function ShownAfter(d: Timeline, b: EmbedSampling.Build): Option<Shown>
  {
    match b
    case Built(frames, labels) => Some(Shown(d.summary, |frames|, d.url, frames, labels))
    case _ => None
  }

  class WPTEmbedFilmstrip {
    var wired: bool
    var intervalMs: int
    var digits: nat
    var timelineUrl: string
    var timelineData: Option<Timeline>
    var testId: Option<string>
    var timelineVideo: Option<string>
    var aspectRatio: Option<string>
    /** Observed attributes without a setter, stored as plain properties. */
    var props: map<string, Option<string>>
    /** The rows of the shadow root, once a build has written them. */
    var shown: Option<Shown>

    function State(): EmbedState
      reads this
    {
      EmbedState(wired, intervalMs, digits, timelineUrl, timelineData, testId, timelineVideo, aspectRatio, props, shown)
    }

    /** The interval is one of the five, and what is shown has one frame per label and a meta cell spanning them. */
    ghost predicate Valid()
      reads this
    {
      && Supported(IntervalSetting(intervalMs, digits))
      && (shown.Some? ==> shown.value.colspan == |shown.value.frames| == |shown.value.labels|)
    }

    /** `get interval()`: the getter reads a field no setter writes. */
    function Interval(): (r: string)
      ensures EmbedSetting(Text(r)) == DEFAULT_SETTING
    {
      "100"
    }

    constructor()
      ensures State() == EmbedState(false, 100, 1, "", None, Some(""), Some(""), Some(""), map[], None)
      ensures Valid()
    {
      wired, intervalMs, digits, timelineUrl, timelineData := false, 100, 1, "", None;
      testId, timelineVideo, aspectRatio, props, shown := Some(""), Some(""), Some(""), map[], None;
    }

    /** `connectedCallback` / `wireElements`: wiring happens once and puts the template in the shadow root. */
    method ConnectedCallback()
      modifies this
      ensures State() == old(State()).(wired := true)
    {
      if wired {
        return;
      }
      wired := true;
    }

    /**
     * `buildFilmstrip`: without a timeline nothing happens; otherwise the
     * sampling loop runs, and its frames and labels are written to the shadow
     * root. `crashed` reports the TypeError of the loop, or of the writes when
     * the element is not wired; a crash writes nothing.
     */
    method BuildFilmstrip() returns (crashed: bool)
      requires Valid()
      modifies this
      ensures Valid()
      ensures timelineData.None? ==> !crashed && State() == old(State())
      ensures timelineData.Some? ==>
        var d := timelineData.value;
        var b := EmbedSampling.Embedded(d.frames, d.visualComplete, intervalMs, digits);
        && (crashed <==> b.Thrown? || (b.Built? && !wired))
        && (crashed || b.NoFrame? ==> State() == old(State()))
        && (!crashed && b.Built? ==> State() == old(State()).(shown := ShownAfter(d, b)))
    {
      crashed := false;
      if timelineData.None? {
        return;
      }
      var d := timelineData.value;
      var b := EmbedSampling.SampleTimeline(d, intervalMs, digits);
      EmbedSampling.EmbeddedFacts(d.frames, d.visualComplete, intervalMs, digits);
      match b
      case NoFrame =>
      case Thrown =>
        crashed := true;
      case Built(frames, labels) =>
        if !wired {
          crashed := true;
          return;
        }
        shown := Some(Shown(d.summary, |frames|, d.url, frames, labels));
    }

    /**
     * `set interval`: the value, compared as it is, selects the interval and
     * label precision, and the filmstrip is rebuilt whether or not it changed.
     */
    method SetInterval(a: IntervalArg) returns (crashed: bool)
      requires Valid()
      modifies this
      ensures Valid()
      ensures IntervalSetting(intervalMs, digits) == EmbedSetting(a)
      ensures timelineData == old(timelineData) && wired == old(wired) && timelineUrl == old(timelineUrl)
      ensures testId == old(testId) && timelineVideo == old(timelineVideo) && aspectRatio == old(aspectRatio) && props == old(props)
      ensures timelineData.None? ==> !crashed && shown == old(shown)
      ensures timelineData.Some? ==>
        var d := timelineData.value;
        var b := EmbedSampling.Embedded(d.frames, d.visualComplete, intervalMs, digits);
        && (crashed <==> b.Thrown? || (b.Built? && !wired))
        && shown == (if !crashed && b.Built? then ShownAfter(d, b) else old(shown))
    {
      var setting := EmbedSetting(a);
      intervalMs, digits := setting.ms, setting.digits;
      crashed := BuildFilmstrip();
    }

    /**
     * `updateTimeline`, up to the fetch: a missing or empty url, or the url
     * already set, is ignored; any other url is recorded and fetched.
     */
    method UpdateTimeline(url: Option<string>) returns (fetch: Option<string>)
      modifies this
      ensures fetch.Some? <==> url.Some? && url.value != "" && url.value != old(timelineUrl)
      ensures fetch.Some? ==> fetch == url && State() == old(State()).(timelineUrl := url.value)
      ensures fetch.None? ==> State() == old(State())
    {
      fetch := None;
      if url.None? || url.value == "" || url.value == timelineUrl {
        return;
      }
      timelineUrl := url.value;
      fetch := url;
    }

    /**
     * The rest of `updateTimeline` once a fetch has answered: the document
     * replaces the timeline whichever url it was fetched for, and the
     * filmstrip is rebuilt.
     */
    method TimelineLoaded(d: Timeline) returns (crashed: bool)
      requires Valid()
      modifies this
      ensures Valid() && timelineData == Some(d)
      ensures intervalMs == old(intervalMs) && digits == old(digits) && wired == old(wired) && timelineUrl == old(timelineUrl)
      ensures testId == old(testId) && timelineVideo == old(timelineVideo) && aspectRatio == old(aspectRatio) && props == old(props)
      ensures var b := EmbedSampling.Embedded(d.frames, d.visualComplete, intervalMs, digits);
        && (crashed <==> b.Thrown? || (b.Built? && !wired))
        && shown == (if !crashed && b.Built? then ShownAfter(d, b) else old(shown))
    {
      timelineData := Some(d);
      crashed := BuildFilmstrip();
    }

    /**
     * `attributeChangedCallback`: a change of an observed attribute is written
     * to the camel-cased property: "interval" and "timelineUrl" go through
     * their setters, "testId", "timelineVideo" and "aspectRatio" are stored by
     * theirs, and anything else becomes a plain property.
     */
    method AttributeChanged(name: string, oldValue: Option<string>, newValue: Option<string>)
      returns (fetch: Option<string>, crashed: bool)
      requires Valid()
      modifies this
      ensures Valid()
      ensures !(name in EMBED_OBSERVED && oldValue != newValue) ==> fetch.None? && !crashed && State() == old(State())
      ensures name in EMBED_OBSERVED && oldValue != newValue ==>
        var n := CamelCase.ToCamelCase(name);
        && (n == "interval" ==>
              && fetch.None?
              && IntervalSetting(intervalMs, digits) == EmbedSetting(if newValue.Some? then Text(newValue.value) else Null)
              && State() == old(State()).(intervalMs := intervalMs, digits := digits, shown := shown)
              && (timelineData.None? ==> !crashed && shown == old(shown))
              && (timelineData.Some? ==>
                    var d := timelineData.value;
                    var b := EmbedSampling.Embedded(d.frames, d.visualComplete, intervalMs, digits);
                    && (crashed <==> b.Thrown? || (b.Built? && !wired))
                    && shown == (if !crashed && b.Built? then ShownAfter(d, b) else old(shown))))
        && (n == "timelineUrl" ==>
              && !crashed
              && (fetch.Some? <==> newValue.Some? && newValue.value != "" && newValue.value != old(timelineUrl))
              && State() == old(State()).(timelineUrl := if fetch.Some? then fetch.value else old(timelineUrl)))
        && (n == "testId" ==> fetch.None? && !crashed && State() == old(State()).(testId := newValue))
        && (n == "timelineVideo" ==> fetch.None? && !crashed && State() == old(State()).(timelineVideo := newValue))
        && (n == "aspectRatio" ==> fetch.None? && !crashed && State() == old(State()).(aspectRatio := newValue))
        && (n !in ["interval", "timelineUrl", "testId", "timelineVideo", "aspectRatio"] ==>
              && fetch.None? && !crashed
              && State() == old(State()).(props := old(props)[n := newValue]))
    {
      fetch, crashed := None, false;
      if name in EMBED_OBSERVED && oldValue != newValue {
        var n := CamelCase.ToCamelCase(name);
        if n == "interval" {
          crashed := SetInterval(if newValue.Some? then Text(newValue.value) else Null);
        } else if n == "timelineUrl" {
          fetch := UpdateTimeline(newValue);
        } else if n == "testId" {
          testId := newValue;
        } else if n == "timelineVideo" {
          timelineVideo := newValue;
        } else if n == "aspectRatio" {
          aspectRatio := newValue;
        } else {
          props := props[n := newValue];
        }
      }
    }
  }
}
