/** Events an audio stream hands to a task engine (backend/streaming/events.py). */
module Events {
  import opened Basics

  datatype Segment = Segment(
    pcm: seq<Sample>,
    isStopFlush: bool,
    id: Option<string>,
    startMs: Option<real>,
    endMs: Option<real>,
    speakerIndex: Option<int>)

  datatype StreamEvent =
    | SegmentReady(segment: Segment)
    | PartialSnapshot(snapshot: seq<Sample>)
    | SpeechStarted
    | SpeechDropped

  /** Position of a sample on the session timeline, in milliseconds. */
  function Milliseconds(sample: int): (ms: real)
    ensures ms * 16.0 == sample as real
  {
    sample as real * 1000.0 / SAMPLE_RATE as real
  }

  /** The finalized segments among the events, in order. */
  function SegmentsOf(events: seq<StreamEvent>): seq<Segment> {
    if events == [] then []
    else (if events[0].SegmentReady? then [events[0].segment] else []) + SegmentsOf(events[1..])
  }

  lemma {:induction false} SegmentsOfAppend(a: seq<StreamEvent>, b: seq<StreamEvent>)
    ensures SegmentsOf(a + b) == SegmentsOf(a) + SegmentsOf(b)
  {
    if a == [] {
      assert a + b == b;
    } else {
      assert (a + b)[1..] == a[1..] + b;
      SegmentsOfAppend(a[1..], b);
      var head := if a[0].SegmentReady? then [a[0].segment] else [];
      assert SegmentsOf(a) == head + SegmentsOf(a[1..]);
      assert SegmentsOf(a + b) == head + (SegmentsOf(a[1..]) + SegmentsOf(b));
    }
  }
}
