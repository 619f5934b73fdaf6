/**
 The carry-buffered stream around the VAD (backend/streaming/audio_stream.py,
 class VadSegmentedStream): chunking, the sample clock and the events. One feed and one
 flush are functions on values, and the class is proved against them.
 */
module AudioStream {
  import opened Basics
  import opened Events
  import opened Vad

  datatype Config = Config(
    tunables: Tunables,
    hop: nat,
    backend: Backend,
    minSegmentMs: int,
    firstPartialMs: int,
    partialInterval: real,
    enablePartial: bool)
  {
    predicate Valid() { tunables.Valid() && hop > 0 }

    /** Whole samples in the shortest utterance that is handed on. */
    function MinSamples(): (n: int)
      ensures n * 1000 <= SAMPLE_RATE * minSegmentMs < (n + 1) * 1000
    {
      SAMPLE_RATE * minSegmentMs / 1000
    }

    /** Whole samples in the shortest utterance that a snapshot is taken of. */
    function FirstPartialSamples(): (n: int)
      ensures n * 1000 <= SAMPLE_RATE * firstPartialMs < (n + 1) * 1000
    {
      SAMPLE_RATE * firstPartialMs / 1000
    }
  }

  datatype Stream = Stream(
    vad: VadState,
    heard: seq<Frame>,
    carry: seq<Sample>,
    consumed: nat,
    announced: bool,
    lastPartial: real)

  const FRESH := Stream(RESET, [], [], 0, false, 0.0)

  datatype Output = Output(next: Stream, events: seq<StreamEvent>)

  /** _segment_with_timing */
  function TimedSegment(pcm: seq<Sample>, endSample: int, isStopFlush: bool): Segment {
    var startSample := Max(0, endSample - |pcm|);
    Segment(pcm, isStopFlush, None, Some(Milliseconds(startSample)), Some(Milliseconds(endSample)), None)
  }

  function Dropped(announced: bool): seq<StreamEvent> { if announced then [SpeechDropped] else [] }

  /** The frame loop's body, with the clock carried in the state. */
  function FrameStep(cfg: Config, s: Stream, frame: Frame): Output {
    var heard := s.heard + [frame];
    var r := Step(cfg.tunables, s.vad, frame, Clamp01(cfg.backend(heard)));
    var clock := s.consumed + cfg.hop;
    var opens := !s.vad.speaking && r.next.speaking && !s.announced;
    var announced := s.announced || opens;
    var lastPartial := if opens then 0.0 else s.lastPartial;
    var started := if opens then [SpeechStarted] else [];
    match r.segment
    case None => Output(Stream(r.next, heard, s.carry, clock, announced, lastPartial), started)
    case Some(pcm) =>
      var next := Stream(r.next, heard, s.carry, clock, false, lastPartial);
      if |pcm| < cfg.MinSamples() then Output(next, started + Dropped(announced))
      else Output(next, started + [SegmentReady(TimedSegment(pcm, clock, false))])
  }

  /** Whole frames are processed in order; what is left becomes the carry. */
  function Drain(cfg: Config, s: Stream, pcm: seq<Sample>): Output
    requires cfg.hop > 0
    decreases |pcm|
  {
    if |pcm| < cfg.hop then Output(s.(carry := pcm), [])
    else
      var a := FrameStep(cfg, s, pcm[..cfg.hop]);
      var b := Drain(cfg, a.next, pcm[cfg.hop..]);
      Output(b.next, a.events + b.events)
  }

  /** The throttled snapshot at the end of a feed; `now` is the monotonic clock. */
  function PartialStep(cfg: Config, s: Stream, now: real): Output {
    if cfg.enablePartial && s.vad.speaking && now - s.lastPartial >= cfg.partialInterval then
      match Residue(s.vad)
      case Some(pcm) =>
        if |pcm| >= cfg.FirstPartialSamples() then Output(s.(lastPartial := now), [PartialSnapshot(pcm)])
        else Output(s, [])
      case None => Output(s, [])
    else Output(s, [])
  }

  function FeedPcm(cfg: Config, s: Stream, pcm: seq<Sample>, now: real): Output
    requires cfg.hop > 0
  {
    var a := Drain(cfg, s.(carry := []), s.carry + pcm);
    var b := PartialStep(cfg, a.next, now);
    Output(b.next, a.events + b.events)
  }

  function FlushStream(cfg: Config, s: Stream, force: bool): Output {
    var next := s.(vad := RESET, announced := false);
    match Residue(s.vad)
    case None => Output(next, Dropped(s.announced))
    case Some(pcm) =>
      if pcm == [] || (!force && |pcm| < cfg.MinSamples()) then Output(next, Dropped(s.announced))
      else Output(next, [SegmentReady(TimedSegment(pcm, s.consumed, force))])
  }

  function Prepend(events: seq<StreamEvent>, o: Output): Output { Output(o.next, events + o.events) }

  /** One turn of the frame loop, seen from the end of the loop. */
  lemma DrainStep(cfg: Config, s: Stream, pcm: seq<Sample>, events: seq<StreamEvent>, frame: Frame, rest: seq<Sample>)
    requires cfg.hop > 0 && |frame| == cfg.hop && pcm == frame + rest
    ensures
      var step := FrameStep(cfg, s, frame);
      Prepend(events, Drain(cfg, s, pcm)) == Prepend(events + step.events, Drain(cfg, step.next, rest))
  {
    assert pcm[..cfg.hop] == frame && pcm[cfg.hop..] == rest;
    var step := FrameStep(cfg, s, frame);
    var last := Drain(cfg, step.next, rest);
    assert events + (step.events + last.events) == (events + step.events) + last.events;
  }

  lemma DrainStop(cfg: Config, s: Stream, pcm: seq<Sample>, events: seq<StreamEvent>)
    requires |pcm| < cfg.hop
    ensures Prepend(events, Drain(cfg, s, pcm)) == Output(s.(carry := pcm), events)
  {
  }

  class VadSegmentedStream {
    const vad: VADProcessor
    var pcmCarry: seq<Sample>
    var consumedSamples: nat
    var lastPartialTime: real
    var announcedSpeech: bool
    var minSegmentMs: int
    var firstPartialMs: int
    var partialInterval: real
    var enablePartial: bool

    ghost predicate Valid()
      reads this, vad
    {
      vad.hop > 0 && vad.tunables.Valid()
    }

    function Cfg(): Config
      reads this, vad
    {
      Config(vad.tunables, vad.hop, vad.backend, minSegmentMs, firstPartialMs, partialInterval, enablePartial)
    }

    function State(): Stream
      reads this, vad
    {
      Stream(vad.State(), vad.heard, pcmCarry, consumedSamples, announcedSpeech, lastPartialTime)
    }

    constructor (cfg: Config)
      requires cfg.Valid()
      ensures Valid() && fresh(vad)
      ensures Cfg() == cfg && State() == FRESH
    {
      vad := new VADProcessor(cfg.hop, cfg.backend, cfg.tunables);
      pcmCarry, consumedSamples, lastPartialTime, announcedSpeech := [], 0, 0.0, false;
      minSegmentMs, firstPartialMs := cfg.minSegmentMs, cfg.firstPartialMs;
      partialInterval, enablePartial := cfg.partialInterval, cfg.enablePartial;
    }

    /** One pass of the frame loop; `endSample` is the clock just after the frame. */
    method FeedFrame(frame: Frame, endSample: nat, ghost here: Stream) returns (events: seq<StreamEvent>)
      requires Valid()
      requires here == State().(carry := [], consumed := here.consumed) && endSample == here.consumed + vad.hop
      modifies this`announcedSpeech, this`lastPartialTime, vad
      ensures Valid() && Cfg() == old(Cfg())
      ensures Output(State().(carry := [], consumed := endSample), events) == FrameStep(old(Cfg()), here, frame)
    {
      events := [];
      var wasSpeaking := vad.isSpeaking;
      var segment := vad.Process(frame);
      var nowSpeaking := vad.isSpeaking;
      if !wasSpeaking && nowSpeaking && !announcedSpeech {
        announcedSpeech := true;
        lastPartialTime := 0.0;
        events := events + [SpeechStarted];
      }
      if segment == None {
        return;
      }
      var announced := announcedSpeech;
      announcedSpeech := false;
      if |segment.value| < SAMPLE_RATE * minSegmentMs / 1000 {
        if announced {
          events := events + [SpeechDropped];
        }
        return;
      }
      events := events + [SegmentReady(TimedSegment(segment.value, endSample, false))];
    }

    /** The loop over the whole frames of a buffer; the rest is kept for the next feed. */
    method FeedFrames(pcm: seq<Sample>) returns (events: seq<StreamEvent>)
      requires Valid()
      modifies this`pcmCarry, this`consumedSamples, this`announcedSpeech, this`lastPartialTime, vad
      ensures Valid() && Cfg() == old(Cfg())
      ensures Output(State(), events) == Drain(old(Cfg()), old(State()).(carry := []), pcm)
    {
      hide FrameStep, Drain;
      ghost var cfg, here, rest := Cfg(), State().(carry := []), pcm;
      ghost var goal := Drain(cfg, here, pcm);
      var hop := vad.hop;
      var used := UsableSamples(|pcm|, hop);
      pcmCarry := if used < |pcm| then pcm[used..] else [];
      events := [];
      var base := consumedSamples;
      var i := 0;
      while i < used
        invariant i <= used <= |pcm| && used == i + Whole(|rest|, hop)
        invariant rest == pcm[i..]
        invariant Cfg() == cfg && consumedSamples == base && pcmCarry == pcm[used..]
        invariant here == State().(carry := [], consumed := base + i)
        invariant goal == Prepend(events, Drain(cfg, here, rest))
      {
        var frame := pcm[i..i + hop];
        DrainStep(cfg, here, rest, events, frame, pcm[i + hop..]);
        ghost var step := FrameStep(cfg, here, frame);
        var more := FeedFrame(frame, base + i + hop, here);
        rest := pcm[i + hop..];
        here := step.next;
        assert step.events == more;
        events := events + more;
        i := i + hop;
      }
      consumedSamples := base + used;
      DrainStop(cfg, here, rest, events);
    }

    /** The throttled snapshot while the user is still speaking. */
    method MaybePartial(now: real) returns (events: seq<StreamEvent>)
      modifies this`lastPartialTime
      ensures Output(State(), events) == PartialStep(Cfg(), old(State()), now)
    {
      if enablePartial && vad.isSpeaking {
        if now - lastPartialTime >= partialInterval {
          var snapshot := vad.SnapshotIncompleteSpeech();
          if snapshot.Some? && |snapshot.value| >= SAMPLE_RATE * firstPartialMs / 1000 {
            lastPartialTime := now;
            return [PartialSnapshot(snapshot.value)];
          }
        }
      }
      return [];
    }

    method Feed(pcmBytes: seq<Byte>, now: real) returns (events: seq<StreamEvent>)
      requires Valid() && |pcmBytes| % 2 == 0
      modifies this, vad
      ensures Valid() && Cfg() == old(Cfg())
      ensures Output(State(), events) == FeedPcm(old(Cfg()), old(State()), DecodePcm(pcmBytes), now)
    {
      var pcm := DecodePcm(pcmBytes);
      if |pcmCarry| > 0 {
        pcm := pcmCarry + pcm;
      }
      assert pcm == old(pcmCarry) + DecodePcm(pcmBytes);
      events := FeedFrames(pcm);
      var partial := MaybePartial(now);
      events := events + partial;
    }

    method Flush(force: bool) returns (events: seq<StreamEvent>)
      requires Valid()
      modifies this, vad
      ensures Valid() && Cfg() == old(Cfg())
      ensures Output(State(), events) == FlushStream(old(Cfg()), old(State()), force)
    {
      events := [];
      var remaining := vad.Flush();
      var announced := announcedSpeech;
      announcedSpeech := false;
      if remaining == None || |remaining.value| == 0 {
        if announced {
          events := events + [SpeechDropped];
        }
        return;
      }
      if !force && |remaining.value| < SAMPLE_RATE * minSegmentMs / 1000 {
        if announced {
          events := events + [SpeechDropped];
        }
        return;
      }
      events := events + [SegmentReady(TimedSegment(remaining.value, consumedSamples, force))];
    }
  }
}
