/**
 The stream in front of the k2 recognizer (backend/streaming/k2_stream.py): k2 decides where a
 segment ends, this side keeps a bounded copy of the audio and a voice gate beside it.

 Two tasks share the state. `feed` never suspends, and the receive loop only suspends between
 events, so each of their bodies is one atomic step; the steps below are those bodies.
 */
module K2Stream {
  import opened Basics
  import opened Vad

  // ----- The voice gate (_K2VoiceGate)

  datatype GateConfig = GateConfig(
    enabled: bool, threshold: real, startFrames: nat, alpha: real, hop: nat, backend: Backend)
  {
    predicate Valid() { startFrames >= 1 && hop > 0 }
  }

  /** `heard` is the backend's native state; a reset does not touch it. */
  datatype Gate = Gate(carry: seq<Sample>, smoothed: Option<real>, speechCount: nat, hasVoice: bool, heard: seq<Frame>)

  function ResetGate(cfg: GateConfig, g: Gate): Gate { Gate([], None, 0, !cfg.enabled, g.heard) }

  function GateFrame(cfg: GateConfig, g: Gate, frame: Frame): Gate {
    var heard := g.heard + [frame];
    var smoothed := Smooth(cfg.alpha, g.smoothed, Clamp01(cfg.backend(heard)));
    var count := if smoothed > cfg.threshold then g.speechCount + 1 else 0;
    Gate(g.carry, Some(smoothed), count, g.hasVoice || count >= cfg.startFrames, heard)
  }

  function GateDrain(cfg: GateConfig, g: Gate, pcm: seq<Sample>): Gate
    requires cfg.hop > 0
    decreases |pcm|
  {
    if |pcm| < cfg.hop then g.(carry := pcm)
    else GateDrain(cfg, GateFrame(cfg, g, pcm[..cfg.hop]), pcm[cfg.hop..])
  }

  function FeedGate(cfg: GateConfig, g: Gate, bytes: seq<Byte>): Gate
    requires cfg.hop > 0 && |bytes| % 2 == 0
  {
    if !cfg.enabled || bytes == [] then g else GateDrain(cfg, g.(carry := []), g.carry + DecodePcm(bytes))
  }

  lemma GateDrainStep(cfg: GateConfig, g: Gate, frame: Frame, rest: seq<Sample>, pcm: seq<Sample>)
    requires cfg.hop > 0 && |frame| == cfg.hop && pcm == frame + rest
    ensures GateDrain(cfg, g, pcm) == GateDrain(cfg, GateFrame(cfg, g, frame), rest)
  {
    assert pcm[..cfg.hop] == frame && pcm[cfg.hop..] == rest;
  }

  lemma GateDrainStop(cfg: GateConfig, g: Gate, pcm: seq<Sample>)
    requires |pcm| < cfg.hop
    ensures GateDrain(cfg, g, pcm) == g.(carry := pcm)
  {
  }

  class K2VoiceGate {
    const cfg: GateConfig
    var carry: seq<Sample>
    var smoothedProb: Option<real>
    var speechCount: nat
    var hasVoice: bool
    var heard: seq<Frame>

    function State(): Gate
      reads this
    {
      Gate(carry, smoothedProb, speechCount, hasVoice, heard)
    }

    constructor (cfg: GateConfig)
      ensures this.cfg == cfg && State() == Gate([], None, 0, !cfg.enabled, [])
    {
      this.cfg := cfg;
      carry, smoothedProb, speechCount, hasVoice, heard := [], None, 0, !cfg.enabled, [];
    }

    method Reset()
      modifies this
      ensures State() == ResetGate(cfg, old(State()))
    {
      carry, smoothedProb, speechCount, hasVoice := [], None, 0, !cfg.enabled;
    }

    method Feed(pcmBytes: seq<Byte>)
      requires cfg.hop > 0 && |pcmBytes| % 2 == 0
      modifies this
      ensures State() == FeedGate(cfg, old(State()), pcmBytes)
    {
      if !cfg.enabled || pcmBytes == [] {
        return;
      }
      var pcm := DecodePcm(pcmBytes);
      if |carry| > 0 {
        pcm := carry + pcm;
      }
      assert pcm == old(carry) + DecodePcm(pcmBytes);
      FeedFrames(pcm);
    }

    method FeedFrames(pcm: seq<Sample>)
      requires cfg.hop > 0
      modifies this
      ensures State() == GateDrain(cfg, old(State()).(carry := []), pcm)
    {
      hide GateFrame, GateDrain;
      var hop := cfg.hop;
      var used := UsableSamples(|pcm|, hop);
      carry := pcm[used..];
      ghost var rest := pcm;
      ghost var goal := GateDrain(cfg, State().(carry := []), pcm);
      var i := 0;
      while i < used
        invariant i <= used <= |pcm| && used == i + Whole(|rest|, hop)
        invariant rest == pcm[i..] && carry == pcm[used..]
        invariant goal == GateDrain(cfg, State().(carry := []), rest)
      {
        ghost var before := State().(carry := []);
        var frame := pcm[i..i + hop];
        GateDrainStep(cfg, before, frame, pcm[i + hop..], rest);
        ProcessFrame(frame);

        rest := pcm[i + hop..];
        i := i + hop;
      }
      GateDrainStop(cfg, State().(carry := []), rest);
    }

    method ProcessFrame(frame: Frame)
      modifies this`smoothedProb, this`speechCount, this`hasVoice, this`heard
      ensures State() == GateFrame(cfg, old(State()), frame)
      ensures State().(carry := []) == GateFrame(cfg, old(State()).(carry := []), frame)
    {
      heard := heard + [frame];
      var rawProb := Clamp01(cfg.backend(heard));
      smoothedProb := Some(Smooth(cfg.alpha, smoothedProb, rawProb));
      if smoothedProb.value > cfg.threshold {
        speechCount := speechCount + 1;
      } else {
        speechCount := 0;
      }
      if speechCount >= cfg.startFrames {
        hasVoice := true;
      }
    }
  }

  // ----- The stream (K2SegmentedStream)

  datatype Config = Config(
    gate: GateConfig,
    enablePseudoStream: bool,
    idleKeepMs: nat,
    maxSegmentSec: real,
    rms: seq<Sample> -> real)
  {
    predicate Valid() { gate.Valid() && maxSegmentSec >= 0.0 }

    /** Whole samples in the idle keep. */
    function KeepSamples(): (n: nat)
      ensures n * 1000 <= SAMPLE_RATE * idleKeepMs < (n + 1) * 1000
    {
      SAMPLE_RATE * idleKeepMs / 1000
    }

    /** Whole samples in the longest segment. */
    function MaxSamples(): (n: nat)
      requires maxSegmentSec >= 0.0
      ensures n as real <= maxSegmentSec * SAMPLE_RATE as real < (n + 1) as real
    {
      (maxSegmentSec * SAMPLE_RATE as real).Floor
    }
  }

  const IDLE_SPEECH_RMS: real := 0.003
  const DIGITAL_SILENCE_RMS: real := 0.0005

  /** What the session reads from the event queue; segment "seg-n" carries id n. */
  datatype Event =
    | PartialText(text: string, id: nat)
    | SegmentReady(pcm: seq<Sample>, isStopFlush: bool, id: nat, startSample: nat, endSample: nat)
    | Failure(message: string)
    | Sentinel

  datatype State = State(
    buffer: seq<Byte>,
    bufferStart: nat,
    total: nat,
    sawPartial: bool,
    segmentSeq: nat,
    active: Option<nat>,
    idleSeenSpeech: bool,
    gate: Gate,
    closing: bool,
    closed: bool,
    events: seq<Event>)

  function Begin(cfg: Config): State {
    State([], 0, 0, false, 0, None, false, Gate([], None, 0, !cfg.gate.enabled, []), false, false, [])
  }

  function AppendBuffer(s: State, bytes: seq<Byte>): State {
    s.(bufferStart := if s.buffer == [] then s.total else s.bufferStart,
       buffer := s.buffer + bytes,
       total := s.total + |bytes| / BYTES_PER_SAMPLE)
  }

  function ResetBuffer(cfg: Config, s: State): State {
    s.(buffer := [], bufferStart := s.total, sawPartial := false, idleSeenSpeech := false,
       gate := ResetGate(cfg.gate, s.gate))
  }

  /** _current_segment_id: the open id, or a fresh one. */
  function CurrentId(s: State): nat { if s.active.Some? then s.active.value else s.segmentSeq + 1 }

  function WithId(s: State): State { s.(segmentSeq := if s.active.Some? then s.segmentSeq else s.segmentSeq + 1,
                                        active := Some(CurrentId(s))) }

  function UpdateIdleSpeech(cfg: Config, s: State, bytes: seq<Byte>): State
    requires |bytes| % 2 == 0
  {
    s.(idleSeenSpeech := s.idleSeenSpeech || (bytes != [] && cfg.rms(DecodePcm(bytes)) >= IDLE_SPEECH_RMS))
  }

  /** While nothing but silence has come in, only the newest samples are kept. */
  function TrimTo(s: State, keepSamples: nat): State {
    var keep := keepSamples * BYTES_PER_SAMPLE;
    if s.sawPartial || s.idleSeenSpeech || keep == 0 || |s.buffer| <= keep then s
    else
      var drop := |s.buffer| - keep;
      s.(buffer := s.buffer[drop..], bufferStart := s.bufferStart + drop / BYTES_PER_SAMPLE)
  }

  function TrimIdle(cfg: Config, s: State): State { TrimTo(s, cfg.KeepSamples()) }

  /** _emit_buffered_segment: the cut. The id is spent even if the audio is dropped. */
  function EmitBuffered(cfg: Config, s: State, isStopFlush: bool): State
    requires |s.buffer| % 2 == 0
  {
    if s.buffer == [] then ResetBuffer(cfg, s)
    else
      var pcm := DecodePcm(s.buffer);
      var next := ResetBuffer(cfg, WithId(s).(active := None));
      if (!s.sawPartial && cfg.rms(pcm) < DIGITAL_SILENCE_RMS) || !s.gate.hasVoice then next
      else next.(events := s.events
                           + [SegmentReady(pcm, isStopFlush, CurrentId(s), s.bufferStart, s.bufferStart + |pcm|)])
  }

  function ForceCut(cfg: Config, s: State): State
    requires cfg.Valid() && |s.buffer| % 2 == 0
  {
    if cfg.MaxSamples() == 0 || |s.buffer| / BYTES_PER_SAMPLE < cfg.MaxSamples() then s else EmitBuffered(cfg, s, false)
  }

  /** The bytes of one feed that count: a trailing odd byte is cut off, a closing stream takes none. */
  function Accepted(s: State, bytes: seq<Byte>): (r: seq<Byte>)
    ensures |r| % 2 == 0 && r <= bytes
    ensures s.closing || s.closed ==> r == []
    ensures !s.closing && !s.closed ==> |bytes| - |r| <= 1
  {
    if s.closing || s.closed then [] else bytes[..|bytes| / 2 * 2]
  }

  /** Buffering one feed, up to the request queue. */
  function Take(cfg: Config, s: State, bytes: seq<Byte>): State
    requires cfg.Valid() && |bytes| % 2 == 0
  {
    var a := UpdateIdleSpeech(cfg, AppendBuffer(s, bytes), bytes);
    a.(gate := FeedGate(cfg.gate, s.gate, bytes))
  }

  /** feed; without room in the request queue it fails after buffering. */
  function FeedBytes(cfg: Config, s: State, bytes: seq<Byte>, room: bool): State
    requires cfg.Valid() && |s.buffer| % 2 == 0
  {
    var taken := Accepted(s, bytes);
    if taken == [] then s
    else if !room then Take(cfg, s, taken)
    else ForceCut(cfg, TrimIdle(cfg, Take(cfg, s, taken)))
  }

  /** A partial result from k2, its text already stripped. */
  function OnPartial(cfg: Config, s: State, text: string): State {
    var a := s.(sawPartial := true);
    if text == "" || !cfg.enablePseudoStream then a
    else if !s.gate.hasVoice then WithId(a)
    else WithId(a).(events := s.events + [PartialText(text, CurrentId(s))])
  }

  /** The receive loop's exit: the queue is closed behind the last event. */
  function Finish(s: State, last: seq<Event>): State { s.(closed := true, events := s.events + last + [Sentinel]) }

  class K2SegmentedStream {
    const cfg: Config
    const voiceGate: K2VoiceGate
    var buffer: seq<Byte>
    var bufferStartSample: nat
    var totalSamples: nat
    var sawPartial: bool
    var segmentSeq: nat
    var activeSegmentId: Option<nat>
    var idleSeenSpeech: bool
    var closing: bool
    var closed: bool
    var eventQueue: seq<Event>

    ghost predicate Valid()
      reads this, voiceGate
    {
      cfg.Valid() && voiceGate.cfg == cfg.gate && |buffer| % 2 == 0
    }

    function Contents(): State
      reads this, voiceGate
    {
      State(buffer, bufferStartSample, totalSamples, sawPartial, segmentSeq, activeSegmentId, idleSeenSpeech,
            voiceGate.State(), closing, closed, eventQueue)
    }

    constructor (cfg: Config)
      requires cfg.Valid()
      ensures Valid() && fresh(voiceGate) && this.cfg == cfg && Contents() == Begin(cfg)
    {
      this.cfg := cfg;
      voiceGate := new K2VoiceGate(cfg.gate);
      buffer, bufferStartSample, totalSamples := [], 0, 0;
      sawPartial, segmentSeq, activeSegmentId, idleSeenSpeech := false, 0, None, false;
      closing, closed, eventQueue := false, false, [];
    }

    /** `room` tells whether the bounded request queue can take the chunk; without it the call raises. */
    method Feed(pcmBytes: seq<Byte>, room: bool) returns (raised: bool)
      requires Valid()
      modifies this, voiceGate
      ensures Valid() && Contents() == FeedBytes(cfg, old(Contents()), pcmBytes, room)
      ensures raised <==> !room && Accepted(old(Contents()), pcmBytes) != []
    {
      hide FeedGate, TrimIdle, ForceCut, UpdateIdleSpeech, AppendBuffer;
      if pcmBytes == [] || closing || closed {
        return false;
      }
      var bytes := pcmBytes;
      if |bytes| % BYTES_PER_SAMPLE != 0 {
        bytes := bytes[..|bytes| - 1];
      }
      assert bytes == Accepted(Contents(), pcmBytes);
      if bytes == [] {
        return false;
      }
      AppendToBuffer(bytes);
      MarkIdleSpeech(bytes);
      voiceGate.Feed(bytes);
      assert Contents() == Take(cfg, old(Contents()), bytes);
      if !room {
        return true;
      }
      TrimIdleBufferIfNeeded();
      ForceCutIfNeeded();
      return false;
    }

    method AppendToBuffer(bytes: seq<Byte>)
      modifies this
      ensures Contents() == AppendBuffer(old(Contents()), bytes) && |buffer| == |old(buffer)| + |bytes|
    {
      if buffer == [] {
        bufferStartSample := totalSamples;
      }
      buffer := buffer + bytes;
      totalSamples := totalSamples + |bytes| / BYTES_PER_SAMPLE;
    }

    method MarkIdleSpeech(bytes: seq<Byte>)
      requires |bytes| % 2 == 0
      modifies this`idleSeenSpeech
      ensures Contents() == UpdateIdleSpeech(cfg, old(Contents()), bytes)
    {
      if idleSeenSpeech || bytes == [] {
        return;
      }
      if cfg.rms(DecodePcm(bytes)) >= IDLE_SPEECH_RMS {
        idleSeenSpeech := true;
      }
    }

    method TrimIdleBufferIfNeeded()
      requires Valid()
      modifies this
      ensures Valid() && Contents() == TrimIdle(cfg, old(Contents()))
    {
      if sawPartial || idleSeenSpeech {
        return;
      }
      var keepSamples := SAMPLE_RATE * cfg.idleKeepMs / 1000;
      if keepSamples <= 0 {
        return;
      }
      var keepBytes := keepSamples * BYTES_PER_SAMPLE;
      if |buffer| <= keepBytes {
        return;
      }
      var dropBytes := |buffer| - keepBytes;
      buffer := buffer[dropBytes..];
      bufferStartSample := bufferStartSample + dropBytes / BYTES_PER_SAMPLE;
    }

    method ForceCutIfNeeded()
      requires Valid()
      modifies this, voiceGate
      ensures Valid() && Contents() == ForceCut(cfg, old(Contents()))
    {
      var maxSamples := cfg.MaxSamples();
      if maxSamples <= 0 {
        return;
      }
      var bufferedSamples := |buffer| / BYTES_PER_SAMPLE;
      if bufferedSamples < maxSamples {
        return;
      }
      EmitBufferedSegment(false);
    }

    method ResetStreamBuffer()
      requires Valid()
      modifies this, voiceGate
      ensures Valid() && Contents() == ResetBuffer(cfg, old(Contents()))
    {
      buffer := [];
      bufferStartSample := totalSamples;
      sawPartial, idleSeenSpeech := false, false;
      voiceGate.Reset();
    }

    method CurrentSegmentId() returns (id: nat)
      modifies this
      ensures id == CurrentId(old(Contents())) && Contents() == WithId(old(Contents()))
    {
      if activeSegmentId == None {
        segmentSeq := segmentSeq + 1;
        activeSegmentId := Some(segmentSeq);
      }
      id := activeSegmentId.value;
    }

    method EmitBufferedSegment(isStopFlush: bool)
      requires Valid()
      modifies this, voiceGate
      ensures Valid() && Contents() == EmitBuffered(cfg, old(Contents()), isStopFlush)
    {
      if buffer == [] {
        ResetStreamBuffer();
        return;
      }
      var segmentId := CurrentSegmentId();
      activeSegmentId := None;
      var baseSample := bufferStartSample;
      var saw := sawPartial;
      var hadVoice := voiceGate.hasVoice;
      var pcm := DecodePcm(buffer);
      ResetStreamBuffer();
      if |pcm| == 0 {
        return;
      }
      if !saw && cfg.rms(pcm) < DIGITAL_SILENCE_RMS {
        return;
      }
      if !hadVoice {
        return;
      }
      var endSample := baseSample + |pcm|;
      eventQueue := eventQueue + [SegmentReady(pcm, isStopFlush, segmentId, baseSample, endSample)];
    }

    method ReceivePartial(text: string)
      requires Valid()
      modifies this
      ensures Valid() && Contents() == OnPartial(cfg, old(Contents()), text)
    {
      sawPartial := true;
      if text != "" && cfg.enablePseudoStream {
        var segmentId := CurrentSegmentId();
        if !voiceGate.hasVoice {
          return;
        }
        eventQueue := eventQueue + [PartialText(text, segmentId)];
      }
    }

    /** "endpoint" and "final" events. */
    method ReceiveEndpoint()
      requires Valid()
      modifies this, voiceGate
      ensures Valid() && Contents() == EmitBuffered(cfg, old(Contents()), old(closing))
    {
      EmitBufferedSegment(closing);
    }

    /** "error" and "session_ended" events and a failed call: a last cut, perhaps an error, and the end. */
    method ReceiveEnd(message: Option<string>)
      requires Valid()
      modifies this, voiceGate
      ensures Valid()
      ensures Contents()
           == Finish(EmitBuffered(cfg, old(Contents()), true), if message.Some? then [Failure(message.value)] else [])
    {
      EmitBufferedSegment(true);
      if message.Some? {
        eventQueue := eventQueue + [Failure(message.value)];
      }
      LoopExit();
    }

    /** The `finally` of the receive loop, alone when the call just ends or is cancelled. */
    method LoopExit()
      modifies this
      ensures Contents() == Finish(old(Contents()), [])
    {
      closed := true;
      eventQueue := eventQueue + [Sentinel];
    }

    /** flush and aclose: no more audio is taken. */
    method BeginClose()
      modifies this
      ensures Contents() == old(Contents()).(closing := true)
    {
      closing := true;
    }
  }
}
