/**
 When a recording is cut alike as a file and as a stream: the exact condition on the settings, over
 all backends, all recordings and all chunkings (backend/asr/transcribe.py, segment_pcm_offline).
 */
module OfflineAgreement {
  import opened Basics
  import opened Events
  import opened Vad
  import opened AudioStream
  import opened StreamRuns
  import opened Transcribe
  import opened OfflineRuns

  /** What segment_pcm_offline returns (Transcribe.SegmentPcmOffline). */
  function FileSegments(cfg: Config, silenceMs: int, maxSegmentSec: real, bytes: seq<Byte>): seq<OfflineSegment>
    requires cfg.hop > 0 && |bytes| % 2 == 0
  {
    Numbered(SegmentsOf(OfflineTail(OfflineConfig(cfg, silenceMs), MaxSpeechSamples(maxSegmentSec), FRESH, bytes)))
  }

  /** The segments of a live stream with the same client settings that is fed these chunks and stopped. */
  function StreamSegments(cfg: Config, chunks: seq<Chunk>): seq<OfflineSegment>
    requires cfg.hop > 0 && Even(chunks)
  {
    var a := FeedAll(cfg, FRESH, chunks);
    Numbered(SegmentsOf(a.events + FlushStream(cfg, a.next, true).events))
  }

  ghost predicate Agree(cfg: Config, silenceMs: int, maxSegmentSec: real, chunks: seq<Chunk>)
    requires cfg.hop > 0 && Even(chunks)
  {
    |BytesOf(chunks)| % 2 == 0
    && StreamSegments(cfg, chunks) == FileSegments(cfg, silenceMs, maxSegmentSec, BytesOf(chunks))
  }

  /** The offline pause is the live one, in frames: no override, or one that rounds to as many frames. */
  predicate SamePause(cfg: Config, silenceMs: int)
    requires cfg.hop > 0
  {
    silenceMs <= 0 || FramesFor(silenceMs, FrameMs(cfg.hop, SAMPLE_RATE), 1) == cfg.tunables.silenceFrames
  }

  /** Some probability counts as speech. */
  predicate CanHear(t: Tunables) { t.threshold < 1.0 }

  /** Some probability counts as speech, and some later one of zero as silence. */
  predicate CanPause(t: Tunables) {
    0.0 <= t.threshold < 1.0 && t.alpha < 1.0 && (t.threshold == 0.0 ==> t.alpha == 0.0)
  }

  function Quiet(cfg: Config): Config { cfg.(enablePartial := false) }

  // ----- One recording, one pause

  /** With the same pause, a recording is cut alike exactly if the force-cut never fires before its last whole frame. */
  lemma SamePauseAgrees(cfg: Config, silenceMs: int, maxSegmentSec: real, chunks: seq<Chunk>)
    requires cfg.Valid() && Even(chunks) && SamePause(cfg, silenceMs)
    ensures |BytesOf(chunks)| % 2 == 0
    ensures Agree(cfg, silenceMs, maxSegmentSec, chunks)
       <==> !CutsEarly(OfflineConfig(cfg, silenceMs), MaxSpeechSamples(maxSegmentSec), FRESH, BytesOf(chunks))
  {
    hide FeedAll, OfflineTail, FlushStream, CutsEarly, FramesFor;
    PcmOfBytes(chunks);
    OfflineConfigValid(cfg, silenceMs);
    assert OfflineConfig(cfg, silenceMs) == Quiet(cfg);
    OfflineEqualsStream(Quiet(cfg), MaxSpeechSamples(maxSegmentSec), BytesOf(chunks), cfg, chunks);
  }

  /** Without a cap nothing is cut early. */
  lemma UncappedNeverCuts(cfg: Config, s: Stream, bytes: seq<Byte>)
    requires cfg.hop > 0 && |bytes| % 2 == 0
    ensures !CutsEarly(cfg, 0, s, bytes)
    decreases |bytes|
  {
    if bytes != [] {
      var chunk := FirstChunk(bytes);
      UncappedNeverCuts(cfg, FeedPcm(cfg, s, DecodePcm(chunk), 0.0).next, bytes[|chunk|..]);
    }
  }

  // ----- Settings under which no pause is ever heard

  /** Speech that is open has not faded. */
  ghost predicate Latched(t: Tunables, s: VadState) {
    && (s.smoothed.Some? ==> 0.0 <= s.smoothed.value <= 1.0)
    && (s.speaking ==> s.smoothed.Some? && s.smoothed.value > t.threshold)
  }

  lemma Mix(alpha: real, beta: real, p: real, raw: real)
    requires 0.0 <= alpha && 0.0 <= beta && alpha + beta == 1.0 && 0.0 <= p <= 1.0 && 0.0 <= raw <= 1.0
    ensures 0.0 <= alpha * p + beta * raw <= 1.0
    ensures alpha == 1.0 ==> alpha * p + beta * raw == p
    ensures alpha > 0.0 && p > 0.0 ==> alpha * p + beta * raw > 0.0
  {
    var x := Share(alpha, p);
    var y := Share(beta, raw);
    assert x + y <= alpha + beta;
  }

  /** A product with a factor from [0, 1]. */
  lemma Share(a: real, b: real) returns (x: real)
    requires 0.0 <= a && 0.0 <= b <= 1.0
    ensures x == a * b && 0.0 <= x <= a && (a > 0.0 && b > 0.0 ==> x > 0.0) && (a == 1.0 ==> x == b)
    ensures a == 0.0 ==> x == 0.0
  {
    x := a * b;
    var rest := 1.0 - b;
    NotNegative(a, rest);
    assert a * (b + rest) == a * b + a * rest;
  }

  lemma NotNegative(a: real, b: real)
    requires 0.0 <= a && 0.0 <= b
    ensures 0.0 <= a * b
  {
  }

  /** Smoothing stays within bounds; and if no pause can be heard, what was speech goes on being speech. */
  lemma SmoothStays(t: Tunables, previous: Option<real>, raw: real)
    requires t.Valid() && 0.0 <= raw <= 1.0 && (previous.Some? ==> 0.0 <= previous.value <= 1.0)
    ensures 0.0 <= Smooth(t.alpha, previous, raw) <= 1.0
    ensures !CanPause(t) && previous.Some? && previous.value > t.threshold ==> Smooth(t.alpha, previous, raw) > t.threshold
  {
    if previous.Some? {
      Mix(t.alpha, 1.0 - t.alpha, previous.value, raw);
    }
  }

  /** Then the number of silent frames that end an utterance does not matter. */
  lemma StepIgnoresPause(t: Tunables, u: Tunables, s: VadState, frame: Frame, raw: real)
    requires t.Valid() && u.Valid() && u == t.(silenceFrames := u.silenceFrames) && !CanPause(t) && Latched(t, s)
    requires 0.0 <= raw <= 1.0
    ensures Step(t, s, frame, raw) == Step(u, s, frame, raw) && Latched(t, Step(t, s, frame, raw).next)
  {
    SmoothStays(t, s.smoothed, raw);
    hide Smooth, CanPause;
  }

  lemma {:induction false} DrainIgnoresPause(a: Config, b: Config, s: Stream, pcm: seq<Sample>)
    requires a.Valid() && b.Valid() && b == a.(tunables := b.tunables)
    requires b.tunables == a.tunables.(silenceFrames := b.tunables.silenceFrames)
    requires !CanPause(a.tunables) && Latched(a.tunables, s.vad)
    ensures Drain(a, s, pcm) == Drain(b, s, pcm) && Latched(a.tunables, Drain(a, s, pcm).next.vad)
    decreases |pcm|
  {
    hide Step, CanPause, Latched;
    if |pcm| >= a.hop {
      var frame := pcm[..a.hop];
      StepIgnoresPause(a.tunables, b.tunables, s.vad, frame, Clamp01(a.backend(s.heard + [frame])));
      assert FrameStep(a, s, frame) == FrameStep(b, s, frame);
      DrainIgnoresPause(a, b, FrameStep(a, s, frame).next, pcm[a.hop..]);
    }
  }

  lemma FreshIsLatched(t: Tunables)
    ensures Latched(t, FRESH.vad)
  {
  }

  // ----- Settings under which nothing is ever heard

  lemma {:induction false} DeafDrain(cfg: Config, s: Stream, pcm: seq<Sample>)
    requires cfg.Valid() && !CanHear(cfg.tunables) && Latched(cfg.tunables, s.vad)
    ensures Latched(cfg.tunables, Drain(cfg, s, pcm).next.vad)
  {
    DrainIgnoresPause(cfg, cfg, s, pcm);
  }

  lemma {:induction false} DeafNeverCuts(cfg: Config, cap: nat, s: Stream, bytes: seq<Byte>)
    requires cfg.Valid() && !cfg.enablePartial && |bytes| % 2 == 0
    requires !CanHear(cfg.tunables) && Latched(cfg.tunables, s.vad)
    ensures !CutsEarly(cfg, cap, s, bytes)
    decreases |bytes|
  {
    hide Drain, CanHear;
    if bytes != [] {
      var chunk := FirstChunk(bytes);
      DeafDrain(cfg, s.(carry := []), s.carry + DecodePcm(chunk));
      var a := FeedPcm(cfg, s, DecodePcm(chunk), 0.0);
      NotSpeaking(cfg.tunables, a.next.vad);
      DeafNeverCuts(cfg, cap, a.next, bytes[|chunk|..]);
    }
  }

  lemma NotSpeaking(t: Tunables, s: VadState)
    requires !CanHear(t) && Latched(t, s)
    ensures !s.speaking
  {
  }
}
