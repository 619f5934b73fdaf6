/**
 Offline segmentation of a whole recording (backend/asr/transcribe.py, segment_pcm_offline):
 the recording is replayed through a VadSegmentedStream in chunks of one second, and speech
 that grows past a ceiling is cut by force at a chunk boundary.
 */
module Transcribe {
  import opened Basics
  import opened Events
  import opened Vad
  import opened AudioStream

  const CHUNK_SAMPLES: nat := SAMPLE_RATE
  const CHUNK_BYTES: nat := CHUNK_SAMPLES * BYTES_PER_SAMPLE

  datatype OfflineSegment = OfflineSegment(index: nat, startMs: real, endMs: real, pcm: seq<Sample>)

  function OrZero(x: Option<real>): real { if x.Some? then x.value else 0.0 }

  function Numbered(segments: seq<Segment>, from: nat := 0): (r: seq<OfflineSegment>)
    ensures |r| == |segments|
  {
    seq(|segments|, i requires 0 <= i < |segments| =>
      OfflineSegment(from + i, OrZero(segments[i].startMs), OrZero(segments[i].endMs), segments[i].pcm))
  }

  /** A numbered segment is the segment, under its place in the file. */
  lemma NumberedKeeps(segments: seq<Segment>, i: nat)
    requires i < |segments|
    ensures
      var g, r := segments[i], Numbered(segments)[i];
      && r.index == i && r.pcm == g.pcm
      && (g.startMs == Some(r.startMs) || g.startMs == None) && (g.endMs == Some(r.endMs) || g.endMs == None)
  {
  }

  /** The offline-only cut pause replaces the live one; snapshots are off. */
  function OfflineConfig(cfg: Config, silenceMs: int): Config
    requires cfg.hop > 0
  {
    var quiet := cfg.(enablePartial := false);
    if silenceMs > 0 then
      quiet.(tunables := cfg.tunables.(silenceFrames := FramesFor(silenceMs, FrameMs(cfg.hop, SAMPLE_RATE), 1)))
    else quiet
  }

  /** The most samples that last no longer than the cap; none at all for a cap that is not positive. */
  function MaxSpeechSamples(maxSegmentSec: real): (n: nat)
    ensures maxSegmentSec <= 0.0 ==> n == 0
    ensures maxSegmentSec > 0.0 ==> n as real <= maxSegmentSec * SAMPLE_RATE as real < (n + 1) as real
  {
    if maxSegmentSec > 0.0 then (maxSegmentSec * SAMPLE_RATE as real).Floor else 0
  }

  /** The force-cut's guard; a cap of zero disables it. */
  predicate Overfull(cfg: Config, cap: nat, s: Stream) {
    cap != 0 && s.vad.speaking && At(|s.vad.audio|, cfg.hop) >= cap
  }

  function FirstChunk(bytes: seq<Byte>): (chunk: seq<Byte>)
    requires |bytes| % 2 == 0
    ensures chunk <= bytes && |chunk| % 2 == 0 && (bytes != [] ==> chunk != []) && |chunk| <= CHUNK_BYTES
  {
    bytes[..Min(CHUNK_BYTES, |bytes|)]
  }

  /** One pass of the replay loop: a feed, then a forced flush if the open utterance is too long. */
  function OfflineChunk(cfg: Config, cap: nat, s: Stream, pcm: seq<Sample>): Output
    requires cfg.hop > 0
  {
    var a := FeedPcm(cfg, s, pcm, 0.0);
    if Overfull(cfg, cap, a.next) then
      var b := FlushStream(cfg, a.next, true);
      Output(b.next, a.events + b.events)
    else a
  }

  /** Everything the offline replay emits from state s on. */
  function OfflineTail(cfg: Config, cap: nat, s: Stream, bytes: seq<Byte>): seq<StreamEvent>
    requires cfg.hop > 0 && |bytes| % 2 == 0
    decreases |bytes|
  {
    if bytes == [] then FlushStream(cfg, s, true).events
    else
      var chunk := FirstChunk(bytes);
      var a := OfflineChunk(cfg, cap, s, DecodePcm(chunk));
      a.events + OfflineTail(cfg, cap, a.next, bytes[|chunk|..])
  }

  method SegmentPcmOffline(cfg: Config, pcmI16: seq<Byte>, silenceMs: int, maxSegmentSec: real)
    returns (segments: seq<OfflineSegment>)
    requires cfg.Valid() && |pcmI16| % 2 == 0
    ensures segments
         == Numbered(SegmentsOf(OfflineTail(OfflineConfig(cfg, silenceMs), MaxSpeechSamples(maxSegmentSec), FRESH, pcmI16)))
  {
    hide OfflineTail, OfflineChunk, FlushStream, OfflineConfig, SegmentsOf, Numbered;
    var offline := OfflineConfig(cfg, silenceMs);
    OfflineConfigValid(cfg, silenceMs);
    var stream := new VadSegmentedStream(offline);
    var cap := MaxSpeechSamples(maxSegmentSec);
    ghost var log: seq<StreamEvent> := [];
    segments := [];
    NumberedNothing();
    ghost var goal, here := OfflineTail(offline, cap, FRESH, pcmI16), FRESH;
    var off := 0;
    while off < |pcmI16|
      invariant 0 <= off <= |pcmI16| && off % 2 == 0
      invariant stream.Valid() && fresh(stream) && fresh(stream.vad) && stream.Cfg() == offline
      invariant segments == Numbered(SegmentsOf(log))
      invariant here == stream.State()
      invariant goal == log + OfflineTail(offline, cap, here, pcmI16[off..])
    {
      var chunk := FirstChunk(pcmI16[off..]);
      assert pcmI16[off..][|chunk|..] == pcmI16[off + |chunk|..];
      TailStep(offline, cap, here, pcmI16[off..], log);
      var events := FeedChunk(stream, cap, chunk);
      segments := Collect(segments, events, log);
      log, here := log + events, stream.State();
      off := off + |chunk|;
    }
    TailEnd(offline, cap, here);
    var final := stream.Flush(true);
    segments := Collect(segments, final, log);
  }

  method FeedChunk(stream: VadSegmentedStream, cap: nat, chunk: seq<Byte>) returns (events: seq<StreamEvent>)
    requires stream.Valid() && |chunk| % 2 == 0
    modifies stream, stream.vad
    ensures stream.Valid() && stream.Cfg() == old(stream.Cfg())
    ensures Output(stream.State(), events) == OfflineChunk(old(stream.Cfg()), cap, old(stream.State()), DecodePcm(chunk))
  {
    hide FeedPcm, FlushStream;
    events := stream.Feed(chunk, 0.0);
    if cap != 0 && stream.vad.isSpeaking {
      var buffered := |stream.vad.audioBuffer| * stream.vad.hop;
      if buffered >= cap {
        var last := stream.Flush(true);
        events := events + last;
      }
    }
  }

  lemma TailStep(cfg: Config, cap: nat, s: Stream, bytes: seq<Byte>, log: seq<StreamEvent>)
    requires cfg.hop > 0 && |bytes| % 2 == 0 && bytes != []
    ensures
      var chunk := FirstChunk(bytes);
      var a := OfflineChunk(cfg, cap, s, DecodePcm(chunk));
      log + OfflineTail(cfg, cap, s, bytes) == (log + a.events) + OfflineTail(cfg, cap, a.next, bytes[|chunk|..])
  {
    hide OfflineChunk, DecodePcm, FirstChunk, FlushStream;
    var chunk := FirstChunk(bytes);
    var a := OfflineChunk(cfg, cap, s, DecodePcm(chunk));
    var tail := OfflineTail(cfg, cap, a.next, bytes[|chunk|..]);
    assert log + (a.events + tail) == (log + a.events) + tail;
  }

  lemma TailEnd(cfg: Config, cap: nat, s: Stream)
    requires cfg.hop > 0
    ensures OfflineTail(cfg, cap, s, []) == FlushStream(cfg, s, true).events
  {
  }

  lemma NumberedNothing()
    ensures Numbered(SegmentsOf([])) == []
  {
  }

  lemma NumberedSnoc(events: seq<StreamEvent>, e: StreamEvent)
    ensures
      var before, after := Numbered(SegmentsOf(events)), Numbered(SegmentsOf(events + [e]));
      if e.SegmentReady? then
        after == before
                 + [OfflineSegment(|before|, OrZero(e.segment.startMs), OrZero(e.segment.endMs), e.segment.pcm)]
      else after == before
  {
    SegmentsOfAppend(events, [e]);
    assert SegmentsOf([e]) == if e.SegmentReady? then [e.segment] else [];
  }

  /** The closure `collect`: usable segments are appended under the next index. */
  method Collect(segments: seq<OfflineSegment>, events: seq<StreamEvent>, ghost log: seq<StreamEvent>)
    returns (extended: seq<OfflineSegment>)
    requires segments == Numbered(SegmentsOf(log))
    ensures extended == Numbered(SegmentsOf(log + events))
  {
    hide Numbered, SegmentsOf;
    extended := segments;
    var i := 0;
    assert log + events[..0] == log;
    while i < |events|
      invariant 0 <= i <= |events|
      invariant extended == Numbered(SegmentsOf(log + events[..i]))
    {
      assert log + events[..i + 1] == (log + events[..i]) + [events[i]];
      NumberedSnoc(log + events[..i], events[i]);
      if events[i].SegmentReady? {
        var seg := events[i].segment;
        extended := extended + [OfflineSegment(|extended|, OrZero(seg.startMs), OrZero(seg.endMs), seg.pcm)];
      }
      i := i + 1;
    }
    assert events[..i] == events;
  }

  lemma OfflineConfigValid(cfg: Config, silenceMs: int)
    requires cfg.Valid()
    ensures OfflineConfig(cfg, silenceMs).Valid() && !OfflineConfig(cfg, silenceMs).enablePartial
    ensures OfflineConfig(cfg, silenceMs).hop == cfg.hop
  {
  }
}
