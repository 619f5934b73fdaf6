/**
 What the offline replay promises: segments of bounded length, and the same as those of a live stream
 exactly when no cap ends an utterance early.
 */
module OfflineRuns {
  import opened Basics
  import opened Events
  import opened Vad
  import opened AudioStream
  import opened StreamRuns
  import opened Timeline
  import opened Seams
  import opened Transcribe

  // ----- Replay against live stream

  /** What a live stream emits from state s when fed the bytes at once and then stopped. */
  function LiveTail(cfg: Config, s: Stream, bytes: seq<Byte>): seq<StreamEvent>
    requires cfg.hop > 0 && |bytes| % 2 == 0
  {
    var a := Absorb(cfg, s, DecodePcm(bytes));
    a.events + FlushStream(cfg, a.next, true).events
  }

  /**
   At some chunk boundary the open utterance has reached a positive cap, in buffered frames, and at the
   first such boundary at least one whole frame is still to come.
   */
  predicate CutsEarly(cfg: Config, cap: nat, s: Stream, bytes: seq<Byte>)
    requires cfg.hop > 0 && |bytes| % 2 == 0
    decreases |bytes|
  {
    bytes != [] &&
    var chunk := FirstChunk(bytes);
    var a := FeedPcm(cfg, s, DecodePcm(chunk), 0.0);
    var rest := bytes[|chunk|..];
    if cap > 0 && a.next.vad.speaking && At(|a.next.vad.audio|, cfg.hop) >= cap then
      |a.next.carry| + |rest| / 2 >= cfg.hop
    else CutsEarly(cfg, cap, a.next, rest)
  }

  /** Two segment lists part at some position: one ends, or the end stamps differ. */
  ghost predicate Part(x: seq<Segment>, y: seq<Segment>) {
    exists k :: 0 <= k < |x| && (k >= |y| || OrZero(x[k].endMs) != OrZero(y[k].endMs))
  }

  lemma PartBehind(a: seq<Segment>, x: seq<Segment>, y: seq<Segment>)
    requires Part(x, y)
    ensures Part(a + x, a + y)
  {
    var k :| 0 <= k < |x| && (k >= |y| || OrZero(x[k].endMs) != OrZero(y[k].endMs));
    assert (a + x)[|a| + k] == x[k];
    assert k < |y| ==> (a + y)[|a| + k] == y[k];
  }

  /** Every segment cut after at least one more frame is stamped later than the clock now. */
  ghost predicate EndAfter(segments: seq<Segment>, sample: nat) {
    forall g <- segments :: g.endMs.Some? && g.endMs.value > Milliseconds(sample)
  }

  lemma {:induction false} DrainEndsAfter(cfg: Config, s: Stream, pcm: seq<Sample>, sample: nat)
    requires cfg.Valid() && s.consumed >= sample
    ensures var o := Drain(cfg, s, pcm);
      EndAfter(SegmentsOf(o.events), sample) && o.next.consumed >= sample
      && (|pcm| >= cfg.hop ==> o.next.consumed > sample)
    decreases |pcm|
  {
    if |pcm| >= cfg.hop {
      var frame, rest := pcm[..cfg.hop], pcm[cfg.hop..];
      var a := FrameStep(cfg, s, frame);
      FrameEndsAfter(cfg, s, frame);
      DrainEndsAfter(cfg, a.next, rest, sample);
      SegmentsOfAppend(a.events, Drain(cfg, a.next, rest).events);
    }
  }

  lemma FrameEndsAfter(cfg: Config, s: Stream, frame: Frame)
    requires cfg.Valid()
    ensures var o := FrameStep(cfg, s, frame);
      EndAfter(SegmentsOf(o.events), s.consumed) && o.next.consumed == s.consumed + cfg.hop
  {
    var o := FrameStep(cfg, s, frame);
    assert |o.events| <= 1;
    assert o.events != [] ==> o.events[1..] == [];
    assert Milliseconds(s.consumed + cfg.hop) > Milliseconds(s.consumed);
  }

  lemma LiveEndsAfter(cfg: Config, s: Stream, bytes: seq<Byte>)
    requires cfg.Valid() && |bytes| % 2 == 0 && |s.carry| + |bytes| / 2 >= cfg.hop
    ensures EndAfter(SegmentsOf(LiveTail(cfg, s, bytes)), s.consumed)
  {
    var a := Absorb(cfg, s, DecodePcm(bytes));
    DrainEndsAfter(cfg, s.(carry := []), s.carry + DecodePcm(bytes), s.consumed);
    var o := FlushStream(cfg, a.next, true);
    SegmentsOfAppend(a.events, o.events);
    assert o.events != [] ==> |o.events| == 1 && o.events[1..] == [];
  }

  lemma LiveSplit(cfg: Config, s: Stream, bytes: seq<Byte>, chunk: seq<Byte>)
    requires cfg.hop > 0 && |bytes| % 2 == 0 && |chunk| % 2 == 0 && chunk <= bytes
    ensures
      var a := Absorb(cfg, s, DecodePcm(chunk));
      |a.next.carry| < cfg.hop && LiveTail(cfg, s, bytes) == a.events + LiveTail(cfg, a.next, bytes[|chunk|..])
  {
    hide FlushStream;
    var rest := bytes[|chunk|..];
    assert chunk + rest == bytes;
    DecodePcmAppend(chunk, rest);
    AbsorbAppend(cfg, s, DecodePcm(chunk), DecodePcm(rest));
    var a := Absorb(cfg, s, DecodePcm(chunk));
    var b := Absorb(cfg, a.next, DecodePcm(rest));
    var c := FlushStream(cfg, b.next, true).events;
    assert (a.events + b.events) + c == a.events + (b.events + c);
  }

  /** With less than a frame to come and nothing open, both ways stay silent. */
  lemma {:induction false} QuietTail(cfg: Config, cap: nat, s: Stream, bytes: seq<Byte>)
    requires cfg.hop > 0 && |bytes| % 2 == 0 && |s.carry| + |bytes| / 2 < cfg.hop
    requires !s.vad.speaking && !s.announced
    ensures OfflineTail(cfg, cap, s, bytes) == []
    decreases |bytes|
  {
    if bytes != [] {
      var chunk := FirstChunk(bytes);
      QuietTail(cfg, cap, FeedPcm(cfg, s, DecodePcm(chunk), 0.0).next, bytes[|chunk|..]);
    }
  }

  lemma QuietLive(cfg: Config, s: Stream, bytes: seq<Byte>)
    requires cfg.hop > 0 && |bytes| % 2 == 0 && |s.carry| + |bytes| / 2 < cfg.hop
    ensures LiveTail(cfg, s, bytes) == FlushStream(cfg, s, true).events
  {
    var a := Absorb(cfg, s, DecodePcm(bytes));
    assert a == Output(s.(carry := s.carry + DecodePcm(bytes)), []);
    assert [] + FlushStream(cfg, a.next, true).events == FlushStream(cfg, a.next, true).events;
  }

  /** A forced flush of an overlong utterance emits one segment, stamped with the clock. */
  lemma ForcedSegment(cfg: Config, cap: nat, r: Run)
    requires cfg.Valid() && RunInv(cfg, r) && r.stream.vad.speaking
    ensures
      var events := FlushStream(cfg, r.stream, true).events;
      |events| == 1 && events[0].SegmentReady?
      && events[0].segment.endMs == Some(Milliseconds(r.stream.consumed))
  {
    var s, n := r.stream, |r.stream.heard|;
    assert s.heard[n - |s.vad.audio|..n] == s.vad.audio;
    StampIsExact(cfg, s.heard, n - |s.vad.audio|, n, n, true);
  }

  lemma {:induction false} OfflineVersusLive(cfg: Config, cap: nat, r: Run, bytes: seq<Byte>)
    requires cfg.Valid() && !cfg.enablePartial && RunInv(cfg, r) && |r.stream.carry| < cfg.hop && |bytes| % 2 == 0
    ensures
      var off, live := SegmentsOf(OfflineTail(cfg, cap, r.stream, bytes)), SegmentsOf(LiveTail(cfg, r.stream, bytes));
      if CutsEarly(cfg, cap, r.stream, bytes) then Part(off, live) else off == live
    decreases |bytes|
  {
    hide FlushStream, FeedPcm, RunInv, LiveTail;
    var s := r.stream;
    if bytes == [] {
      QuietLive(cfg, s, bytes);
    } else {
      var chunk := FirstChunk(bytes);
      var rest := bytes[|chunk|..];
      var pcm := DecodePcm(chunk);
      var r' := RunFeed(cfg, r, pcm, 0.0);
      var a := FeedPcm(cfg, s, pcm, 0.0);
      FeedTimeless(cfg, s, pcm, 0.0);
      LiveSplit(cfg, s, bytes, chunk);
      RunIsStream(cfg, r, pcm, 0.0, true);
      RunFeedKeeps(cfg, r, pcm, 0.0);
      var live := LiveTail(cfg, a.next, rest);
      SegmentsOfAppend(a.events, live);
      if !Overfull(cfg, cap, a.next) {
        var off := OfflineTail(cfg, cap, a.next, rest);
        SegmentsOfAppend(a.events, off);
        OfflineVersusLive(cfg, cap, r', rest);
        if CutsEarly(cfg, cap, a.next, rest) {
          PartBehind(SegmentsOf(a.events), SegmentsOf(off), SegmentsOf(live));
        }
      } else {
        ForcedCutVersusLive(cfg, cap, r', rest);
        var b := FlushStream(cfg, a.next, true);
        var off := b.events + OfflineTail(cfg, cap, b.next, rest);
        SegmentsOfAppend(a.events, off);
        assert a.events + off == (a.events + b.events) + OfflineTail(cfg, cap, b.next, rest);
        if CutsEarly(cfg, cap, s, bytes) {
          PartBehind(SegmentsOf(a.events), SegmentsOf(off), SegmentsOf(live));
        }
      }
    }
  }

  lemma ForcedCutVersusLive(cfg: Config, cap: nat, r: Run, rest: seq<Byte>)
    requires cfg.Valid() && RunInv(cfg, r) && |rest| % 2 == 0 && Overfull(cfg, cap, r.stream)
    ensures
      var b := FlushStream(cfg, r.stream, true);
      var off := SegmentsOf(b.events + OfflineTail(cfg, cap, b.next, rest));
      var live := SegmentsOf(LiveTail(cfg, r.stream, rest));
      if |r.stream.carry| + |rest| / 2 >= cfg.hop then Part(off, live) else off == live
  {
    hide OfflineTail, LiveTail;
    var s := r.stream;
    var b := FlushStream(cfg, s, true);
    var tail := OfflineTail(cfg, cap, b.next, rest);
    ForcedSegment(cfg, cap, r);
    SegmentsOfAppend(b.events, tail);
    assert b.events[1..] == [];
    if |s.carry| + |rest| / 2 >= cfg.hop {
      LiveEndsAfter(cfg, s, rest);
      var live := SegmentsOf(LiveTail(cfg, s, rest));
      var off := SegmentsOf(b.events + tail);
      assert off[0] == b.events[0].segment;
      assert live != [] ==> live[0] in live;
      assert 0 < |off| && (0 >= |live| || OrZero(off[0].endMs) != OrZero(live[0].endMs));
    } else {
      QuietTail(cfg, cap, b.next, rest);
      QuietLive(cfg, s, rest);
      assert b.events + [] == b.events;
    }
  }

  lemma {:induction false} EssentialKeepsSegments(events: seq<StreamEvent>)
    ensures SegmentsOf(Essential(events)) == SegmentsOf(events)
  {
    if events != [] {
      EssentialKeepsSegments(events[1..]);
      SegmentsOfAppend(if events[0].PartialSnapshot? then [] else [events[0]], Essential(events[1..]));
    }
  }

  /** Settings that only steer snapshots do not touch the segments. */
  ghost predicate SameButPartials(a: Config, b: Config) {
    a == b.(enablePartial := a.enablePartial, partialInterval := a.partialInterval, firstPartialMs := a.firstPartialMs)
  }

  lemma {:induction false} DrainIgnoresPartials(a: Config, b: Config, s: Stream, pcm: seq<Sample>)
    requires a.hop > 0 && SameButPartials(a, b)
    ensures Drain(a, s, pcm) == Drain(b, s, pcm)
    decreases |pcm|
  {
    if |pcm| >= a.hop {
      assert FrameStep(a, s, pcm[..a.hop]) == FrameStep(b, s, pcm[..b.hop]);
      DrainIgnoresPartials(a, b, FrameStep(a, s, pcm[..a.hop]).next, pcm[a.hop..]);
    }
  }

  lemma LiveIsChunked(cfg: Config, live: Config, chunks: seq<Chunk>)
    requires cfg.hop > 0 && SameButPartials(live, cfg) && Even(chunks) && |BytesOf(chunks)| % 2 == 0
    ensures
      var a := FeedAll(live, FRESH, chunks);
      SegmentsOf(a.events + FlushStream(live, a.next, true).events) == SegmentsOf(LiveTail(cfg, FRESH, BytesOf(chunks)))
  {
    hide Drain, FeedAll;
    var a := FeedAll(live, FRESH, chunks);
    var b := Absorb(cfg, FRESH, PcmOf(chunks));
    PcmOfBytes(chunks);
    FeedAllIsAbsorb(live, FRESH, chunks);
    DrainIgnoresPartials(live, cfg, FRESH.(carry := []), FRESH.carry + PcmOf(chunks));
    assert TimelessOutput(a) == b;
    assert FlushStream(live, a.next, true).events == FlushStream(cfg, b.next, true).events;
    EssentialKeepsSegments(a.events);
    SegmentsOfAppend(a.events, FlushStream(live, a.next, true).events);
    SegmentsOfAppend(b.events, FlushStream(cfg, b.next, true).events);
  }

  lemma NumberedTellsApart(x: seq<Segment>, y: seq<Segment>)
    requires Part(x, y)
    ensures Numbered(x) != Numbered(y)
  {
    var k :| 0 <= k < |x| && (k >= |y| || OrZero(x[k].endMs) != OrZero(y[k].endMs));
    assert k < |y| ==> Numbered(x)[k].endMs != Numbered(y)[k].endMs;
  }

  /**
   A recording is cut at the same places whether it arrives as a file or as a stream, however the
   stream is chunked and whether or not it takes snapshots, exactly when the force-cut never fires
   with a whole frame still to come.
   */
  lemma OfflineEqualsStream(cfg: Config, cap: nat, bytes: seq<Byte>, live: Config, chunks: seq<Chunk>)
    requires cfg.Valid() && !cfg.enablePartial && |bytes| % 2 == 0
    requires SameButPartials(live, cfg)
    requires Even(chunks) && BytesOf(chunks) == bytes
    ensures
      var a := FeedAll(live, FRESH, chunks);
      var streamed := Numbered(SegmentsOf(a.events + FlushStream(live, a.next, true).events));
      streamed == Numbered(SegmentsOf(OfflineTail(cfg, cap, FRESH, bytes))) <==> !CutsEarly(cfg, cap, FRESH, bytes)
  {
    hide FlushStream, OfflineTail, CutsEarly, RunInv, FeedAll, Absorb, SegmentsOf;
    StartInv(cfg);
    OfflineVersusLive(cfg, cap, START, bytes);
    LiveIsChunked(cfg, live, chunks);
    if CutsEarly(cfg, cap, FRESH, bytes) {
      NumberedTellsApart(SegmentsOf(OfflineTail(cfg, cap, FRESH, bytes)), SegmentsOf(LiveTail(cfg, FRESH, bytes)));
    }
  }

  // ----- How long a segment can get

  /** The replay with the record of every segment's origin. */
  function OfflineRun(cfg: Config, cap: nat, r: Run, bytes: seq<Byte>): Run
    requires cfg.hop > 0 && |bytes| % 2 == 0
    decreases |bytes|
  {
    if bytes == [] then RunFlush(cfg, r, true)
    else
      var chunk := FirstChunk(bytes);
      var a := RunFeed(cfg, r, DecodePcm(chunk), 0.0);
      OfflineRun(cfg, cap, if Overfull(cfg, cap, a.stream) then RunFlush(cfg, a, true) else a, bytes[|chunk|..])
  }

  /** The recorded replay emits what SegmentPcmOffline collects, and keeps the invariant of every run. */
  lemma {:induction false} OfflineRunIsTail(cfg: Config, cap: nat, r: Run, bytes: seq<Byte>)
    requires cfg.Valid() && |bytes| % 2 == 0 && RunInv(cfg, r)
    ensures OfflineRun(cfg, cap, r, bytes).events == r.events + OfflineTail(cfg, cap, r.stream, bytes)
    ensures RunInv(cfg, OfflineRun(cfg, cap, r, bytes))
    decreases |bytes|
  {
    hide FlushStream, FeedPcm, RunInv, RunFeed, RunFlush, Overfull;
    if bytes == [] {
      RunIsStream(cfg, r, [], 0.0, true);
      RunFlushKeeps(cfg, r, true);
    } else {
      var chunk := FirstChunk(bytes);
      var pcm, rest := DecodePcm(chunk), bytes[|chunk|..];
      var a := RunFeed(cfg, r, pcm, 0.0);
      RunIsStream(cfg, r, pcm, 0.0, true);
      RunFeedKeeps(cfg, r, pcm, 0.0);
      RunIsStream(cfg, a, [], 0.0, true);
      RunFlushKeeps(cfg, a, true);
      var b := if Overfull(cfg, cap, a.stream) then RunFlush(cfg, a, true) else a;
      OfflineRunIsTail(cfg, cap, b, rest);
      OfflineChunkEvents(cfg, cap, r.stream, pcm);
      var o := OfflineChunk(cfg, cap, r.stream, pcm);
      assert b.events == r.events + o.events;
      assert (r.events + o.events) + OfflineTail(cfg, cap, o.next, rest)
          == r.events + (o.events + OfflineTail(cfg, cap, o.next, rest));
    }
  }

  lemma OfflineChunkEvents(cfg: Config, cap: nat, s: Stream, pcm: seq<Sample>)
    requires cfg.hop > 0
    ensures
      var o, a := OfflineChunk(cfg, cap, s, pcm), FeedPcm(cfg, s, pcm, 0.0);
      if Overfull(cfg, cap, a.next) then
        o.next == FlushStream(cfg, a.next, true).next && o.events == a.events + FlushStream(cfg, a.next, true).events
      else o == a
  {
  }

  /** Every utterance so far is shorter than `limit`, and the open one than `buffered`. */
  ghost predicate Bounded(cfg: Config, r: Run, buffered: nat, limit: nat) {
    && At(|r.stream.vad.audio|, cfg.hop) < buffered
    && forall u <- r.utterances :: At(u.last - u.first, cfg.hop) < limit
  }

  lemma AudioGrowth(t: Tunables, s: VadState, frame: Frame, raw: real)
    requires t.Valid() && (s.speaking || (s.audio == [] && |s.pre| <= t.preSpeechFrames))
    ensures |Step(t, s, frame, raw).next.audio| <= Max(t.preSpeechFrames, |s.audio| + 1)
    ensures s.speaking ==> |Step(t, s, frame, raw).next.audio| <= |s.audio| + 1
  {
  }

  lemma BufferGrowth(cfg: Config, r: Run, frame: Frame)
    requires cfg.Valid() && StateInv(cfg, r)
    ensures
      At(|RunFrame(cfg, r, frame).stream.vad.audio|, cfg.hop)
      <= Max(At(cfg.tunables.preSpeechFrames, cfg.hop), At(|r.stream.vad.audio|, cfg.hop) + cfg.hop)
  {
    hide Step, At, FrameStep;
    var s := r.stream;
    var raw := Clamp01(cfg.backend(s.heard + [frame]));
    FrameEvents(cfg, s, frame);
    AudioGrowth(cfg.tunables, s.vad, frame, raw);
    NextFrame(|s.vad.audio|, cfg.hop);
    var grown := |Step(cfg.tunables, s.vad, frame, raw).next.audio|;
    if grown <= |s.vad.audio| + 1 {
      AtMonotone(grown, |s.vad.audio| + 1, cfg.hop);
    } else {
      AtMonotone(grown, cfg.tunables.preSpeechFrames, cfg.hop);
    }
  }

  /** An utterance cut at this frame holds at most the buffer and the frame. */
  lemma CutLength(cfg: Config, r: Run, frame: Frame)
    requires cfg.Valid() && RunInv(cfg, r) && |frame| == cfg.hop
    ensures
      var r' := RunFrame(cfg, r, frame);
      forall u <- r'.utterances ::
        u in r.utterances || At(u.last - u.first, cfg.hop) <= At(|r.stream.vad.audio|, cfg.hop) + cfg.hop
  {
    hide FrameStep, RunInv, At, Step, IsSpeech, Sound;
    var s, r' := r.stream, RunFrame(cfg, r, frame);
    RunFrameKeeps(cfg, r, frame);
    NextFrame(|s.vad.audio|, cfg.hop);
    forall u <- r'.utterances | u !in r.utterances
      ensures At(u.last - u.first, cfg.hop) <= At(|s.vad.audio|, cfg.hop) + cfg.hop
    {
      UtteranceIsSound(cfg, r', u);
      SoundShape(cfg, u, r'.stream.heard, r'.flags);
      AtMonotone(u.last - u.first, |s.vad.audio| + 1, cfg.hop);
    }
  }

  lemma FrameBounded(cfg: Config, r: Run, frame: Frame, buffered: nat, limit: nat)
    requires cfg.Valid() && RunInv(cfg, r) && |frame| == cfg.hop
    requires Bounded(cfg, r, buffered, limit)
    requires At(cfg.tunables.preSpeechFrames, cfg.hop) < buffered + cfg.hop <= limit
    ensures Bounded(cfg, RunFrame(cfg, r, frame), buffered + cfg.hop, limit)
  {
    hide RunFrame, At;
    BufferGrowth(cfg, r, frame);
    CutLength(cfg, r, frame);
  }

  lemma {:induction false} DrainBounded(cfg: Config, r: Run, pcm: seq<Sample>, buffered: nat, limit: nat)
    requires cfg.Valid() && RunInv(cfg, r) && Bounded(cfg, r, buffered, limit)
    requires At(cfg.tunables.preSpeechFrames, cfg.hop) <= buffered && buffered + |pcm| <= limit
    ensures Bounded(cfg, RunDrain(cfg, r, pcm), buffered + |pcm|, limit)
    decreases |pcm|
  {
    hide RunFrame, RunInv;
    if |pcm| >= cfg.hop {
      FrameBounded(cfg, r, pcm[..cfg.hop], buffered, limit);
      RunFrameKeeps(cfg, r, pcm[..cfg.hop]);
      DrainBounded(cfg, RunFrame(cfg, r, pcm[..cfg.hop]), pcm[cfg.hop..], buffered + cfg.hop, limit);
    }
  }

  lemma FeedBounded(cfg: Config, r: Run, pcm: seq<Sample>, buffered: nat, limit: nat)
    requires cfg.Valid() && RunInv(cfg, r) && Bounded(cfg, r, buffered, limit)
    requires At(cfg.tunables.preSpeechFrames, cfg.hop) <= buffered
    requires buffered + |r.stream.carry| + |pcm| <= limit
    ensures Bounded(cfg, RunFeed(cfg, r, pcm, 0.0), limit, limit)
    ensures |RunFeed(cfg, r, pcm, 0.0).stream.carry| < cfg.hop
  {
    hide RunDrain, RunInv;
    var r0 := r.(stream := r.stream.(carry := []));
    CarryIsApart(cfg, r);
    DrainBounded(cfg, r0, r.stream.carry + pcm, buffered, limit);
    DrainCarry(cfg, r0, r.stream.carry + pcm);
  }

  lemma CarryIsApart(cfg: Config, r: Run)
    requires RunInv(cfg, r)
    ensures RunInv(cfg, r.(stream := r.stream.(carry := [])))
  {
  }

  lemma {:induction false} DrainCarry(cfg: Config, r: Run, pcm: seq<Sample>)
    requires cfg.hop > 0
    ensures |RunDrain(cfg, r, pcm).stream.carry| < cfg.hop
    decreases |pcm|
  {
    if |pcm| >= cfg.hop {
      DrainCarry(cfg, RunFrame(cfg, r, pcm[..cfg.hop]), pcm[cfg.hop..]);
    }
  }

  /** A flushed utterance is no longer than what was buffered. */
  lemma FlushBounded(cfg: Config, r: Run, limit: nat)
    requires cfg.Valid() && RunInv(cfg, r) && Bounded(cfg, r, limit, limit) && limit > 0
    ensures Bounded(cfg, RunFlush(cfg, r, true), 1, limit)
  {
    hide FlushStream, At;
    FlushResets(cfg, r);
  }

  lemma FlushResets(cfg: Config, r: Run)
    ensures var r' := RunFlush(cfg, r, true);
      r'.stream.vad.audio == [] && At(0, cfg.hop) == 0 && r'.stream.heard == r.stream.heard
  {
  }

  /**
   Length of offline segments. With a positive cap no segment reaches the larger of the cap and the
   pre-speech buffer, plus one feed chunk, plus one hop.
   */
  lemma {:induction false} SegmentsAreBounded(cfg: Config, cap: nat, r: Run, bytes: seq<Byte>)
    requires cfg.Valid() && |bytes| % 2 == 0 && cap > 0
    requires RunInv(cfg, r) && |r.stream.carry| < cfg.hop
    requires
      var base := Max(cap, At(cfg.tunables.preSpeechFrames, cfg.hop));
      Bounded(cfg, r, base, base + CHUNK_SAMPLES + cfg.hop)
    ensures
      var base := Max(cap, At(cfg.tunables.preSpeechFrames, cfg.hop));
      Bounded(cfg, OfflineRun(cfg, cap, r, bytes), 1, base + CHUNK_SAMPLES + cfg.hop)
    decreases |bytes|
  {
    hide RunFeed, RunFlush, RunInv;
    var base := Max(cap, At(cfg.tunables.preSpeechFrames, cfg.hop));
    var limit := base + CHUNK_SAMPLES + cfg.hop;
    if bytes == [] {
      FlushBounded(cfg, r, limit);
    } else {
      var chunk := FirstChunk(bytes);
      var a := RunFeed(cfg, r, DecodePcm(chunk), 0.0);
      FeedBounded(cfg, r, DecodePcm(chunk), base, limit);
      RunFeedKeeps(cfg, r, DecodePcm(chunk), 0.0);
      var b := if Overfull(cfg, cap, a.stream) then RunFlush(cfg, a, true) else a;
      if Overfull(cfg, cap, a.stream) {
        FlushBounded(cfg, a, limit);
        RunFlushKeeps(cfg, a, true);
        FlushKeepsCarry(cfg, a);
      } else if !a.stream.vad.speaking {
        SilentIsEmpty(cfg, a);
      }
      SegmentsAreBounded(cfg, cap, b, bytes[|chunk|..]);
    }
  }

  lemma FlushKeepsCarry(cfg: Config, r: Run)
    ensures RunFlush(cfg, r, true).stream.carry == r.stream.carry
  {
  }

  lemma SilentIsEmpty(cfg: Config, r: Run)
    requires RunInv(cfg, r) && !r.stream.vad.speaking
    ensures At(|r.stream.vad.audio|, cfg.hop) == 0
  {
    hide LogInv;
  }

  lemma {:induction false} OfflineRunAccounts(cfg: Config, cap: nat, r: Run, bytes: seq<Byte>)
    requires cfg.hop > 0 && |bytes| % 2 == 0 && Accounted(r)
    ensures Accounted(OfflineRun(cfg, cap, r, bytes)) && OfflineRun(cfg, cap, r, bytes).fed == r.fed + DecodePcm(bytes)
    decreases |bytes|
  {
    hide RunFeed, RunFlush, Accounted, Overfull;
    if bytes == [] {
      FlushAccounts(cfg, r, true);
      assert DecodePcm(bytes) == [];
    } else {
      var chunk := FirstChunk(bytes);
      var rest := bytes[|chunk|..];
      var a := RunFeed(cfg, r, DecodePcm(chunk), 0.0);
      FeedAccounts(cfg, r, DecodePcm(chunk), 0.0);
      FlushAccounts(cfg, a, true);
      OfflineRunAccounts(cfg, cap, if Overfull(cfg, cap, a.stream) then RunFlush(cfg, a, true) else a, rest);
      DecodePcmAppend(chunk, rest);
      assert bytes == chunk + rest;
      assert (r.fed + DecodePcm(chunk)) + DecodePcm(rest) == r.fed + (DecodePcm(chunk) + DecodePcm(rest));
    }
  }

  /**
   From the start of a recording: every segment is a range of the recording's samples, stamped at
   that range up to the trimmed tail, non-empty and below the bound.
   */
  lemma OfflineSegmentsAreBounded(cfg: Config, cap: nat, bytes: seq<Byte>, segment: Segment)
    requires cfg.Valid() && |bytes| % 2 == 0 && cap > 0
    requires segment in SegmentsOf(OfflineTail(cfg, cap, FRESH, bytes))
    ensures 0 < |segment.pcm| < Max(cap, At(cfg.tunables.preSpeechFrames, cfg.hop)) + CHUNK_SAMPLES + cfg.hop
    ensures exists u: Utterance :: u.segment == Some(segment) && IsRange(cfg, u, DecodePcm(bytes))
  {
    hide OfflineRun, OfflineTail, RunInv, At, IsRange, Accounted;
    var r := OfflineRun(cfg, cap, START, bytes);
    StartInv(cfg);
    StartIsEmpty(cfg);
    SegmentsAreBounded(cfg, cap, START, bytes);
    OfflineRunIsTail(cfg, cap, START, bytes);
    OfflineRunAccounts(cfg, cap, START, bytes);
    assert r.fed == DecodePcm(bytes);
    assert r.events == OfflineTail(cfg, cap, FRESH, bytes);
    var u := UtteranceBehind(cfg, r, segment);
    UtteranceIsRange(cfg, r, u);
    UtteranceLength(cfg, r, u);
  }

  lemma UtteranceLength(cfg: Config, r: Run, u: Utterance)
    requires cfg.Valid() && RunInv(cfg, r) && u in r.utterances && IsRange(cfg, u, r.fed) && u.segment.Some?
    ensures |u.segment.value.pcm| == At(u.last - u.first, cfg.hop) > 0
  {
    hide RunInv, Sound, At, Milliseconds, LongEnough, Stamped;
    UtteranceIsSound(cfg, r, u);
    SoundShape(cfg, u, r.stream.heard, r.flags);
    AtSum(u.first, u.last - u.first, cfg.hop);
  }

  /** Every segment among the events has its utterance on record. */
  lemma UtteranceBehind(cfg: Config, r: Run, segment: Segment) returns (u: Utterance)
    requires RunInv(cfg, r) && segment in SegmentsOf(r.events)
    ensures u in r.utterances && u.segment == Some(segment)
  {
    hide Sound, StateInv, SegmentsOf;
    StateFlags(cfg, r);
    u := SegmentAmong(r.utterances, segment);
  }

  lemma {:induction false} SegmentAmong(utterances: seq<Utterance>, segment: Segment) returns (u: Utterance)
    requires segment in SegmentsIn(utterances)
    ensures u in utterances && u.segment == Some(segment)
    decreases |utterances|
  {
    var n := |utterances| - 1;
    if segment in SegmentsIn(utterances[..n]) {
      u := SegmentAmong(utterances[..n], segment);
    } else {
      u := utterances[n];
    }
  }

  lemma StateFlags(cfg: Config, r: Run)
    requires StateInv(cfg, r)
    ensures |r.flags| == |r.stream.heard|
  {
  }

  lemma StartIsEmpty(cfg: Config)
    requires cfg.Valid()
    ensures At(|START.stream.vad.audio|, cfg.hop) == 0 < At(cfg.tunables.preSpeechFrames, cfg.hop)
  {
    Distribute(cfg.tunables.preSpeechFrames - 1, 1, cfg.hop);
  }
}
