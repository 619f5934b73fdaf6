/**
 How a file and a stream come to be cut differently: speech that outlasts the cap, and a pause that
 only one of them takes for an end. Both are shown for all settings that allow them, and with them
 the exact condition under which file and stream always agree.
 */
module OfflineDisagreement {
  import opened Basics
  import opened Events
  import opened Vad
  import opened AudioStream
  import opened StreamRuns
  import opened Timeline
  import opened Transcribe
  import opened OfflineRuns
  import opened OfflineAgreement

  // ----- Uninterrupted speech

  /** The backend answers c for as long as it has heard at most n frames. */
  ghost predicate Answers(backend: Backend, c: real, n: nat) {
    forall heard: seq<Frame> :: 0 < |heard| <= n ==> backend(heard) == c
  }

  /** A level of speech. */
  predicate IsLevel(t: Tunables, c: real) { 0.0 <= c <= 1.0 && c > t.threshold }

  /** Nothing but speech of level c so far: confirmed after `startFrames` frames, and open ever since. */
  ghost predicate Loud(cfg: Config, s: Stream, c: real) {
    LoudVad(cfg, s.vad, |s.heard|, c) && s.announced == s.vad.speaking && s.consumed == At(|s.heard|, cfg.hop)
  }

  lemma FreshIsLoud(cfg: Config, c: real)
    requires cfg.Valid()
    ensures Loud(cfg, FRESH, c)
  {
    assert At(0, cfg.hop) == 0;
  }

  /** A steady level is its own average. */
  lemma Steady(alpha: real, c: real)
    ensures alpha * c + (1.0 - alpha) * c == c
  {
    assert alpha * c + (1.0 - alpha) * c == (alpha + (1.0 - alpha)) * c;
  }

  /** What a loud stretch does to the VAD. */
  ghost predicate LoudVad(cfg: Config, v: VadState, n: nat, c: real) {
    && (n == 0 ==> v.smoothed == None) && (n > 0 ==> v.smoothed == Some(c))
    && |v.pre| <= cfg.tunables.preSpeechFrames
    && (if v.speaking then v.silent == 0 && |v.audio| + cfg.tunables.startFrames >= n >= cfg.tunables.startFrames
        else v.audio == [] && v.speech == n < cfg.tunables.startFrames && |v.pre| <= n)
    && (forall f <- v.audio :: |f| == cfg.hop) && (forall f <- v.pre :: |f| == cfg.hop)
  }

  lemma LoudStep(cfg: Config, v: VadState, n: nat, c: real, frame: Frame)
    requires cfg.Valid() && IsLevel(cfg.tunables, c) && LoudVad(cfg, v, n, c) && |frame| == cfg.hop
    ensures
      var r := Step(cfg.tunables, v, frame, c);
      LoudVad(cfg, r.next, n + 1, c) && r.segment == None && (v.speaking ==> r.next.speaking)
  {
    Steady(cfg.tunables.alpha, c);
    assert Smooth(cfg.tunables.alpha, v.smoothed, c) == c;
    hide Smooth;
  }

  lemma LoudFrame(cfg: Config, s: Stream, c: real, frame: Frame)
    requires cfg.Valid() && IsLevel(cfg.tunables, c) && Loud(cfg, s, c) && |frame| == cfg.hop
    requires cfg.backend(s.heard + [frame]) == c
    ensures
      var o := FrameStep(cfg, s, frame);
      && Loud(cfg, o.next, c) && SegmentsOf(o.events) == []
      && o.next.heard == s.heard + [frame] && o.next.carry == s.carry && o.next.consumed == s.consumed + cfg.hop
  {
    hide At, Step, LoudVad;
    LoudStep(cfg, s.vad, |s.heard|, c, frame);
    assert |s.heard + [frame]| == |s.heard| + 1;
    NextFrame(|s.heard|, cfg.hop);
    assert Clamp01(c) == c;
    assert SegmentsOf([SpeechStarted]) == [];
  }

  lemma {:induction false} LoudDrain(cfg: Config, s: Stream, c: real, pcm: seq<Sample>, n: nat)
    requires cfg.Valid() && IsLevel(cfg.tunables, c) && Loud(cfg, s, c) && Answers(cfg.backend, c, n)
    requires At(|s.heard|, cfg.hop) + |pcm| < At(n + 1, cfg.hop)
    ensures
      var o := Drain(cfg, s, pcm);
      && Loud(cfg, o.next, c) && SegmentsOf(o.events) == [] && |o.next.carry| < cfg.hop
      && At(|o.next.heard|, cfg.hop) + |o.next.carry| == At(|s.heard|, cfg.hop) + |pcm|
    decreases |pcm|
  {
    hide At, FrameStep, Loud;
    if |pcm| >= cfg.hop {
      var frame, rest := pcm[..cfg.hop], pcm[cfg.hop..];
      var a := FrameStep(cfg, s, frame);
      NextFrame(|s.heard|, cfg.hop);
      if |s.heard| + 1 > n {
        AtMonotone(n + 1, |s.heard| + 1, cfg.hop);
      }
      LoudFrame(cfg, s, c, frame);
      LoudDrain(cfg, a.next, c, rest, n);
      SegmentsOfAppend(a.events, Drain(cfg, a.next, rest).events);
    } else {
      LoudAlone(cfg, s, c, pcm);
    }
  }

  /** Speech without a pause is cut by force as soon as it has reached the cap, if more of it is to come. */
  lemma {:induction false} LoudCuts(cfg: Config, cap: nat, s: Stream, c: real, bytes: seq<Byte>, n: nat)
    requires cfg.Valid() && !cfg.enablePartial && IsLevel(cfg.tunables, c) && Loud(cfg, s, c)
    requires (forall m :: Answers(cfg.backend, c, m)) && |s.carry| < cfg.hop && cap > 0
    requires |bytes| % 2 == 0 && n > 0 && |bytes| >= n * CHUNK_BYTES + 2 * cfg.hop
    requires
      At(|s.heard|, cfg.hop) + |s.carry| + n * CHUNK_SAMPLES >= At(cfg.tunables.startFrames + cap + 1, cfg.hop)
    ensures CutsEarly(cfg, cap, s, bytes)
    decreases n
  {
    hide At, Loud, Drain;
    var chunk := FirstChunk(bytes);
    var pcm, rest := DecodePcm(chunk), bytes[|chunk|..];
    assert |chunk| == CHUNK_BYTES && |pcm| == CHUNK_SAMPLES;
    var a := FeedPcm(cfg, s, pcm, 0.0);
    var total := At(|s.heard|, cfg.hop) + |s.carry| + |pcm|;
    AtLeast(|s.heard|, cfg.hop);
    AtLeast(total, cfg.hop);
    LoudAlone(cfg, s, c, []);
    LoudDrain(cfg, s.(carry := []), c, s.carry + pcm, total);
    if !Overfull(cfg, cap, a.next) {
      if n == 1 {
        LoudIsOverfull(cfg, cap, a.next, c);
      } else {
        LoudCuts(cfg, cap, a.next, c, rest, n - 1);
      }
    }
  }

  lemma {:induction false} AtLeast(n: nat, hop: nat)
    requires hop > 0
    ensures At(n, hop) >= n && At(n + 1, hop) > n
  {
    NextFrame(n, hop);
    if n > 0 {
      AtLeast(n - 1, hop);
    }
  }

  lemma LoudAlone(cfg: Config, s: Stream, c: real, carry: seq<Sample>)
    requires Loud(cfg, s, c)
    ensures Loud(cfg, s.(carry := carry), c)
  {
  }

  lemma LoudIsOverfull(cfg: Config, cap: nat, s: Stream, c: real)
    requires cfg.Valid() && Loud(cfg, s, c) && |s.carry| < cfg.hop && cap > 0
    requires At(|s.heard|, cfg.hop) + |s.carry| >= At(cfg.tunables.startFrames + cap + 1, cfg.hop)
    ensures Overfull(cfg, cap, s)
  {
    hide At;
    if |s.heard| < cfg.tunables.startFrames + cap {
      AtMonotone(|s.heard| + 1, cfg.tunables.startFrames + cap, cfg.hop);
      NextFrame(|s.heard|, cfg.hop);
      NextFrame(cfg.tunables.startFrames + cap, cfg.hop);
    }
    AtMonotone(cap, |s.vad.audio|, cfg.hop);
    AtLeast(cap - 1, cfg.hop);
  }

  /** Whatever the other settings: if speech can be heard at all, a long enough recording of it is cut early. */
  lemma CappedCutsEarly(cfg: Config, cap: nat) returns (bytes: seq<Byte>)
    requires cfg.Valid() && !cfg.enablePartial && CanHear(cfg.tunables) && cap > 0
    requires cfg.backend == ALWAYS
    ensures |bytes| % 2 == 0 && CutsEarly(cfg, cap, FRESH, bytes)
  {
    hide CutsEarly, At;
    var c := 1.0;
    var n := cfg.tunables.startFrames + cap + 1;
    AtLeast(n, cfg.hop);
    AtLeast(0, cfg.hop);
    var total := At(n, cfg.hop);
    bytes := seq(total * CHUNK_BYTES + 2 * cfg.hop, _ => 0);
    FreshIsLoud(cfg, c);
    LoudCuts(cfg, cap, FRESH, c, bytes, total);
  }

  const ALWAYS: Backend := (heard: seq<Frame>) => 1.0

  // ----- A pause after speech

  /** Speech up to frame n, silence behind it. */
  function Fading(c: real, n: nat): Backend { (heard: seq<Frame>) => if |heard| <= n then c else 0.0 }

  /** A level of speech that one frame of nothing brings down to silence. */
  function FadingLevel(t: Tunables): (c: real)
    requires t.Valid() && CanPause(t)
    ensures IsLevel(t, c) && t.alpha * c <= t.threshold
  {
    if t.alpha > t.threshold then
      LevelIsBetween(t.threshold, t.alpha);
      t.threshold / t.alpha
    else
      1.0
  }

  lemma LevelIsBetween(threshold: real, alpha: real)
    requires 0.0 < threshold < alpha < 1.0
    ensures threshold < threshold / alpha <= 1.0 && alpha * (threshold / alpha) <= threshold
  {
    var c := threshold / alpha;
    assert alpha * c == threshold;
    SignOfFactor(c, alpha);
    SignOfFactor(1.0 - c, alpha);
    var x := Share(c, 1.0 - alpha);
    assert (1.0 - c) * alpha == alpha - alpha * c && c * (1.0 - alpha) == c - alpha * c;
  }

  lemma SignOfFactor(x: real, y: real)
    requires y > 0.0
    ensures x * y > 0.0 <==> x > 0.0
  {
  }

  /** The VAD after n frames of speech, `loud` of them in its buffer, and `silent` of silence. */
  ghost predicate Faint(cfg: Config, s: Stream, n: nat, loud: nat, silent: nat) {
    && s.vad.speaking && s.announced && s.vad.silent == silent
    && s.vad.smoothed.Some? && 0.0 <= s.vad.smoothed.value <= 1.0
    && cfg.tunables.alpha * s.vad.smoothed.value <= cfg.tunables.threshold
    && |s.heard| == n + silent && |s.vad.audio| == loud + silent
    && (forall f <- s.vad.audio :: |f| == cfg.hop)
    && s.consumed == At(n + silent, cfg.hop) && s.carry == []
  }

  lemma FadesFurther(t: Tunables, v: real)
    requires t.Valid() && 0.0 <= t.threshold && 0.0 <= v <= 1.0 && t.alpha * v <= t.threshold
    ensures
      var w := Smooth(t.alpha, Some(v), 0.0);
      0.0 <= w <= 1.0 && w <= t.threshold && t.alpha * w <= t.threshold
  {
    Mix(t.alpha, 1.0 - t.alpha, v, 0.0);
    var w := t.alpha * v;
    assert Smooth(t.alpha, Some(v), 0.0) == w;
    var x := Share(w, t.alpha);
    assert t.alpha * w == w * t.alpha;
  }

  /** One more silent frame: the utterance goes on, or is closed and handed on with the clock as its end. */
  lemma FaintFrame(cfg: Config, s: Stream, n: nat, loud: nat, silent: nat, frame: Frame)
    requires cfg.Valid() && 0.0 <= cfg.tunables.threshold && Faint(cfg, s, n, loud, silent) && |frame| == cfg.hop
    requires cfg.backend(s.heard + [frame]) == 0.0 && At(loud, cfg.hop) >= cfg.MinSamples()
    ensures
      var o := FrameStep(cfg, s, frame);
      if silent + 1 < cfg.tunables.silenceFrames then
        Faint(cfg, o.next, n, loud, silent + 1) && SegmentsOf(o.events) == []
      else
        |SegmentsOf(o.events)| == 1
        && SegmentsOf(o.events)[0].endMs == Some(Milliseconds(At(n + silent + 1, cfg.hop)))
  {
    FadesFurther(cfg.tunables, s.vad.smoothed.value);
    hide At, Smooth;
    NextFrame(n + silent, cfg.hop);
    assert Clamp01(0.0) == 0.0;
    assert !IsSpeech(cfg.tunables, s.vad, 0.0);
    if silent + 1 >= cfg.tunables.silenceFrames {
      var audio := DropLast(s.vad.audio + [frame], cfg.tunables.Trim());
      FlattenedFrames(audio, cfg.hop);
      AtMonotone(loud, |audio|, cfg.hop);
      var pcm := Flatten(audio);
      assert Step(cfg.tunables, s.vad, frame, 0.0).segment == Some(pcm);
      var o := FrameStep(cfg, s, frame);
      assert o.events == [SegmentReady(TimedSegment(pcm, s.consumed + cfg.hop, false))];
      assert SegmentsOf(o.events) == [o.events[0].segment];
    }
  }

  ghost predicate SilentAfter(backend: Backend, n: nat) {
    forall heard: seq<Frame> :: |heard| > n ==> backend(heard) == 0.0
  }

  lemma {:induction false} FaintDrain(cfg: Config, s: Stream, n: nat, loud: nat, silent: nat, pcm: seq<Sample>, k: nat)
    requires cfg.Valid() && 0.0 <= cfg.tunables.threshold && Faint(cfg, s, n, loud, silent) && |pcm| == At(k, cfg.hop)
    requires SilentAfter(cfg.backend, n)
    requires At(loud, cfg.hop) >= cfg.MinSamples() && silent + k < cfg.tunables.silenceFrames
    ensures var o := Drain(cfg, s, pcm); Faint(cfg, o.next, n, loud, silent + k) && SegmentsOf(o.events) == []
    decreases k
  {
    hide At, FrameStep, Faint;
    AtLeast(0, cfg.hop);
    FaintCarry(cfg, s, n, loud, silent);
    if k > 0 {
      NextFrame(k - 1, cfg.hop);
      AtLeast(k - 1, cfg.hop);
      var frame, rest := pcm[..cfg.hop], pcm[cfg.hop..];
      FaintFrame(cfg, s, n, loud, silent, frame);
      var a := FrameStep(cfg, s, frame);
      FaintDrain(cfg, a.next, n, loud, silent + 1, rest, k - 1);
      SegmentsOfAppend(a.events, Drain(cfg, a.next, rest).events);
    } else {
      assert s.(carry := []) == s;
      AtNothing(cfg.hop);
      assert pcm == [];
    }
  }

  lemma AtNothing(hop: nat)
    ensures At(0, hop) == 0
  {
  }

  lemma FaintCarry(cfg: Config, s: Stream, n: nat, loud: nat, silent: nat)
    requires Faint(cfg, s, n, loud, silent)
    ensures s.carry == [] && s.consumed == At(n + silent, cfg.hop) && |s.heard| == n + silent
  {
  }

  /** After n frames of speech, long enough to be confirmed, the utterance is open and its buffer all but complete. */
  lemma LoudStart(cfg: Config, c: real, n: nat, pcm: seq<Sample>)
    requires cfg.Valid() && CanPause(cfg.tunables) && c == FadingLevel(cfg.tunables) && cfg.backend == Fading(c, n)
    requires |pcm| == At(n, cfg.hop) && n > cfg.tunables.startFrames
    ensures
      var o := Drain(cfg, FRESH, pcm);
      && SegmentsOf(o.events) == [] && |o.next.vad.audio| + cfg.tunables.startFrames >= n
      && Faint(cfg, o.next, n, |o.next.vad.audio|, 0)
  {
    hide At, Drain, FadingLevel;
    FreshIsLoud(cfg, c);
    NextFrame(n, cfg.hop);
    AtNothing(cfg.hop);
    LoudDrain(cfg, FRESH, c, pcm, n);
    var o := Drain(cfg, FRESH, pcm);
    SameCount(|o.next.heard|, |o.next.carry|, n, cfg.hop);
  }

  lemma SameCount(a: nat, rest: nat, n: nat, hop: nat)
    requires rest < hop && At(a, hop) + rest == At(n, hop)
    ensures a == n && rest == 0
  {
    hide At;
    if a < n {
      AtMonotone(a + 1, n, hop);
      NextFrame(a, hop);
    }
    if n < a {
      AtMonotone(n + 1, a, hop);
      NextFrame(n, hop);
    }
  }

  // ----- Two pauses

  /** The bytes of k frames; what they hold does not matter to these backends. */
  function Frames(cfg: Config, k: nat): (bytes: seq<Byte>)
    ensures |bytes| % 2 == 0 && |bytes| / 2 == At(k, cfg.hop)
  {
    AtSum(k, 0, cfg.hop);
    FrameBytes(k, cfg.hop);
    seq(2 * At(k, cfg.hop), _ => 0)
  }

  lemma {:induction false} FrameBytes(k: nat, hop: nat)
    ensures At(k, hop) >= 0
  {
    AtMonotone(0, k, hop);
    AtNothing(hop);
  }

  lemma FramesSplit(cfg: Config, a: nat, b: nat)
    ensures Frames(cfg, a) <= Frames(cfg, a + b) && Frames(cfg, a + b)[|Frames(cfg, a)|..] == Frames(cfg, b)
  {
    AtSum(a, b, cfg.hop);
  }

  /** Live from a faint state over k frames that do not end the utterance. */
  lemma FaintLive(cfg: Config, s: Stream, n: nat, loud: nat, silent: nat, k: nat, rest: nat) returns (next: Stream)
    requires cfg.Valid() && 0.0 <= cfg.tunables.threshold && Faint(cfg, s, n, loud, silent)
    requires SilentAfter(cfg.backend, n)
    requires At(loud, cfg.hop) >= cfg.MinSamples() && silent + k < cfg.tunables.silenceFrames
    ensures Faint(cfg, next, n, loud, silent + k)
    ensures SegmentsOf(LiveTail(cfg, s, Frames(cfg, k + rest))) == SegmentsOf(LiveTail(cfg, next, Frames(cfg, rest)))
  {
    hide At, Faint, Frames, LiveTail, Drain;
    var pcm := DecodePcm(Frames(cfg, k));
    FramesSplit(cfg, k, rest);
    FaintCarry(cfg, s, n, loud, silent);
    FaintDrain(cfg, s, n, loud, silent, pcm, k);
    LiveSplit(cfg, s, Frames(cfg, k + rest), Frames(cfg, k));
    assert s.(carry := []) == s && [] + pcm == pcm;
    var a := Absorb(cfg, s, pcm);
    next := a.next;
    SegmentsOfAppend(a.events, LiveTail(cfg, next, Frames(cfg, rest)));
  }

  lemma OneFrameDrain(cfg: Config, s: Stream, frame: Frame)
    requires cfg.hop > 0 && |frame| == cfg.hop
    ensures Drain(cfg, s, frame).events == FrameStep(cfg, s, frame).events
  {
    hide FrameStep;
    assert frame[..cfg.hop] == frame && frame[cfg.hop..] == [];
    assert Drain(cfg, FrameStep(cfg, s, frame).next, []).events == [];
  }

  /** The frame that completes the pause: the utterance is handed on there. */
  lemma FaintCloses(cfg: Config, s: Stream, n: nat, loud: nat, rest: nat)
    requires cfg.Valid() && 0.0 <= cfg.tunables.threshold && Faint(cfg, s, n, loud, cfg.tunables.silenceFrames - 1)
    requires SilentAfter(cfg.backend, n)
    requires At(loud, cfg.hop) >= cfg.MinSamples()
    ensures
      var segments := SegmentsOf(LiveTail(cfg, s, Frames(cfg, 1 + rest)));
      segments != [] && segments[0].endMs == Some(Milliseconds(At(n + cfg.tunables.silenceFrames, cfg.hop)))
  {
    hide At, Faint, Frames, LiveTail, FrameStep, SegmentsOf;
    var silent := cfg.tunables.silenceFrames - 1;
    var frame := DecodePcm(Frames(cfg, 1));
    FramesSplit(cfg, 1, rest);
    NextFrame(0, cfg.hop);
    AtNothing(cfg.hop);
    FaintCarry(cfg, s, n, loud, silent);
    FaintFrame(cfg, s, n, loud, silent, frame);
    LiveSplit(cfg, s, Frames(cfg, 1 + rest), Frames(cfg, 1));
    assert s.(carry := []) == s && [] + frame == frame;
    var a := Absorb(cfg, s, frame);
    OneFrameDrain(cfg, s, frame);
    hide Drain;
    SegmentsOfAppend(a.events, LiveTail(cfg, a.next, Frames(cfg, rest)));
  }

  /** The loud frames are the same for every pause. */
  lemma LoudLive(cfg: Config, c: real, n: nat, rest: nat) returns (s: Stream)
    requires cfg.Valid() && CanPause(cfg.tunables) && c == FadingLevel(cfg.tunables) && cfg.backend == Fading(c, n)
    requires n > cfg.tunables.startFrames + Max(0, cfg.MinSamples())
    ensures Faint(cfg, s, n, |s.vad.audio|, 0) && At(|s.vad.audio|, cfg.hop) >= cfg.MinSamples()
    ensures SegmentsOf(LiveTail(cfg, FRESH, Frames(cfg, n + rest))) == SegmentsOf(LiveTail(cfg, s, Frames(cfg, rest)))
  {
    hide At, Faint, Frames, LiveTail, Drain;
    var pcm := DecodePcm(Frames(cfg, n));
    FramesSplit(cfg, n, rest);
    LoudStart(cfg, c, n, pcm);
    LiveSplit(cfg, FRESH, Frames(cfg, n + rest), Frames(cfg, n));
    assert [] + pcm == pcm;
    var a := Absorb(cfg, FRESH, pcm);
    s := a.next;
    AtLeast(|s.vad.audio|, cfg.hop);
    SegmentsOfAppend(a.events, LiveTail(cfg, s, Frames(cfg, rest)));
  }

  lemma FadesToSilence(c: real, n: nat)
    ensures SilentAfter(Fading(c, n), n)
  {
  }

  /** With the shorter pause the recording's first segment ends with that pause. */
  lemma ShorterPause(p: Config, c: real, n: nat)
    requires p.Valid() && CanPause(p.tunables) && c == FadingLevel(p.tunables) && p.backend == Fading(c, n)
    requires n > p.tunables.startFrames + Max(0, p.MinSamples())
    ensures
      var pause := p.tunables.silenceFrames;
      var x := SegmentsOf(LiveTail(p, FRESH, Frames(p, n + (pause + 1))));
      x != [] && x[0].endMs == Some(Milliseconds(At(n + pause, p.hop)))
  {
    FadesToSilence(c, n);
    hide At, Faint, Frames, LiveTail, FadingLevel, SilentAfter, SegmentsOf, Fading;
    var pause := p.tunables.silenceFrames;
    var x0 := LoudLive(p, c, n, pause + 1);
    var x1 := FaintLive(p, x0, n, |x0.vad.audio|, 0, pause - 1, 2);
    FaintCloses(p, x1, n, |x0.vad.audio|, 1);
  }

  /** With a longer pause every segment ends later. */
  lemma LongerPause(q: Config, c: real, n: nat, pause: nat, end: nat)
    requires q.Valid() && CanPause(q.tunables) && c == FadingLevel(q.tunables) && q.backend == Fading(c, n)
    requires n > q.tunables.startFrames + Max(0, q.MinSamples()) && pause < q.tunables.silenceFrames
    requires end == At(n + pause, q.hop)
    ensures EndAfter(SegmentsOf(LiveTail(q, FRESH, Frames(q, n + (pause + 1)))), end)
  {
    FadesToSilence(c, n);
    hide At, Faint, Frames, LiveTail, FadingLevel, SilentAfter, SegmentsOf, Fading;
    var y0 := LoudLive(q, c, n, pause + 1);
    var y1 := FaintLive(q, y0, n, |y0.vad.audio|, 0, pause, 1);
    FaintCarry(q, y1, n, |y0.vad.audio|, pause);
    NextFrame(0, q.hop);
    AtNothing(q.hop);
    LiveEndsAfter(q, y1, Frames(q, 1));
  }

  /** Whatever the other settings: if a pause can be heard, two lengths of it cut some recording differently. */
  lemma PausesPart(p: Config, q: Config, c: real, n: nat)
    requires p.Valid() && CanPause(p.tunables) && p.tunables.silenceFrames < q.tunables.silenceFrames
    requires q == p.(tunables := p.tunables.(silenceFrames := q.tunables.silenceFrames))
    requires c == FadingLevel(p.tunables) && p.backend == Fading(c, n)
    requires n > p.tunables.startFrames + Max(0, p.MinSamples())
    ensures
      var bytes := Frames(p, n + (p.tunables.silenceFrames + 1));
      Part(SegmentsOf(LiveTail(p, FRESH, bytes)), SegmentsOf(LiveTail(q, FRESH, bytes)))
  {
    assert FadingLevel(q.tunables) == c;
    hide At, Frames, LiveTail, FadingLevel, SegmentsOf, Fading, Part, EndAfter;
    var pause := p.tunables.silenceFrames;
    ShorterPause(p, c, n);
    FrameBytes(n + pause, q.hop);
    LongerPause(q, c, n, pause, At(n + pause, q.hop));
    SameFrames(p, q, n + (pause + 1));
    var bytes := Frames(p, n + (pause + 1));
    PartAtOnce(SegmentsOf(LiveTail(p, FRESH, bytes)), SegmentsOf(LiveTail(q, FRESH, bytes)), At(n + pause, q.hop));
  }

  lemma PartAtOnce(x: seq<Segment>, y: seq<Segment>, sample: nat)
    requires x != [] && x[0].endMs == Some(Milliseconds(sample)) && EndAfter(y, sample)
    ensures Part(x, y)
  {
    assert y != [] ==> y[0] in y;
    assert 0 < |x| && (0 >= |y| || OrZero(x[0].endMs) != OrZero(y[0].endMs));
  }

  lemma SameFrames(p: Config, q: Config, k: nat)
    requires p.hop == q.hop
    ensures Frames(p, k) == Frames(q, k)
  {
  }

  // ----- File against stream

  /** The stream's chunks and snapshots play no part. */
  lemma AgreeIsLive(cfg: Config, silenceMs: int, maxSegmentSec: real, chunks: seq<Chunk>)
    requires cfg.Valid() && Even(chunks)
    ensures |BytesOf(chunks)| % 2 == 0
    ensures
      Agree(cfg, silenceMs, maxSegmentSec, chunks)
      <==> Numbered(SegmentsOf(LiveTail(Quiet(cfg), FRESH, BytesOf(chunks))))
           == FileSegments(cfg, silenceMs, maxSegmentSec, BytesOf(chunks))
  {
    hide FeedAll, OfflineTail, FlushStream, LiveTail, Numbered, OfflineConfig;
    PcmOfBytes(chunks);
    LiveIsChunked(Quiet(cfg), cfg, chunks);
  }

  /** A file that is never cut early is a stream under the offline settings. */
  lemma FileIsLive(cfg: Config, silenceMs: int, maxSegmentSec: real, bytes: seq<Byte>)
    requires cfg.Valid() && |bytes| % 2 == 0
    ensures
      var off, cap := OfflineConfig(cfg, silenceMs), MaxSpeechSamples(maxSegmentSec);
      var file, live := SegmentsOf(OfflineTail(off, cap, FRESH, bytes)), SegmentsOf(LiveTail(off, FRESH, bytes));
      if CutsEarly(off, cap, FRESH, bytes) then Part(file, live) else file == live
  {
    hide OfflineTail, LiveTail, OfflineConfig, RunInv, CutsEarly;
    OfflineConfigValid(cfg, silenceMs);
    StartInv(OfflineConfig(cfg, silenceMs));
    OfflineVersusLive(OfflineConfig(cfg, silenceMs), MaxSpeechSamples(maxSegmentSec), START, bytes);
  }

  /** The offline settings differ from the live ones in the pause alone. */
  lemma OnlyThePause(cfg: Config, silenceMs: int)
    requires cfg.Valid()
    ensures
      var off, live := OfflineConfig(cfg, silenceMs), Quiet(cfg);
      && off.Valid() && live.Valid() && !off.enablePartial
      && off == live.(tunables := live.tunables.(silenceFrames := off.tunables.silenceFrames))
      && (SamePause(cfg, silenceMs) <==> off.tunables.silenceFrames == live.tunables.silenceFrames)
  {
  }

  lemma Agrees(cfg: Config, silenceMs: int, maxSegmentSec: real, chunks: seq<Chunk>)
    requires cfg.Valid() && Even(chunks)
    requires !CanHear(cfg.tunables)
             || (MaxSpeechSamples(maxSegmentSec) == 0 && (SamePause(cfg, silenceMs) || !CanPause(cfg.tunables)))
    ensures Agree(cfg, silenceMs, maxSegmentSec, chunks)
  {
    hide OfflineConfig, OfflineTail, CutsEarly, Agree, Drain, FlushStream, SamePause;
    AgreeIsLive(cfg, silenceMs, maxSegmentSec, chunks);
    var bytes, off, cap := BytesOf(chunks), OfflineConfig(cfg, silenceMs), MaxSpeechSamples(maxSegmentSec);
    OnlyThePause(cfg, silenceMs);
    FreshIsLatched(off.tunables);
    if cap == 0 {
      UncappedNeverCuts(off, FRESH, bytes);
    } else {
      DeafNeverCuts(off, cap, FRESH, bytes);
    }
    FileIsLive(cfg, silenceMs, maxSegmentSec, bytes);
    if SamePause(cfg, silenceMs) {
      assert off == Quiet(cfg);
    } else {
      DrainIgnoresPause(off, Quiet(cfg), FRESH, [] + DecodePcm(bytes));
      SameLive(off, Quiet(cfg), bytes);
    }
  }

  lemma SameLive(a: Config, b: Config, bytes: seq<Byte>)
    requires a.hop > 0 && |bytes| % 2 == 0 && b == a.(tunables := b.tunables)
    requires Drain(a, FRESH, [] + DecodePcm(bytes)) == Drain(b, FRESH, [] + DecodePcm(bytes))
    ensures LiveTail(a, FRESH, bytes) == LiveTail(b, FRESH, bytes)
  {
    hide Drain;
  }

  /** Steady speech does not care for the length of a pause. */
  lemma LoudStepIgnoresPause(a: Config, b: Config, v: VadState, n: nat, frame: Frame)
    requires a.Valid() && b == a.(tunables := a.tunables.(silenceFrames := b.tunables.silenceFrames)) && b.Valid()
    requires IsLevel(a.tunables, 1.0) && LoudVad(a, v, n, 1.0)
    ensures Step(a.tunables, v, frame, 1.0) == Step(b.tunables, v, frame, 1.0)
  {
    Steady(a.tunables.alpha, 1.0);
    assert Smooth(a.tunables.alpha, v.smoothed, 1.0) == 1.0;
    hide Smooth;
  }

  lemma {:induction false} LoudIgnoresPause(a: Config, b: Config, s: Stream, pcm: seq<Sample>)
    requires a.Valid() && b == a.(tunables := a.tunables.(silenceFrames := b.tunables.silenceFrames)) && b.Valid()
    requires IsLevel(a.tunables, 1.0) && a.backend == ALWAYS && Loud(a, s, 1.0)
    ensures Drain(a, s, pcm) == Drain(b, s, pcm)
    decreases |pcm|
  {
    hide Step, LoudVad, At;
    if |pcm| >= a.hop {
      var frame := pcm[..a.hop];
      LoudStepIgnoresPause(a, b, s.vad, |s.heard|, frame);
      assert FrameStep(a, s, frame) == FrameStep(b, s, frame);
      LoudFrame(a, s, 1.0, frame);
      LoudIgnoresPause(a, b, FrameStep(a, s, frame).next, pcm[a.hop..]);
    }
  }

  /** A recording of nothing but speech, cut by force in the file alone. */
  lemma CapDisagrees(cfg: Config, silenceMs: int, maxSegmentSec: real) returns (chunks: seq<Chunk>)
    requires cfg.Valid() && CanHear(cfg.tunables) && MaxSpeechSamples(maxSegmentSec) > 0 && cfg.backend == ALWAYS
    ensures Even(chunks) && !Agree(cfg, silenceMs, maxSegmentSec, chunks)
  {
    hide OfflineConfig, OfflineTail, CutsEarly, Agree, Drain, FlushStream, Numbered, LiveTail, SegmentsOf, Part, SamePause;
    OnlyThePause(cfg, silenceMs);
    var off, cap := OfflineConfig(cfg, silenceMs), MaxSpeechSamples(maxSegmentSec);
    var bytes := CappedCutsEarly(off, cap);
    chunks := [Chunk(bytes, 0.0)];
    assert BytesOf(chunks) == bytes by {
      OneChunk(bytes);
    }
    AgreeIsLive(cfg, silenceMs, maxSegmentSec, chunks);
    FileIsLive(cfg, silenceMs, maxSegmentSec, bytes);
    FreshIsLoud(off, 1.0);
    LoudIgnoresPause(off, Quiet(cfg), FRESH, [] + DecodePcm(bytes));
    SameLive(off, Quiet(cfg), bytes);
    NumberedTellsApart(SegmentsOf(OfflineTail(off, cap, FRESH, bytes)), SegmentsOf(LiveTail(off, FRESH, bytes)));
  }

  lemma OneChunk(bytes: seq<Byte>)
    ensures BytesOf([Chunk(bytes, 0.0)]) == bytes
  {
    assert [Chunk(bytes, 0.0)][1..] == [];
  }

  /** Speech and then a pause, an end for one of the two alone. */
  lemma PauseDisagrees(cfg: Config, silenceMs: int, maxSegmentSec: real, n: nat) returns (chunks: seq<Chunk>)
    requires cfg.Valid() && CanPause(cfg.tunables) && !SamePause(cfg, silenceMs) && MaxSpeechSamples(maxSegmentSec) == 0
    requires cfg.backend == Fading(FadingLevel(cfg.tunables), n)
    requires n > cfg.tunables.startFrames + Max(0, cfg.MinSamples())
    ensures Even(chunks) && !Agree(cfg, silenceMs, maxSegmentSec, chunks)
  {
    hide OfflineConfig, OfflineTail, CutsEarly, Agree, LiveTail, Numbered, Frames, SamePause, IsLevel, Part;
    OnlyThePause(cfg, silenceMs);
    var off, live, c := OfflineConfig(cfg, silenceMs), Quiet(cfg), FadingLevel(cfg.tunables);
    assert FadingLevel(off.tunables) == c;
    var pause := Min(off.tunables.silenceFrames, live.tunables.silenceFrames);
    var bytes := Frames(cfg, n + (pause + 1));
    SameFrames(cfg, off, n + (pause + 1));
    SameFrames(cfg, live, n + (pause + 1));
    chunks := [Chunk(bytes, 0.0)];
    assert BytesOf(chunks) == bytes by {
      OneChunk(bytes);
    }
    AgreeIsLive(cfg, silenceMs, maxSegmentSec, chunks);
    UncappedNeverCuts(off, FRESH, bytes);
    FileIsLive(cfg, silenceMs, maxSegmentSec, bytes);
    if off.tunables.silenceFrames < live.tunables.silenceFrames {
      PausesPart(off, live, c, n);
      NumberedTellsApart(SegmentsOf(LiveTail(off, FRESH, bytes)), SegmentsOf(LiveTail(live, FRESH, bytes)));
    } else {
      PausesPart(live, off, c, n);
      NumberedTellsApart(SegmentsOf(LiveTail(live, FRESH, bytes)), SegmentsOf(LiveTail(off, FRESH, bytes)));
    }
  }

  // ----- The exact condition

  /**
   File and stream agree on every recording, for every backend and every chunking of the stream, if and
   only if nothing can be heard at all, or there is no cap and either both use the same pause or no
   pause can be heard.
   */
  lemma AlwaysAgree(cfg: Config, silenceMs: int, maxSegmentSec: real)
    requires cfg.Valid()
    ensures
      (forall backend: Backend, chunks: seq<Chunk> :: Even(chunks) ==>
         Agree(cfg.(backend := backend), silenceMs, maxSegmentSec, chunks))
      <==> !CanHear(cfg.tunables)
           || (MaxSpeechSamples(maxSegmentSec) == 0 && (SamePause(cfg, silenceMs) || !CanPause(cfg.tunables)))
  {
    hide Agree, CanHear, CanPause, SamePause;
    var cap := MaxSpeechSamples(maxSegmentSec);
    if !CanHear(cfg.tunables) || (cap == 0 && (SamePause(cfg, silenceMs) || !CanPause(cfg.tunables))) {
      forall backend: Backend, chunks: seq<Chunk> | Even(chunks)
        ensures Agree(cfg.(backend := backend), silenceMs, maxSegmentSec, chunks)
      {
        SamePauseAnywhere(cfg, backend, silenceMs);
        Agrees(cfg.(backend := backend), silenceMs, maxSegmentSec, chunks);
      }
    } else if cap > 0 {
      var backend := ALWAYS;
      var chunks := CapDisagrees(cfg.(backend := backend), silenceMs, maxSegmentSec);
      assert !Agree(cfg.(backend := backend), silenceMs, maxSegmentSec, chunks);
    } else {
      var n := cfg.tunables.startFrames + Max(0, cfg.MinSamples()) + 1;
      var backend := Fading(FadingLevel(cfg.tunables), n);
      SamePauseAnywhere(cfg, backend, silenceMs);
      var chunks := PauseDisagrees(cfg.(backend := backend), silenceMs, maxSegmentSec, n);
      assert !Agree(cfg.(backend := backend), silenceMs, maxSegmentSec, chunks);
    }
  }

  lemma SamePauseAnywhere(cfg: Config, backend: Backend, silenceMs: int)
    requires cfg.hop > 0
    ensures SamePause(cfg.(backend := backend), silenceMs) <==> SamePause(cfg, silenceMs)
  {
  }

  // ----- The shipped settings (config.yaml, with the hop of the TEN backend)

  const SHIPPED_HOP: nat := 256
  const SHIPPED_OFFLINE_MS: int := 800

  predicate Shipped(cfg: Config) {
    cfg.hop == SHIPPED_HOP && cfg.tunables == MakeTunables(FrameMs(SHIPPED_HOP, SAMPLE_RATE), 0.65, 1000, 0.3, 10, 500, 40)
  }

  lemma ShippedPauses(cfg: Config)
    requires Shipped(cfg)
    ensures cfg.Valid() && CanHear(cfg.tunables) && CanPause(cfg.tunables) && !SamePause(cfg, SHIPPED_OFFLINE_MS)
    ensures cfg.tunables.startFrames == 10 && MaxSpeechSamples(30.0) > 0 && MaxSpeechSamples(0.0) == 0
  {
    hide FramesFor;
    assert FrameMs(SHIPPED_HOP, SAMPLE_RATE) == 16.0;
    assert cfg.tunables.silenceFrames == FramesFor(1000, 16.0, 1);
    assert 1000.0 <= FramesFor(1000, 16.0, 1) as real * 16.0;
    assert FramesFor(800, 16.0, 1) > 1 ==> (FramesFor(800, 16.0, 1) - 1) as real * 16.0 < 800.0;
  }

  /** Both ways of failing are open under the shipped settings: by the cap, and by the pause alone. */
  lemma ShippedSettingsDisagree(cfg: Config)
    requires Shipped(cfg)
    ensures exists backend: Backend, chunks: seq<Chunk> ::
      Even(chunks) && cfg.hop > 0 && !Agree(cfg.(backend := backend), SHIPPED_OFFLINE_MS, 30.0, chunks)
    ensures exists backend: Backend, chunks: seq<Chunk> ::
      Even(chunks) && cfg.hop > 0 && !Agree(cfg.(backend := backend), SHIPPED_OFFLINE_MS, 0.0, chunks)
  {
    ShippedPauses(cfg);
    hide Agree, SamePause, CanPause, CanHear, Shipped;
    AlwaysAgree(cfg, SHIPPED_OFFLINE_MS, 30.0);
    AlwaysAgree(cfg, SHIPPED_OFFLINE_MS, 0.0);
  }
}
