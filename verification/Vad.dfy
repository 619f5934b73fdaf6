/**
 The start/stop state machine that cuts a frame stream into utterances
 (backend/audio/vad.py, class VADProcessor).

 The neural backend is an oracle: a function from every frame it has ever been given
 to a probability. Its native state survives a reset, as in the original.
 */
module Vad {
  import opened Basics

  type Backend = seq<Frame> -> real

  datatype Tunables = Tunables(
    threshold: real,
    alpha: real,
    startFrames: nat,
    silenceFrames: nat,
    preSpeechFrames: nat,
    keepTailFrames: nat)
  {
    predicate Valid() {
      0.0 <= alpha <= 1.0 && startFrames >= 1 && silenceFrames >= 1 && preSpeechFrames >= 1
    }

    /** Frames deleted from the end of an utterance that silence has closed. */
    function Trim(): (n: nat)
      ensures n <= silenceFrames
    {
      silenceFrames - Min(keepTailFrames, silenceFrames)
    }
  }

  /** Duration of one frame in milliseconds. */
  function FrameMs(hop: nat, sampleRate: nat): real
    requires sampleRate > 0
  {
    hop as real / sampleRate as real * 1000.0
  }

  /** How long so many frames last. */
  function Ms(frames: int, frameMs: real): real { frames as real * frameMs }

  /** n is the least number of frames, but no less than `floor`, that last `ms` milliseconds. */
  predicate Lasts(n: nat, ms: real, frameMs: real, floor: nat) {
    n >= floor && ms <= Ms(n, frameMs) && (n > floor ==> Ms(n - 1, frameMs) < ms)
  }

  /** The fewest frames, but no fewer than `floor`, that last `ms` milliseconds. */
  function FramesFor(ms: int, frameMs: real, floor: nat): (n: nat)
    requires frameMs > 0.0
    ensures Lasts(n, ms as real, frameMs, floor)
  {
    LeastLasts(ms as real, frameMs, floor);
    Max(floor, Ceil(ms as real / frameMs))
  }

  lemma LeastLasts(ms: real, frameMs: real, floor: nat)
    requires frameMs > 0.0
    ensures Lasts(Max(floor, Ceil(ms / frameMs)), ms, frameMs, floor)
  {
    var c := Ceil(ms / frameMs);
    CeilScales(ms, frameMs, c);
    hide Ms, Ceil;
    MsMonotone(c, Max(floor, c), frameMs);
  }

  lemma CeilScales(x: real, unit: real, c: int)
    requires unit > 0.0
    requires c as real - 1.0 < x / unit <= c as real
    ensures Ms(c - 1, unit) < x <= Ms(c, unit)
  {
    var q := x / unit;
    assert q * unit == x;
    ScaleMonotone(q, c as real, unit);
    var d := q - (c - 1) as real;
    assert d * unit > 0.0;
    assert (c - 1) as real * unit == q * unit - d * unit;
  }

  lemma MsMonotone(a: int, b: int, frameMs: real)
    requires a <= b && frameMs > 0.0
    ensures Ms(a, frameMs) <= Ms(b, frameMs)
  {
    ScaleMonotone(a as real, b as real, frameMs);
  }

  lemma ScaleMonotone(a: real, b: real, unit: real)
    requires a <= b && unit > 0.0
    ensures a * unit <= b * unit
  {
    assert (b - a) * unit >= 0.0;
    assert b * unit == a * unit + (b - a) * unit;
  }

  /** The clamping and millisecond-to-frame conversion of _set_tunables. */
  function MakeTunables(
    frameMs: real, threshold: real, silenceMs: int, alpha: real, startFrames: int, preSpeechMs: int, keepTailMs: int
  ): (t: Tunables)
    requires frameMs > 0.0
    ensures t.Valid()
  {
    Tunables(
      threshold,
      if alpha < 0.0 then 0.0 else if alpha > 1.0 then 1.0 else alpha,
      Max(1, startFrames),
      FramesFor(silenceMs, frameMs, 1),
      FramesFor(preSpeechMs, frameMs, 1),
      FramesFor(keepTailMs, frameMs, 0))
  }

  /** Which setting each knob comes from: durations become the fewest frames that last as long. */
  lemma KnobsFollowSettings(
    frameMs: real, threshold: real, silenceMs: int, alpha: real, startFrames: int, preSpeechMs: int, keepTailMs: int)
    requires frameMs > 0.0
    ensures
      var t := MakeTunables(frameMs, threshold, silenceMs, alpha, startFrames, preSpeechMs, keepTailMs);
      && t.threshold == threshold
      && (0.0 <= alpha <= 1.0 ==> t.alpha == alpha) && (alpha < 0.0 ==> t.alpha == 0.0) && (alpha > 1.0 ==> t.alpha == 1.0)
      && (startFrames >= 1 ==> t.startFrames == startFrames) && (startFrames < 1 ==> t.startFrames == 1)
      && Lasts(t.silenceFrames, silenceMs as real, frameMs, 1)
      && Lasts(t.preSpeechFrames, preSpeechMs as real, frameMs, 1)
      && Lasts(t.keepTailFrames, keepTailMs as real, frameMs, 0)
  {
    hide Lasts, FramesFor;
  }

  /** Everything _reset and process read or write, apart from the backend. */
  datatype VadState = VadState(
    audio: seq<Frame>,
    pre: seq<Frame>,
    silent: nat,
    speech: nat,
    speaking: bool,
    smoothed: Option<real>)

  const RESET := VadState([], [], 0, 0, false, None)

  /** _extract_prob clamps whatever the backend says. */
  function Clamp01(x: real): (p: real)
    ensures 0.0 <= p <= 1.0 && (0.0 <= x <= 1.0 ==> p == x) && (x < 0.0 ==> p == 0.0) && (x > 1.0 ==> p == 1.0)
  {
    if x < 0.0 then 0.0 else if x > 1.0 then 1.0 else x
  }

  function Smooth(alpha: real, previous: Option<real>, raw: real): real {
    match previous
    case None => raw
    case Some(p) => alpha * p + (1.0 - alpha) * raw
  }

  predicate IsSpeech(t: Tunables, s: VadState, raw: real) {
    Smooth(t.alpha, s.smoothed, raw) > t.threshold
  }

  /** `del frames[-n:]` for positive n; nothing for zero. */
  function DropLast(frames: seq<Frame>, n: nat): seq<Frame> {
    if n >= |frames| then (if n == 0 then frames else []) else frames[..|frames| - n]
  }

  datatype StepResult = StepResult(next: VadState, segment: Option<seq<Sample>>)

  /** One frame through the machine. */
  function Step(t: Tunables, s: VadState, frame: Frame, raw: real): StepResult {
    var speech := IsSpeech(t, s, raw);
    var smoothed := Some(Smooth(t.alpha, s.smoothed, raw));
    if !s.speaking then
      var grown := s.pre + [frame];
      var pre := if |grown| > t.preSpeechFrames then grown[1..] else grown;
      var count := if speech then s.speech + 1 else 0;
      if count >= t.startFrames then
        StepResult(VadState(s.audio + pre, [], 0, count, true, smoothed), None)
      else
        StepResult(VadState(s.audio, pre, s.silent, count, false, smoothed), None)
    else
      var audio := s.audio + [frame];
      if speech then
        StepResult(VadState(audio, s.pre, 0, s.speech, true, smoothed), None)
      else if s.silent + 1 >= t.silenceFrames then
        StepResult(RESET, Some(Flatten(DropLast(audio, t.Trim()))))
      else
        StepResult(VadState(audio, s.pre, s.silent + 1, s.speech, true, smoothed), None)
  }

  /** What flush hands back before it resets. */
  function Residue(s: VadState): Option<seq<Sample>> {
    if s.audio != [] && s.speaking then Some(Flatten(s.audio)) else None
  }

  class VADProcessor {
    const hop: nat
    const backend: Backend
    var tunables: Tunables
    /** The native state of the backend: every frame it was given. */
    var heard: seq<Frame>
    var audioBuffer: seq<Frame>
    var preSpeechBuffer: seq<Frame>
    var silentCount: nat
    var speechCount: nat
    var isSpeaking: bool
    var smoothedProb: Option<real>

    function State(): VadState
      reads this
    {
      VadState(audioBuffer, preSpeechBuffer, silentCount, speechCount, isSpeaking, smoothedProb)
    }

    constructor (hop: nat, backend: Backend, tunables: Tunables)
      requires hop > 0
      ensures this.hop == hop && this.backend == backend && this.tunables == tunables
      ensures heard == [] && State() == RESET
    {
      this.hop, this.backend, this.tunables := hop, backend, tunables;
      heard, audioBuffer, preSpeechBuffer := [], [], [];
      silentCount, speechCount, isSpeaking, smoothedProb := 0, 0, false, None;
    }

    /** Changes the knobs only: buffers and counters stay as they are. */
    method ApplyConfig(
      threshold: real, silenceMs: int, alpha: real, startFrames: int, preSpeechMs: int, keepTailMs: int)
      requires hop > 0
      modifies this`tunables
      ensures tunables.Valid()
      ensures tunables
           == MakeTunables(FrameMs(hop, SAMPLE_RATE), threshold, silenceMs, alpha, startFrames, preSpeechMs, keepTailMs)
    {
      tunables :=
        MakeTunables(FrameMs(hop, SAMPLE_RATE), threshold, silenceMs, alpha, startFrames, preSpeechMs, keepTailMs);
    }

    method Process(frame: Frame) returns (segment: Option<seq<Sample>>)
      modifies this
      ensures tunables == old(tunables) && heard == old(heard) + [frame]
      ensures StepResult(State(), segment)
           == Step(tunables, old(State()), frame, Clamp01(backend(old(heard) + [frame])))
    {
      heard := heard + [frame];
      var rawProb := Clamp01(backend(heard));
      smoothedProb := Some(Smooth(tunables.alpha, smoothedProb, rawProb));
      var isSpeech := smoothedProb.value > tunables.threshold;
      if !isSpeaking {
        preSpeechBuffer := preSpeechBuffer + [frame];
        if |preSpeechBuffer| > tunables.preSpeechFrames {
          preSpeechBuffer := preSpeechBuffer[1..];
        }
        if isSpeech {
          speechCount := speechCount + 1;
        } else {
          speechCount := 0;
        }
        if speechCount >= tunables.startFrames {
          isSpeaking := true;
          silentCount := 0;
          audioBuffer := audioBuffer + preSpeechBuffer;
          preSpeechBuffer := [];
        }
        return None;
      }
      audioBuffer := audioBuffer + [frame];
      if isSpeech {
        silentCount := 0;
      } else {
        silentCount := silentCount + 1;
        if silentCount >= tunables.silenceFrames {
          var keepTail := Min(tunables.keepTailFrames, tunables.silenceFrames);
          var trim := tunables.silenceFrames - keepTail;
          if trim > 0 {
            audioBuffer := DropLast(audioBuffer, trim);
          }
          segment := Some(Flatten(audioBuffer));
          assert audioBuffer == DropLast(old(audioBuffer) + [frame], tunables.Trim());
          ResetState();
          return;
        }
      }
      return None;
    }

    method SnapshotIncompleteSpeech() returns (snapshot: Option<seq<Sample>>)
      ensures snapshot == Residue(State())
    {
      if !isSpeaking || audioBuffer == [] {
        return None;
      }
      return Some(Flatten(audioBuffer));
    }

    method Flush() returns (segment: Option<seq<Sample>>)
      modifies this
      ensures tunables == old(tunables) && heard == old(heard)
      ensures State() == RESET && segment == Residue(old(State()))
    {
      segment := None;
      if audioBuffer != [] && isSpeaking {
        segment := Some(Flatten(audioBuffer));
      }
      ResetState();
    }

    method ResetState()
      modifies this
      ensures tunables == old(tunables) && heard == old(heard) && State() == RESET
    {
      audioBuffer, preSpeechBuffer := [], [];
      silentCount, speechCount, isSpeaking, smoothedProb := 0, 0, false, None;
    }
  }

  // ----- What the machine remembers of the frames it was given

  /**
   The invariant of every run: the buffers are the newest frames since the last reset.
   `flags` records the decision taken on each frame, `resetAt` the frame count at the last
   reset, `confirmedAt` the frame count when the open utterance was confirmed.
   */
  ghost predicate Remembers(
    t: Tunables, s: VadState, heard: seq<Frame>, flags: seq<bool>, resetAt: nat, confirmedAt: nat)
  {
    && |flags| == |heard|
    && resetAt <= |heard|
    && if s.speaking then
         && resetAt < confirmedAt <= |heard|
         && |s.audio| == |heard| - Max(resetAt, confirmedAt - t.preSpeechFrames)
         && s.audio == heard[|heard| - |s.audio|..]
         && s.pre == []
         && s.silent < t.silenceFrames
         && s.silent <= |heard| - confirmedAt
         && (forall k :: |heard| - s.silent <= k < |heard| ==> !flags[k])
         && flags[|heard| - s.silent - 1]
       else
         && s.audio == []
         && |s.pre| == Min(t.preSpeechFrames, |heard| - resetAt)
         && s.pre == heard[|heard| - |s.pre|..]
         && s.silent == 0
         && s.speech < t.startFrames
         && s.speech <= |heard| - resetAt
         && (forall k :: |heard| - s.speech <= k < |heard| ==> flags[k])
         && (s.speech < |heard| - resetAt ==> !flags[|heard| - s.speech - 1])
  }

  /** Every step keeps the invariant, whatever the backend answers. */
  lemma StepRemembers(
    t: Tunables, s: VadState, heard: seq<Frame>, flags: seq<bool>, resetAt: nat, confirmedAt: nat, frame: Frame, raw: real)
    requires t.Valid()
    requires Remembers(t, s, heard, flags, resetAt, confirmedAt)
    ensures
      var r := Step(t, s, frame, raw);
      var n := |heard| + 1;
      Remembers(t, r.next, heard + [frame], flags + [IsSpeech(t, s, raw)],
                if r.segment.Some? then n else resetAt,
                if !s.speaking && r.next.speaking then n else confirmedAt)
  {
    hide Smooth, Flatten, DropLast;
    if s.speaking {
      SpeakingRemembers(t, s, heard, flags, resetAt, confirmedAt, frame, raw);
    } else {
      WaitingRemembers(t, s, heard, flags, resetAt, confirmedAt, frame, raw);
    }
    hide Step, Remembers, IsSpeech;
  }

  lemma WaitingRemembers(
    t: Tunables, s: VadState, heard: seq<Frame>, flags: seq<bool>, resetAt: nat, confirmedAt: nat, frame: Frame, raw: real)
    requires t.Valid() && !s.speaking
    requires Remembers(t, s, heard, flags, resetAt, confirmedAt)
    ensures
      var r := Step(t, s, frame, raw);
      r.segment == None
      && Remembers(t, r.next, heard + [frame], flags + [IsSpeech(t, s, raw)], resetAt,
                   if r.next.speaking then |heard| + 1 else confirmedAt)
  {
    hide IsSpeech, Smooth;
  }

  lemma SpeakingRemembers(
    t: Tunables, s: VadState, heard: seq<Frame>, flags: seq<bool>, resetAt: nat, confirmedAt: nat, frame: Frame, raw: real)
    requires t.Valid() && s.speaking
    requires Remembers(t, s, heard, flags, resetAt, confirmedAt)
    ensures
      var r := Step(t, s, frame, raw);
      Remembers(t, r.next, heard + [frame], flags + [IsSpeech(t, s, raw)],
                if r.segment.Some? then |heard| + 1 else resetAt, confirmedAt)
  {
    hide IsSpeech, Smooth, Flatten, DropLast;
  }

  /** The decisions before frame m let an utterance open there: `start` in a row for speech, all since `from`. */
  ghost predicate Opens(flags: seq<bool>, start: nat, from: nat, m: int) {
    from + start <= m <= |flags| && forall k :: m - start <= k < m ==> flags[k]
  }

  ghost predicate FirstOpens(flags: seq<bool>, start: nat, from: nat, m: int) {
    Opens(flags, start, from, m) && forall j :: j < m ==> !Opens(flags, start, from, j)
  }

  ghost predicate NeverOpens(flags: seq<bool>, start: nat, from: nat) {
    forall m :: !Opens(flags, start, from, m)
  }

  lemma OpensGrows(flags: seq<bool>, flags': seq<bool>, start: nat, from: nat, m: int)
    requires flags <= flags' && m <= |flags|
    ensures Opens(flags, start, from, m) <==> Opens(flags', start, from, m)
  {
    assert forall k :: 0 <= k < |flags| ==> flags[k] == flags'[k];
  }

  /**
   When the machine turns, told by the decisions alone: an utterance opens on the frame that ends
   the first `startFrames` decisions in a row for speech since the reset, and closes on the frame
   that ends the first `silenceFrames` decisions in a row against it since it opened.
   */
  lemma TurnsExactly(
    t: Tunables, s: VadState, heard: seq<Frame>, flags: seq<bool>, resetAt: nat, confirmedAt: nat, frame: Frame, raw: real)
    requires t.Valid()
    requires Remembers(t, s, heard, flags, resetAt, confirmedAt)
    ensures
      var r, now, n := Step(t, s, frame, raw), flags + [IsSpeech(t, s, raw)], |heard| + 1;
      if !s.speaking then
        r.next.speaking <==> Opens(now, t.startFrames, resetAt, n)
      else
        r.segment.Some? <==> n - t.silenceFrames >= confirmedAt && forall k :: n - t.silenceFrames <= k < n ==> !now[k]
  {
    hide Smooth, Flatten, DropLast;
    if s.speaking {
      ClosesExactly(t, s, heard, flags, resetAt, confirmedAt, frame, raw);
    } else {
      OpensExactly(t, s, heard, flags, resetAt, confirmedAt, frame, raw);
    }
    hide Step, Remembers, IsSpeech, Opens;
  }

  lemma OpensExactly(
    t: Tunables, s: VadState, heard: seq<Frame>, flags: seq<bool>, resetAt: nat, confirmedAt: nat, frame: Frame, raw: real)
    requires t.Valid() && !s.speaking
    requires Remembers(t, s, heard, flags, resetAt, confirmedAt)
    ensures
      Step(t, s, frame, raw).next.speaking <==> Opens(flags + [IsSpeech(t, s, raw)], t.startFrames, resetAt, |heard| + 1)
  {
    hide Smooth, IsSpeech;
    var now, n := flags + [IsSpeech(t, s, raw)], |heard| + 1;
    assert s.speech < |heard| - resetAt ==> !now[|heard| - s.speech - 1];
    assert now[n - 1] == IsSpeech(t, s, raw);
  }

  lemma ClosesExactly(
    t: Tunables, s: VadState, heard: seq<Frame>, flags: seq<bool>, resetAt: nat, confirmedAt: nat, frame: Frame, raw: real)
    requires t.Valid() && s.speaking
    requires Remembers(t, s, heard, flags, resetAt, confirmedAt)
    ensures
      var now, n := flags + [IsSpeech(t, s, raw)], |heard| + 1;
      Step(t, s, frame, raw).segment.Some?
      <==> n - t.silenceFrames >= confirmedAt && forall k :: n - t.silenceFrames <= k < n ==> !now[k]
  {
    hide Smooth, Flatten, DropLast, IsSpeech;
    var now, n := flags + [IsSpeech(t, s, raw)], |heard| + 1;
    assert now[|heard| - s.silent - 1];
    assert now[n - 1] == IsSpeech(t, s, raw);
  }

  /** Since the last reset: where the open utterance opened, or that none could open. */
  ghost predicate Watches(t: Tunables, speaking: bool, flags: seq<bool>, resetAt: nat, confirmedAt: nat) {
    if speaking then FirstOpens(flags, t.startFrames, resetAt, confirmedAt) else NeverOpens(flags, t.startFrames, resetAt)
  }

  lemma StepWatches(
    t: Tunables, s: VadState, heard: seq<Frame>, flags: seq<bool>, resetAt: nat, confirmedAt: nat, frame: Frame, raw: real)
    requires t.Valid()
    requires Remembers(t, s, heard, flags, resetAt, confirmedAt) && Watches(t, s.speaking, flags, resetAt, confirmedAt)
    ensures
      var r := Step(t, s, frame, raw);
      var n := |heard| + 1;
      Watches(t, r.next.speaking, flags + [IsSpeech(t, s, raw)],
              if r.segment.Some? then n else resetAt,
              if !s.speaking && r.next.speaking then n else confirmedAt)
  {
    TurnsExactly(t, s, heard, flags, resetAt, confirmedAt, frame, raw);
    StepOutcome(t, s, frame, raw);
    hide Step, IsSpeech;
    var now := flags + [IsSpeech(t, s, raw)];
    forall m | m <= |flags| ensures Opens(flags, t.startFrames, resetAt, m) <==> Opens(now, t.startFrames, resetAt, m) {
      OpensGrows(flags, now, t.startFrames, resetAt, m);
    }
  }

  /** Speech ends with a segment, and a segment ends speech. */
  lemma StepOutcome(t: Tunables, s: VadState, frame: Frame, raw: real)
    ensures var r := Step(t, s, frame, raw); r.segment.Some? <==> s.speaking && !r.next.speaking
  {
  }

  /**
   A closed utterance is a non-empty slice of the history. The last `silenceFrames` decisions are against
   speech and the one before them is for it, and of that silence exactly `keepTailFrames` frames, if there
   are as many, stay in the utterance.
   */
  lemma CutIsSlice(
    t: Tunables, s: VadState, heard: seq<Frame>, flags: seq<bool>, resetAt: nat, confirmedAt: nat, frame: Frame, raw: real)
    requires t.Valid()
    requires Remembers(t, s, heard, flags, resetAt, confirmedAt)
    requires Step(t, s, frame, raw).segment.Some?
    ensures
      var all, now := heard + [frame], flags + [IsSpeech(t, s, raw)];
      var first, spoken := |heard| - |s.audio|, |all| - t.silenceFrames;
      var last := spoken + Min(t.keepTailFrames, t.silenceFrames);
      && first == Max(resetAt, confirmedAt - t.preSpeechFrames)
      && resetAt <= first < spoken <= last <= |all| && resetAt < confirmedAt <= spoken
      && Step(t, s, frame, raw).segment == Some(Flatten(all[first..last]))
      && now[spoken - 1] && forall k :: spoken <= k < |all| ==> !now[k]
  {
    var all := heard + [frame];
    var first, last := |heard| - |s.audio|, |all| - t.Trim();
    assert DropLast(s.audio + [frame], t.Trim()) == all[first..last];
    assert flags[|heard| - s.silent - 1];
  }
}
