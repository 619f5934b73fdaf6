/**
 The frame-level passes before final recognition (backend/audio/vad.py): per-frame speech
 probabilities, and trim_long_silence_for_asr, which deletes long pauses inside a clip.
 */
module SilenceRemoval {
  import opened Basics
  import opened Vad

  // ----- Frames and probabilities

  /** The whole hops of a clip. */
  function Chop(pcm: seq<Sample>, hop: nat): (frames: seq<Frame>)
    requires hop > 0
    ensures At(|frames|, hop) <= |pcm| < At(|frames|, hop) + hop
  {
    if |pcm| < hop then []
    else
      var rest := Chop(pcm[hop..], hop);
      NextFrame(|rest|, hop);
      [pcm[..hop]] + rest
  }

  /** They are the clip, hop by hop, up to the residue. */
  lemma {:induction false} ChopIsClip(pcm: seq<Sample>, hop: nat)
    requires hop > 0
    ensures (forall f <- Chop(pcm, hop) :: |f| == hop) && Flatten(Chop(pcm, hop)) == pcm[..At(|Chop(pcm, hop)|, hop)]
    decreases |pcm|
  {
    if |pcm| >= hop {
      var rest := Chop(pcm[hop..], hop);
      ChopIsClip(pcm[hop..], hop);
      NextFrame(|rest|, hop);
      FlattenedFrames(rest, hop);
      assert Chop(pcm, hop) == [pcm[..hop]] + rest && ([pcm[..hop]] + rest)[1..] == rest;
      assert Flatten(Chop(pcm, hop)) == pcm[..hop] + Flatten(rest);
      var used := At(|rest|, hop);
      hide At, Flatten, Chop;
      assert pcm[..hop] + pcm[hop..][..used] == pcm[..hop + used];
    }
  }

  /** Smoothed probability of every frame, from a freshly created backend. */
  function Probs(backend: Backend, alpha: real, frames: seq<Frame>): (probs: seq<real>)
    ensures |probs| == |frames|
  {
    if frames == [] then []
    else
      var before := Probs(backend, alpha, frames[..|frames| - 1]);
      before + [Smooth(alpha, if before == [] then None else Some(before[|before| - 1]), Clamp01(backend(frames)))]
  }

  /** The loop that runs a fresh VAD over the clip hop by hop. */
  method ComputeProbs(backend: Backend, alpha: real, hop: nat, pcm: seq<Sample>) returns (probs: seq<real>)
    requires hop > 0
    ensures probs == Probs(backend, alpha, Chop(pcm, hop))
  {
    hide Smooth, Clamp01, At;
    probs := [];
    var smoothed: Option<real> := None;
    var heard: seq<Frame> := [];
    var rest := pcm;
    while |rest| >= hop
      invariant heard + Chop(rest, hop) == Chop(pcm, hop)
      invariant probs == Probs(backend, alpha, heard)
      invariant smoothed == if probs == [] then None else Some(probs[|probs| - 1])
      decreases |rest|
    {
      var frame := rest[..hop];
      assert Chop(rest, hop) == [frame] + Chop(rest[hop..], hop);
      assert (heard + [frame])[..|heard|] == heard;
      heard := heard + [frame];
      smoothed := Some(Smooth(alpha, smoothed, Clamp01(backend(heard))));
      probs := probs + [smoothed.value];
      rest := rest[hop..];
    }
    assert heard + Chop(rest, hop) == heard;
  }

  function Above(probs: seq<real>, threshold: real): (flags: seq<bool>)
    ensures |flags| == |probs|
  {
    seq(|probs|, i requires 0 <= i < |probs| => probs[i] > threshold)
  }

  /** The samples of frames a up to b; the residue behind the last whole hop belongs to no frame. */
  function Span(pcm: seq<Sample>, hop: nat, a: nat, b: nat): seq<Sample>
    requires a <= b && At(b, hop) <= |pcm|
  {
    AtMonotone(a, b, hop);
    pcm[At(a, hop)..At(b, hop)]
  }

  lemma SpanAppend(pcm: seq<Sample>, hop: nat, a: nat, b: nat, c: nat)
    requires a <= b <= c && At(c, hop) <= |pcm|
    ensures At(b, hop) <= |pcm| && Span(pcm, hop, a, b) + Span(pcm, hop, b, c) == Span(pcm, hop, a, c)
  {
    AtMonotone(a, b, hop);
    AtMonotone(b, c, hop);
  }

  // ----- The specification: which frames go

  /** [a, b) is a maximal silent run of at least `min` frames with speech on both sides. */
  ghost predicate LongRun(flags: seq<bool>, min: nat, a: nat, b: nat) {
    && 0 < a && a + min <= b < |flags|
    && flags[a - 1] && flags[b]
    && forall k :: a <= k < b ==> !flags[k]
  }

  ghost predicate Removed(flags: seq<bool>, min: nat, j: nat) {
    exists a: nat, b: nat :: LongRun(flags, min, a, b) && a <= j < b
  }

  ghost predicate StartsLongRun(flags: seq<bool>, min: nat, a: nat) {
    exists b: nat :: LongRun(flags, min, a, b)
  }

  ghost function CountLongRuns(flags: seq<bool>, min: nat, n: nat): nat {
    if n == 0 then 0 else CountLongRuns(flags, min, n - 1) + if StartsLongRun(flags, min, n - 1) then 1 else 0
  }

  /** The samples of the first n frames without the removed ones. */
  ghost function KeptPcm(pcm: seq<Sample>, hop: nat, flags: seq<bool>, min: nat, n: nat): seq<Sample>
    requires At(n, hop) <= |pcm|
  {
    if n == 0 then []
    else
      AtMonotone(n - 1, n, hop);
      KeptPcm(pcm, hop, flags, min, n - 1)
      + if Removed(flags, min, n - 1) then [] else Span(pcm, hop, n - 1, n)
  }

  /** Frames [a, b) are all kept. */
  lemma {:induction false} KeepRange(pcm: seq<Sample>, hop: nat, flags: seq<bool>, min: nat, a: nat, b: nat)
    requires a <= b && At(b, hop) <= |pcm|
    requires forall k: nat :: a <= k < b ==> !Removed(flags, min, k) && !StartsLongRun(flags, min, k)
    ensures At(a, hop) <= |pcm|
    ensures KeptPcm(pcm, hop, flags, min, b) == KeptPcm(pcm, hop, flags, min, a) + Span(pcm, hop, a, b)
    ensures CountLongRuns(flags, min, b) == CountLongRuns(flags, min, a)
    decreases b
  {
    hide Removed, StartsLongRun, At, Span;
    AtMonotone(a, b, hop);
    if a < b {
      AtMonotone(b - 1, b, hop);
      KeepRange(pcm, hop, flags, min, a, b - 1);
      SpanAppend(pcm, hop, a, b - 1, b);
      var k, x, y := KeptPcm(pcm, hop, flags, min, a), Span(pcm, hop, a, b - 1), Span(pcm, hop, b - 1, b);
      assert (k + x) + y == k + (x + y);
    } else {
      EmptySpan(pcm, hop, a);
    }
  }

  lemma EmptySpan(pcm: seq<Sample>, hop: nat, a: nat)
    requires At(a, hop) <= |pcm|
    ensures 0 <= At(a, hop) && Span(pcm, hop, a, a) == []
  {
    AtMonotone(0, a, hop);
  }

  /** Frames [a, b) are all removed, and at most the first of them starts a run. */
  lemma {:induction false} RemoveRange(pcm: seq<Sample>, hop: nat, flags: seq<bool>, min: nat, a: nat, b: nat)
    requires a <= b && At(b, hop) <= |pcm|
    requires forall k: nat :: a <= k < b ==> Removed(flags, min, k) && !StartsLongRun(flags, min, k)
    ensures At(a, hop) <= |pcm| && KeptPcm(pcm, hop, flags, min, b) == KeptPcm(pcm, hop, flags, min, a)
    ensures CountLongRuns(flags, min, b) == CountLongRuns(flags, min, a)
    decreases b
  {
    hide Removed, StartsLongRun, At, Span;
    AtMonotone(a, b, hop);
    if a < b {
      AtMonotone(b - 1, b, hop);
      RemoveRange(pcm, hop, flags, min, a, b - 1);
      assert KeptPcm(pcm, hop, flags, min, b - 1) + [] == KeptPcm(pcm, hop, flags, min, b - 1);
    }
  }

  // ----- The pass

  datatype SilenceRemovalResult = SilenceRemovalResult(pcm: seq<Sample>, removedSamples: nat, removedRanges: nat)

  /** has_speech_before and has_speech_after of the original. */
  method SpeechAround(flags: seq<bool>) returns (before: seq<bool>, after: seq<bool>)
    ensures |before| == |after| == |flags|
    ensures forall i :: 0 <= i < |flags| ==> (before[i] <==> exists k :: 0 <= k < i && flags[k])
    ensures forall i :: 0 <= i < |flags| ==> (after[i] <==> exists k :: i < k < |flags| && flags[k])
  {
    var n := |flags|;
    before := seq(n, _ => false);
    var seen := false;
    var i := 0;
    while i < n
      invariant 0 <= i <= n && |before| == n
      invariant seen <==> exists k :: 0 <= k < i && flags[k]
      invariant forall j :: 0 <= j < i ==> (before[j] <==> exists k :: 0 <= k < j && flags[k])
    {
      before := before[i := seen];
      seen := seen || flags[i];
      i := i + 1;
    }
    after := seq(n, _ => false);
    seen := false;
    while i > 0
      invariant 0 <= i <= n && |after| == n
      invariant seen <==> exists k :: i <= k < n && flags[k]
      invariant forall j :: i <= j < n ==> (after[j] <==> exists k :: j < k < n && flags[k])
    {
      i := i - 1;
      after := after[i := seen];
      seen := seen || flags[i];
    }
  }

  lemma Internal(flags: seq<bool>, before: seq<bool>, after: seq<bool>, a: nat, b: nat)
    requires a < b <= |flags| == |before| == |after|
    requires (a == 0 || flags[a - 1]) && (b == |flags| || flags[b])
    requires forall i :: 0 <= i < |flags| ==> (before[i] <==> exists k :: 0 <= k < i && flags[k])
    requires forall i :: 0 <= i < |flags| ==> (after[i] <==> exists k :: i < k < |flags| && flags[k])
    ensures before[a] && after[b - 1] <==> a > 0 && b < |flags|
  {
  }

  lemma AtZero(hop: nat)
    ensures At(0, hop) == 0
  {
  }

  /** A maximal silent run, found at [a, b): it is long and internal, or none of its frames is removed. */
  lemma ClassifyRun(flags: seq<bool>, min: nat, a: nat, b: nat)
    requires a < b <= |flags| && min >= 1 && (forall k :: a <= k < b ==> !flags[k])
    requires (a == 0 || flags[a - 1]) && (b == |flags| || flags[b])
    ensures forall k: nat :: a < k < b ==> !StartsLongRun(flags, min, k)
    ensures
      if a > 0 && b < |flags| && b - a >= min then
        LongRun(flags, min, a, b) && StartsLongRun(flags, min, a) && forall k: nat :: a <= k < b ==> Removed(flags, min, k)
      else
        forall k: nat :: a <= k < b ==> !StartsLongRun(flags, min, k) && !Removed(flags, min, k)
  {
    forall c: nat, d: nat | LongRun(flags, min, c, d) && c < b && a < d
      ensures c == a && d == b
    {
      assert c >= a && d <= b;
    }
  }

  /** What the scan has joined so far: the slices, and the stretch that may still be joined to them. */
  ghost predicate Joined(
    pcm: seq<Sample>, hop: nat, flags: seq<bool>, min: nat,
    slices: seq<seq<Sample>>, keepFrame: nat, idx: nat, removedSamples: int, removedRanges: nat)
  {
    && keepFrame <= idx && At(idx, hop) <= |pcm|
    && Flatten(slices) + Span(pcm, hop, keepFrame, idx) == KeptPcm(pcm, hop, flags, min, idx)
    && removedSamples >= 0 && removedSamples + |Flatten(slices)| == At(keepFrame, hop)
    && removedRanges == CountLongRuns(flags, min, idx)
    && (removedRanges == 0 ==> slices == [] && keepFrame == 0)
  }

  lemma JoinNothing(pcm: seq<Sample>, hop: nat, flags: seq<bool>, min: nat)
    ensures Joined(pcm, hop, flags, min, [], 0, 0, 0, 0)
  {
    EmptySpan(pcm, hop, 0);
  }

  lemma SpeechStays(flags: seq<bool>, min: nat, idx: nat)
    requires idx < |flags| && flags[idx] && min >= 1
    ensures !Removed(flags, min, idx) && !StartsLongRun(flags, min, idx)
  {
  }

  lemma JoinEnd(
    pcm: seq<Sample>, hop: nat, flags: seq<bool>, min: nat,
    slices: seq<seq<Sample>>, keepFrame: nat, removedSamples: int, removedRanges: nat)
    requires Joined(pcm, hop, flags, min, slices, keepFrame, |flags|, removedSamples, removedRanges)
    ensures 0 <= At(keepFrame, hop) <= At(|flags|, hop) <= |pcm| && removedRanges == CountLongRuns(flags, min, |flags|)
    ensures removedSamples >= 0 && (removedRanges == 0 ==> slices == [] && keepFrame == 0)
    ensures
      var rest := pcm[At(keepFrame, hop)..];
      && Flatten(slices + [rest]) == Flatten(slices) + rest
      && Flatten(slices) + rest == KeptPcm(pcm, hop, flags, min, |flags|) + pcm[At(|flags|, hop)..]
      && removedSamples + |Flatten(slices) + rest| == |pcm|
  {
    hide At, Flatten, KeptPcm, CountLongRuns;
    AtZero(hop);
    AtMonotone(0, keepFrame, hop);
    AtMonotone(keepFrame, |flags|, hop);
    var rest := pcm[At(keepFrame, hop)..];
    FlattenSnoc(slices, rest);
    assert rest == Span(pcm, hop, keepFrame, |flags|) + pcm[At(|flags|, hop)..];
  }

  lemma JoinKept(
    pcm: seq<Sample>, hop: nat, flags: seq<bool>, min: nat,
    slices: seq<seq<Sample>>, keepFrame: nat, idx: nat, removedSamples: int, removedRanges: nat, next: nat)
    requires Joined(pcm, hop, flags, min, slices, keepFrame, idx, removedSamples, removedRanges)
    requires idx <= next && At(next, hop) <= |pcm|
    requires forall k: nat :: idx <= k < next ==> !Removed(flags, min, k) && !StartsLongRun(flags, min, k)
    ensures Joined(pcm, hop, flags, min, slices, keepFrame, next, removedSamples, removedRanges)
  {
    hide Removed, StartsLongRun, Span, At;
    KeepRange(pcm, hop, flags, min, idx, next);
    SpanAppend(pcm, hop, keepFrame, idx, next);
    var f, x, y := Flatten(slices), Span(pcm, hop, keepFrame, idx), Span(pcm, hop, idx, next);
    assert (f + x) + y == f + (x + y);
  }

  lemma JoinRemoved(
    pcm: seq<Sample>, hop: nat, flags: seq<bool>, min: nat,
    slices: seq<seq<Sample>>, keepFrame: nat, idx: nat, removedSamples: int, removedRanges: nat, next: nat)
    requires Joined(pcm, hop, flags, min, slices, keepFrame, idx, removedSamples, removedRanges)
    requires idx < next && At(next, hop) <= |pcm|
    requires forall k: nat :: idx <= k < next ==> Removed(flags, min, k)
    requires StartsLongRun(flags, min, idx) && forall k: nat :: idx < k < next ==> !StartsLongRun(flags, min, k)
    ensures At(keepFrame, hop) <= At(idx, hop)
    ensures
      var slices' := if At(keepFrame, hop) < At(idx, hop) then slices + [Span(pcm, hop, keepFrame, idx)] else slices;
      Joined(pcm, hop, flags, min, slices', next, next, removedSamples + At(next, hop) - At(idx, hop), removedRanges + 1)
  {
    hide Removed, StartsLongRun;
    AtMonotone(keepFrame, idx, hop);
    AtMonotone(idx, idx + 1, hop);
    AtMonotone(idx + 1, next, hop);
    FlattenSnoc(slices, Span(pcm, hop, keepFrame, idx));
    RemoveRange(pcm, hop, flags, min, idx + 1, next);
    EmptySpan(pcm, hop, next);
    var k := KeptPcm(pcm, hop, flags, min, idx);
    assert k + [] == k;
    assert Flatten(slices) + [] == Flatten(slices);
  }

  /** The scan over the silent runs of a clip with some speech in it. */
  method RemoveLongSilence(pcm: seq<Sample>, hop: nat, flags: seq<bool>, minSilenceFrames: nat)
    returns (r: SilenceRemovalResult)
    requires hop > 0 && minSilenceFrames >= 1 && At(|flags|, hop) <= |pcm|
    ensures r.pcm == KeptPcm(pcm, hop, flags, minSilenceFrames, |flags|) + pcm[At(|flags|, hop)..]
    ensures r.removedRanges == CountLongRuns(flags, minSilenceFrames, |flags|)
    ensures r.removedSamples + |r.pcm| == |pcm|
  {
    hide Joined, Removed, StartsLongRun, LongRun, KeptPcm, At, CountLongRuns, Flatten;
    AtZero(hop);
    var n, min := |flags|, minSilenceFrames;
    var before, after := SpeechAround(flags);
    var slices: seq<seq<Sample>> := [];
    ghost var keepFrame := 0;
    var keepStart, removedSamples, removedRanges := 0, 0, 0;
    var idx := 0;
    JoinNothing(pcm, hop, flags, min);
    while idx < n
      invariant 0 <= idx <= n && keepStart == At(keepFrame, hop)
      invariant idx == 0 || flags[idx - 1] || idx == n || flags[idx]
      invariant Joined(pcm, hop, flags, min, slices, keepFrame, idx, removedSamples, removedRanges)
    {
      if flags[idx] {
        SpeechStays(flags, min, idx);
        AtMonotone(idx + 1, n, hop);
        JoinKept(pcm, hop, flags, min, slices, keepFrame, idx, removedSamples, removedRanges, idx + 1);
        idx := idx + 1;
        continue;
      }
      var runStartFrame := idx;
      while idx < n && !flags[idx]
        invariant runStartFrame <= idx <= n
        invariant forall k :: runStartFrame <= k < idx ==> !flags[k]
      {
        idx := idx + 1;
      }
      var runEndFrame := idx;
      ClassifyRun(flags, min, runStartFrame, runEndFrame);
      Internal(flags, before, after, runStartFrame, runEndFrame);
      AtMonotone(runEndFrame, n, hop);
      var frames := runEndFrame - runStartFrame;
      if frames < minSilenceFrames || !(before[runStartFrame] && after[runEndFrame - 1]) {
        JoinKept(pcm, hop, flags, min, slices, keepFrame, runStartFrame, removedSamples, removedRanges, runEndFrame);
        continue;
      }
      var runStart := At(runStartFrame, hop);
      var runEnd := At(runEndFrame, hop);
      JoinRemoved(pcm, hop, flags, min, slices, keepFrame, runStartFrame, removedSamples, removedRanges, runEndFrame);
      AtMonotone(0, keepFrame, hop);
      AtMonotone(runStartFrame, runEndFrame, hop);
      if keepStart < runStart {
        slices := slices + [pcm[keepStart..runStart]];
      }
      removedSamples := removedSamples + runEnd - runStart;
      removedRanges := removedRanges + 1;
      keepStart, keepFrame := runEnd, runEndFrame;
    }
    JoinEnd(pcm, hop, flags, min, slices, keepFrame, removedSamples, removedRanges);
    if removedRanges == 0 {
      return SilenceRemovalResult(pcm, 0, 0);
    }
    if keepStart < |pcm| {
      slices := slices + [pcm[keepStart..]];
    }
    r := SilenceRemovalResult(Flatten(slices), removedSamples, removedRanges);
  }

  /** trim_long_silence_for_asr. A clip without speech, and a disabled pass, leave the clip alone. */
  method TrimLongSilenceForAsr(
    pcm: seq<Sample>, thresholdSec: real, vadThreshold: real, alpha: real, hop: nat, sampleRate: nat, backend: Backend)
    returns (r: SilenceRemovalResult)
    requires hop > 0 && sampleRate > 0
    ensures
      var flags := Above(Probs(backend, alpha, Chop(pcm, hop)), vadThreshold);
      var min := MinSilenceFrames(thresholdSec, hop, sampleRate);
      if thresholdSec <= 0.0 then r == SilenceRemovalResult(pcm, 0, 0)
      else
        && r.pcm == KeptPcm(pcm, hop, flags, min, |flags|) + pcm[At(|flags|, hop)..]
        && r.removedRanges == CountLongRuns(flags, min, |flags|)
        && r.removedSamples + |r.pcm| == |pcm|
  {
    hide Above, Probs, KeptPcm, CountLongRuns, Chop, At, MinSilenceFrames;
    if thresholdSec <= 0.0 {
      return SilenceRemovalResult(pcm, 0, 0);
    }
    var min := MinSilenceFrames(thresholdSec, hop, sampleRate);
    var used := UsableSamples(|pcm|, hop);
    if |pcm| == 0 || used <= 0 {
      NoWholeFrame(pcm, hop);
      NothingLong(pcm, hop, [], min);
      assert Above(Probs(backend, alpha, Chop(pcm, hop)), vadThreshold) == [];
      return SilenceRemovalResult(pcm, 0, 0);
    }
    var probs := ComputeProbs(backend, alpha, hop, pcm);
    var flags := Above(probs, vadThreshold);
    if !(exists i :: 0 <= i < |flags| && flags[i]) {
      NothingLong(pcm, hop, flags, min);
      return SilenceRemovalResult(pcm, 0, 0);
    }
    r := RemoveLongSilence(pcm, hop, flags, min);
  }

  function MinSilenceFrames(thresholdSec: real, hop: nat, sampleRate: nat): (n: nat)
    requires hop > 0 && sampleRate > 0
    ensures n >= 1
  {
    Max(1, Ceil(thresholdSec * 1000.0 / FrameMs(hop, sampleRate)))
  }

  /** It is the least number of frames, but at least one, that last as long as the threshold. */
  lemma MinSilenceLasts(thresholdSec: real, hop: nat, sampleRate: nat)
    requires hop > 0 && sampleRate > 0
    ensures
      Lasts(MinSilenceFrames(thresholdSec, hop, sampleRate), thresholdSec * 1000.0, FrameMs(hop, sampleRate), 1)
  {
    LeastLasts(thresholdSec * 1000.0, FrameMs(hop, sampleRate), 1);
  }

  lemma NoWholeFrame(pcm: seq<Sample>, hop: nat)
    requires |pcm| < hop
    ensures Chop(pcm, hop) == []
  {
  }

  /** Without speech nothing is removed. */
  lemma NothingLong(pcm: seq<Sample>, hop: nat, flags: seq<bool>, min: nat)
    requires At(|flags|, hop) <= |pcm|
    requires forall i :: 0 <= i < |flags| ==> !flags[i]
    ensures KeptPcm(pcm, hop, flags, min, |flags|) + pcm[At(|flags|, hop)..] == pcm
    ensures CountLongRuns(flags, min, |flags|) == 0
  {
    AtZero(hop);
    AtMonotone(0, |flags|, hop);
    KeepRange(pcm, hop, flags, min, 0, |flags|);
    assert [] + Span(pcm, hop, 0, |flags|) == Span(pcm, hop, 0, |flags|);
  }

  // ----- What the specification implies

  /** The frames among the first n that are kept, in order. */
  ghost function Kept(flags: seq<bool>, min: nat, n: nat): (kept: seq<nat>)
    ensures forall k <- kept :: k < n && !Removed(flags, min, k)
    ensures forall k: nat :: k < n && !Removed(flags, min, k) ==> k in kept
    ensures forall i, j :: 0 <= i < j < |kept| ==> kept[i] < kept[j]
  {
    if n == 0 then []
    else
      var before := Kept(flags, min, n - 1);
      assert forall i :: 0 <= i < |before| ==> before[i] in before && before[i] < n - 1;
      if Removed(flags, min, n - 1) then before else before + [n - 1]
  }

  ghost function KeptFlags(flags: seq<bool>, min: nat): seq<bool> {
    var kept := Kept(flags, min, |flags|);
    seq(|kept|, i requires 0 <= i < |kept| => flags[kept[i]])
  }

  /** A long run among the kept frames would come from a long run of the clip, which is removed. */
  lemma LongRunLifts(flags: seq<bool>, min: nat, a: nat, b: nat)
    requires min >= 1 && LongRun(KeptFlags(flags, min), min, a, b)
    ensures Removed(flags, min, Kept(flags, min, |flags|)[a])
  {
    var kept, left := Kept(flags, min, |flags|), KeptFlags(flags, min);
    var x, y := kept[a - 1], kept[b];
    forall k | x < k < y ensures !flags[k] {
      if !Removed(flags, min, k) {
        var i :| 0 <= i < |kept| && kept[i] == k;
        assert a <= i < b && !left[i];
      }
    }
    Increasing(kept, a - 1, b);
    assert LongRun(flags, min, x + 1, y) && x + 1 <= kept[a] < y;
  }

  /** No long pause between speech remains among the kept frames. */
  lemma NoLongRunRemains(flags: seq<bool>, min: nat, a: nat, b: nat)
    requires min >= 1
    ensures !LongRun(KeptFlags(flags, min), min, a, b)
  {
    hide Removed, Kept;
    if LongRun(KeptFlags(flags, min), min, a, b) {
      assert Kept(flags, min, |flags|)[a] in Kept(flags, min, |flags|);
      LongRunLifts(flags, min, a, b);
    }
  }

  lemma {:induction false} Increasing(s: seq<nat>, i: nat, j: nat)
    requires i <= j < |s| && forall p, q :: 0 <= p < q < |s| ==> s[p] < s[q]
    ensures s[j] - s[i] >= j - i
    decreases j
  {
    if i < j {
      Increasing(s, i, j - 1);
    }
  }
}
