/**
 The admission gate and speech filter in front of the recognizer (backend/audio/vad.py,
 filter_speech_for_asr): a clip with too little speech is rejected, an accepted one keeps the
 frames near its speech.
 */
module SpeechFilter {
  import opened Basics
  import opened Vad
  import opened SilenceRemoval

  datatype GateConfig = GateConfig(
    gateEnabled: bool,
    filterEnabled: bool,
    minRms: real,
    gateThreshold: real,
    filterThreshold: real,
    minMs: int,
    minRatio: real,
    preMs: int,
    tailMs: int,
    alpha: real)

  datatype Reason =
    | Disabled | Empty | GateDisabled | LowRms | TooShort | TooFewVoiceFrames | LowVoiceRatio | Accepted

  datatype Evidence = Evidence(accepted: bool, reason: Reason, speechFrames: nat, totalFrames: nat)

  datatype SpeechFilterResult = SpeechFilterResult(
    pcm: seq<Sample>, evidence: Evidence, inputSamples: nat, keptSamples: nat, keptRanges: nat)

  function CountTrue(flags: seq<bool>): (n: nat)
    ensures n <= |flags|
    ensures n > 0 <==> exists i :: 0 <= i < |flags| && flags[i]
  {
    if flags == [] then 0
    else
      var last := |flags| - 1;
      assert forall i :: 0 <= i < last ==> flags[..last][i] == flags[i];
      CountTrue(flags[..last]) + if flags[last] then 1 else 0
  }

  // ----- The specification: the dilation of the speech frames

  /** Frame j is near speech: some speech frame i has i - pre <= j <= i + tail. */
  predicate Near(flags: seq<bool>, pre: nat, tail: nat, j: nat) {
    exists i :: 0 <= i < |flags| && flags[i] && i - pre <= j <= i + tail
  }

  ghost predicate IsDilation(keep: seq<bool>, flags: seq<bool>, pre: nat, tail: nat) {
    |keep| == |flags| && forall j :: 0 <= j < |flags| ==> (keep[j] <==> Near(flags, pre, tail, j))
  }

  function Dilation(flags: seq<bool>, pre: nat, tail: nat): (keep: seq<bool>)
    ensures IsDilation(keep, flags, pre, tail)
  {
    seq(|flags|, j requires 0 <= j < |flags| => Near(flags, pre, tail, j))
  }

  /** The number of maximal runs of marked frames among the first n. */
  function Runs(marks: seq<bool>, n: nat): nat
    requires n <= |marks|
  {
    if n == 0 then 0
    else Runs(marks, n - 1) + if marks[n - 1] && (n == 1 || !marks[n - 2]) then 1 else 0
  }

  /** The samples of the marked frames among the first n. */
  function MarkedPcm(pcm: seq<Sample>, hop: nat, marks: seq<bool>, n: nat): seq<Sample>
    requires n <= |marks| && At(n, hop) <= |pcm|
  {
    if n == 0 then []
    else
      AtMonotone(n - 1, n, hop);
      MarkedPcm(pcm, hop, marks, n - 1) + if marks[n - 1] then Span(pcm, hop, n - 1, n) else []
  }

  /** With the residue behind the last frame, if that frame is marked. */
  function MarkedClip(pcm: seq<Sample>, hop: nat, marks: seq<bool>): seq<Sample>
    requires At(|marks|, hop) <= |pcm|
  {
    AtMonotone(0, |marks|, hop);
    MarkedPcm(pcm, hop, marks, |marks|)
    + if marks != [] && marks[|marks| - 1] then pcm[At(|marks|, hop)..] else []
  }

  // ----- The two loops

  /** The keep flags: a stretch around every speech frame is set. */
  method Dilate(flags: seq<bool>, pre: nat, tail: nat) returns (keep: array<bool>)
    ensures fresh(keep) && keep[..] == Dilation(flags, pre, tail)
  {
    var n := |flags|;
    keep := new bool[n](_ => false);
    var idx := 0;
    while idx < n
      invariant 0 <= idx <= n
      invariant forall j :: 0 <= j < n ==>
        (keep[j] <==> exists i :: 0 <= i < idx && flags[i] && i - pre <= j <= i + tail)
    {
      if flags[idx] {
        var start := Max(0, idx - pre);
        var end := Min(n, idx + tail + 1);
        forall j | start <= j < end {
          keep[j] := true;
        }
      }
      idx := idx + 1;
    }
  }

  /** Frames a up to b are all marked, and so form one run if none is marked before. */
  lemma {:induction false} MarkedRange(pcm: seq<Sample>, hop: nat, marks: seq<bool>, a: nat, b: nat)
    requires a < b <= |marks| && At(b, hop) <= |pcm|
    requires (forall k :: a <= k < b ==> marks[k]) && (a == 0 || !marks[a - 1])
    ensures At(a, hop) <= |pcm|
    ensures MarkedPcm(pcm, hop, marks, b) == MarkedPcm(pcm, hop, marks, a) + Span(pcm, hop, a, b)
    ensures Runs(marks, b) == Runs(marks, a) + 1
    decreases b
  {
    hide At, Span;
    AtMonotone(a, b, hop);
    AtMonotone(b - 1, b, hop);
    if a + 1 < b {
      MarkedRange(pcm, hop, marks, a, b - 1);
      SpanAppend(pcm, hop, a, b - 1, b);
      var k, x, y := MarkedPcm(pcm, hop, marks, a), Span(pcm, hop, a, b - 1), Span(pcm, hop, b - 1, b);
      assert (k + x) + y == k + (x + y);
    }
  }

  /** The loop over the kept runs. */
  method KeepRuns(pcm: seq<Sample>, hop: nat, keep: seq<bool>) returns (filtered: seq<Sample>, keptRanges: nat)
    requires hop > 0 && At(|keep|, hop) <= |pcm|
    ensures filtered == MarkedClip(pcm, hop, keep) && keptRanges == Runs(keep, |keep|)
  {
    hide At, Runs, Flatten, MarkedPcm, MarkedClip;
    var n := |keep|;
    var slices: seq<seq<Sample>> := [];
    keptRanges := 0;
    var idx := 0;
    AtZero(hop);
    AtMonotone(0, n, hop);
    NoMarks(pcm, hop, keep);
    while idx < n
      invariant 0 <= idx <= n && At(idx, hop) <= |pcm|
      invariant idx == 0 || idx == n || !keep[idx - 1] || !keep[idx]
      invariant keptRanges == Runs(keep, idx)
      invariant Flatten(slices) == if idx == n then MarkedClip(pcm, hop, keep) else MarkedPcm(pcm, hop, keep, idx)
    {
      AtMonotone(idx + 1, n, hop);
      if !keep[idx] {
        UnmarkedFrame(pcm, hop, keep, idx);
        idx := idx + 1;
        continue;
      }
      var rangeStart := idx;
      while idx < n && keep[idx]
        invariant rangeStart <= idx <= n
        invariant forall k :: rangeStart <= k < idx ==> keep[k]
      {
        idx := idx + 1;
      }
      var rangeEnd := idx;
      RangeJoined(pcm, hop, keep, rangeStart, rangeEnd, Flatten(slices));
      var sampleStart := At(rangeStart, hop);
      var sampleEnd := if rangeEnd == n then |pcm| else At(rangeEnd, hop);
      FlattenSnoc(slices, pcm[sampleStart..sampleEnd]);
      slices := slices + [pcm[sampleStart..sampleEnd]];
      keptRanges := keptRanges + 1;
    }
    filtered := Flatten(slices);
  }

  /** A marked range joins the output; the last one takes the residue with it. */
  lemma RangeJoined(pcm: seq<Sample>, hop: nat, marks: seq<bool>, a: nat, b: nat, before: seq<Sample>)
    requires a < b <= |marks| && At(|marks|, hop) <= |pcm|
    requires (forall k :: a <= k < b ==> marks[k]) && (a == 0 || !marks[a - 1])
    requires At(a, hop) <= |pcm| && before == MarkedPcm(pcm, hop, marks, a)
    ensures 0 <= At(a, hop) <= At(b, hop) <= |pcm|
    ensures Runs(marks, b) == Runs(marks, a) + 1
    ensures b < |marks| ==> before + pcm[At(a, hop)..At(b, hop)] == MarkedPcm(pcm, hop, marks, b)
    ensures b == |marks| ==> before + pcm[At(a, hop)..|pcm|] == MarkedClip(pcm, hop, marks)
  {
    hide At, Runs, MarkedPcm, Span;
    AtZero(hop);
    AtMonotone(b, |marks|, hop);
    AtMonotone(a, b, hop);
    AtMonotone(0, a, hop);
    MarkedRange(pcm, hop, marks, a, b);
    SpanRest(pcm, hop, a, b, before);
  }

  lemma SpanRest(pcm: seq<Sample>, hop: nat, a: nat, b: nat, before: seq<Sample>)
    requires a <= b && 0 <= At(a, hop) <= At(b, hop) <= |pcm|
    ensures Span(pcm, hop, a, b) == pcm[At(a, hop)..At(b, hop)]
    ensures (before + Span(pcm, hop, a, b)) + pcm[At(b, hop)..] == before + pcm[At(a, hop)..|pcm|]
  {
    hide At;
    assert Span(pcm, hop, a, b) + pcm[At(b, hop)..] == pcm[At(a, hop)..|pcm|];
  }

  lemma NoMarks(pcm: seq<Sample>, hop: nat, marks: seq<bool>)
    requires 0 <= At(0, hop) && At(0, hop) <= |pcm| && At(|marks|, hop) <= |pcm|
    ensures Flatten<Sample>([]) == if marks == [] then MarkedClip(pcm, hop, marks) else MarkedPcm(pcm, hop, marks, 0)
    ensures Runs(marks, 0) == 0
  {
  }

  lemma UnmarkedFrame(pcm: seq<Sample>, hop: nat, marks: seq<bool>, idx: nat)
    requires idx < |marks| && !marks[idx] && At(|marks|, hop) <= |pcm| && At(idx, hop) <= |pcm|
    requires At(idx + 1, hop) <= |pcm|
    ensures Runs(marks, idx + 1) == Runs(marks, idx)
    ensures MarkedPcm(pcm, hop, marks, idx + 1) == MarkedPcm(pcm, hop, marks, idx)
    ensures idx + 1 == |marks| ==> MarkedClip(pcm, hop, marks) == MarkedPcm(pcm, hop, marks, idx)
  {
    var m := MarkedPcm(pcm, hop, marks, idx);
    assert m + [] == m;
  }

  // ----- Every kept run is there because of a run of speech

  /** Frames a up to m are kept but silent, and frame a opens the kept run. */
  ghost predicate SilentSince(keep: seq<bool>, flags: seq<bool>, a: nat, m: nat)
    requires m <= |keep| == |flags|
  {
    a < m && (a == 0 || !keep[a - 1]) && forall k :: a <= k < m ==> keep[k] && !flags[k]
  }

  /** The kept run that ends at m has shown no speech yet. */
  ghost predicate Pending(keep: seq<bool>, flags: seq<bool>, m: nat)
    requires m <= |keep| == |flags|
  {
    exists a: nat :: SilentSince(keep, flags, a, m)
  }

  lemma PendingGoesOn(keep: seq<bool>, flags: seq<bool>, pre: nat, tail: nat, m: nat)
    requires IsDilation(keep, flags, pre, tail) && m <= |flags| && Pending(keep, flags, m)
    ensures m < |flags| && keep[m]
  {
    var a: nat :| SilentSince(keep, flags, a, m);
    assert Near(flags, pre, tail, m - 1);
    var i :| 0 <= i < |flags| && flags[i] && i - pre <= m - 1 <= i + tail;
    TailReachesBack(keep, flags, pre, tail, i, a, m);
    assert m < |flags| && Near(flags, pre, tail, m);
  }

  /** Speech at i that keeps frame m - 1 keeps every frame from i on up to there. */
  lemma TailReachesBack(keep: seq<bool>, flags: seq<bool>, pre: nat, tail: nat, i: nat, a: nat, m: nat)
    requires IsDilation(keep, flags, pre, tail) && a < m <= |flags| && i < |flags| && flags[i] && m - 1 <= i + tail
    ensures i < a ==> keep[a - 1]
  {
    if i < a {
      assert Near(flags, pre, tail, a - 1);
    }
  }

  lemma {:induction false} RunsUpTo(keep: seq<bool>, flags: seq<bool>, pre: nat, tail: nat, m: nat)
    requires IsDilation(keep, flags, pre, tail) && m <= |flags|
    ensures Runs(keep, m) <= Runs(flags, m) + if Pending(keep, flags, m) then 1 else 0
    decreases m
  {
    if m > 0 {
      var p := m - 1;
      RunsUpTo(keep, flags, pre, tail, p);
      if Pending(keep, flags, p) {
        PendingGoesOn(keep, flags, pre, tail, p);
      }
      if flags[p] {
        assert Near(flags, pre, tail, p);
        SpeechSettles(keep, flags, pre, tail, p);
      } else if keep[p] {
        SilenceKept(keep, flags, p);
      }
    }
  }

  /** A speech frame that follows a pending run, or opens a kept run, opens a run of speech. */
  lemma SpeechSettles(keep: seq<bool>, flags: seq<bool>, pre: nat, tail: nat, p: nat)
    requires IsDilation(keep, flags, pre, tail) && p < |flags| && flags[p] && keep[p]
    ensures (Pending(keep, flags, p) || p == 0 || !keep[p - 1]) ==> p == 0 || !flags[p - 1]
    ensures Pending(keep, flags, p) ==> p > 0 && keep[p - 1]
  {
    if p > 0 && flags[p - 1] {
      assert Near(flags, pre, tail, p - 1);
    }
  }

  lemma SilenceKept(keep: seq<bool>, flags: seq<bool>, p: nat)
    requires p < |keep| == |flags| && keep[p] && !flags[p]
    ensures Pending(keep, flags, p) || p == 0 || !keep[p - 1] ==> Pending(keep, flags, p + 1)
    ensures Pending(keep, flags, p) ==> p > 0 && keep[p - 1]
  {
    if Pending(keep, flags, p) {
      var a: nat :| SilentSince(keep, flags, a, p);
      assert SilentSince(keep, flags, a, p + 1);
    } else if p == 0 || !keep[p - 1] {
      assert SilentSince(keep, flags, p, p + 1);
    }
  }

  /** There are no more kept runs than runs of speech. */
  lemma KeptRunsBounded(keep: seq<bool>, flags: seq<bool>, pre: nat, tail: nat)
    requires IsDilation(keep, flags, pre, tail)
    ensures Runs(keep, |keep|) <= Runs(flags, |flags|)
  {
    RunsUpTo(keep, flags, pre, tail, |flags|);
    if Pending(keep, flags, |flags|) {
      PendingGoesOn(keep, flags, pre, tail, |flags|);
    }
  }

  // ----- The whole pass

  /** Whether the clip goes to the recognizer; `probs` are its frame probabilities. */
  predicate Admitted(cfg: GateConfig, hop: nat, pcm: seq<Sample>, rms: real, probs: seq<real>)
    requires hop > 0
  {
    cfg.gateEnabled ==>
      && pcm != [] && rms >= cfg.minRms && probs != []
      && var speech := CountTrue(Above(probs, cfg.gateThreshold));
         speech >= MinVoiceFrames(cfg, hop) && speech as real / |probs| as real >= cfg.minRatio
  }

  function MinVoiceFrames(cfg: GateConfig, hop: nat): nat
    requires hop > 0
  {
    FramesFor(cfg.minMs, FrameMs(hop, SAMPLE_RATE), 1)
  }

  /** Whether frames are looked at at all. */
  predicate Judged(cfg: GateConfig, pcm: seq<Sample>, rms: real) {
    (cfg.gateEnabled || cfg.filterEnabled) && pcm != [] && rms >= cfg.minRms
  }

  /** The first thing that speaks against an enabled gate's clip. */
  function Verdict(cfg: GateConfig, hop: nat, pcm: seq<Sample>, rms: real, probs: seq<real>): Reason
    requires hop > 0
  {
    if !cfg.gateEnabled then (if cfg.filterEnabled then GateDisabled else Disabled)
    else if pcm == [] then Empty
    else if rms < cfg.minRms then LowRms
    else if probs == [] then TooShort
    else
      var speech := CountTrue(Above(probs, cfg.gateThreshold));
      if speech < MinVoiceFrames(cfg, hop) then TooFewVoiceFrames
      else if speech as real / |probs| as real < cfg.minRatio then LowVoiceRatio
      else Accepted
  }

  /** Whether an admitted clip is filtered rather than passed on whole. */
  predicate Filters(cfg: GateConfig, pcm: seq<Sample>, rms: real, probs: seq<real>) {
    cfg.filterEnabled && pcm != [] && rms >= cfg.minRms && CountTrue(Above(probs, cfg.filterThreshold)) > 0
  }

  function KeepFlags(cfg: GateConfig, hop: nat, probs: seq<real>): (keep: seq<bool>)
    requires hop > 0
    ensures |keep| == |probs|
  {
    Dilation(Above(probs, cfg.filterThreshold),
             FramesFor(cfg.preMs, FrameMs(hop, SAMPLE_RATE), 0), FramesFor(cfg.tailMs, FrameMs(hop, SAMPLE_RATE), 0))
  }

  /**
   A frame of an admitted clip is kept if and only if some frame of speech comes at most the pre length after
   it, or at most the tail length before it.
   */
  lemma KeepsAround(cfg: GateConfig, hop: nat, probs: seq<real>) returns (pre: nat, tail: nat)
    requires hop > 0
    ensures Lasts(pre, cfg.preMs as real, FrameMs(hop, SAMPLE_RATE), 0)
    ensures Lasts(tail, cfg.tailMs as real, FrameMs(hop, SAMPLE_RATE), 0)
    ensures forall j :: 0 <= j < |probs| ==>
      (KeepFlags(cfg, hop, probs)[j]
       <==> exists i ::
              0 <= i < |probs| && probs[i] > cfg.filterThreshold && (if i > j then i - j <= pre else j - i <= tail))
  {
    pre, tail := FramesFor(cfg.preMs, FrameMs(hop, SAMPLE_RATE), 0), FramesFor(cfg.tailMs, FrameMs(hop, SAMPLE_RATE), 0);
    hide FramesFor, FrameMs;
    var flags := Above(probs, cfg.filterThreshold);
    forall j | 0 <= j < |probs|
      ensures KeepFlags(cfg, hop, probs)[j]
         <==> exists i ::
                0 <= i < |probs| && probs[i] > cfg.filterThreshold && (if i > j then i - j <= pre else j - i <= tail)
    {
      assert KeepFlags(cfg, hop, probs)[j] <==> Near(flags, pre, tail, j);
      if Near(flags, pre, tail, j) {
        var i :| 0 <= i < |flags| && flags[i] && i - pre <= j <= i + tail;
        assert probs[i] > cfg.filterThreshold;
      }
      if i :| 0 <= i < |probs| && probs[i] > cfg.filterThreshold && (if i > j then i - j <= pre else j - i <= tail) {
        assert flags[i] && i - pre <= j <= i + tail;
      }
    }
  }

  /**
   filter_speech_for_asr. A rejected clip yields nothing; an admitted one comes back whole, or as
   the maximal runs of frames near its speech, in order, with the residue behind the last hop
   exactly when the last frame is kept.
   */
  method FilterSpeechForAsr(pcm: seq<Sample>, cfg: GateConfig, hop: nat, backend: Backend, rms: real)
    returns (r: SpeechFilterResult)
    requires hop > 0
    ensures
      var probs := Probs(backend, cfg.alpha, Chop(pcm, hop));
      var keep := KeepFlags(cfg, hop, probs);
      && r.inputSamples == |pcm| && r.keptSamples == |r.pcm|
      && r.evidence.accepted == Admitted(cfg, hop, pcm, rms, probs)
      && r.evidence.reason == Verdict(cfg, hop, pcm, rms, probs)
      && r.evidence.totalFrames == (if Judged(cfg, pcm, rms) then |probs| else 0)
      && r.evidence.speechFrames
         == (if !Judged(cfg, pcm, rms) then 0
             else CountTrue(Above(probs, if cfg.gateEnabled then cfg.gateThreshold else cfg.filterThreshold)))
      && if !r.evidence.accepted then r.pcm == [] && r.keptRanges == 0
         else if Filters(cfg, pcm, rms, probs) then
           && r.pcm == MarkedClip(pcm, hop, keep)
           && r.keptRanges == Runs(keep, |keep|) <= Runs(Above(probs, cfg.filterThreshold), |probs|)
         else r.pcm == pcm && r.keptRanges == if pcm == [] then 0 else 1
  {
    hide Near, Probs, MarkedClip, Runs, At, Smooth, FramesFor;
    var gate := cfg.gateEnabled;
    if !gate && !cfg.filterEnabled {
      return SpeechFilterResult(pcm, Evidence(true, Disabled, 0, 0), |pcm|, |pcm|, if |pcm| > 0 then 1 else 0);
    }
    if |pcm| == 0 {
      return SpeechFilterResult(pcm, Evidence(!gate, if gate then Empty else GateDisabled, 0, 0), |pcm|, 0, 0);
    }
    if rms < cfg.minRms {
      r := Bypass(pcm, gate, LowRms);
      return;
    }
    var used := UsableSamples(|pcm|, hop);
    if used <= 0 {
      NoWholeFrame(pcm, hop);
      assert Probs(backend, cfg.alpha, Chop(pcm, hop)) == [];
      r := Bypass(pcm, gate, TooShort);
      return;
    }
    var probs := ComputeProbs(backend, cfg.alpha, hop, pcm);
    var total := |probs|;
    SomeFrame(pcm, hop);
    var gateFlags := Above(probs, cfg.gateThreshold);
    var filterFlags := Above(probs, cfg.filterThreshold);
    var speechFrames := CountTrue(if gate then gateFlags else filterFlags);
    var reason :=
      if !gate then GateDisabled
      else if speechFrames < MinVoiceFrames(cfg, hop) then TooFewVoiceFrames
      else if speechFrames as real / total as real < cfg.minRatio then LowVoiceRatio
      else Accepted;
    var accepted := reason in {GateDisabled, Accepted};
    var evidence := Evidence(accepted, reason, speechFrames, total);
    if !accepted {
      return SpeechFilterResult([], evidence, |pcm|, 0, 0);
    }
    if !cfg.filterEnabled || !(exists i :: 0 <= i < total && filterFlags[i]) {
      return SpeechFilterResult(pcm, evidence, |pcm|, |pcm|, 1);
    }
    var pre := FramesFor(cfg.preMs, FrameMs(hop, SAMPLE_RATE), 0);
    var tail := FramesFor(cfg.tailMs, FrameMs(hop, SAMPLE_RATE), 0);
    var keep := Dilate(filterFlags, pre, tail);
    KeptRunsBounded(keep[..], filterFlags, pre, tail);
    var filtered, ranges := KeepRuns(pcm, hop, keep[..]);
    r := SpeechFilterResult(filtered, evidence, |pcm|, |filtered|, ranges);
  }

  /** A clip that cannot be judged passes whole if the gate is off and is rejected otherwise. */
  method Bypass(pcm: seq<Sample>, gate: bool, reason: Reason) returns (r: SpeechFilterResult)
    requires pcm != []
    ensures r.evidence.accepted == !gate && r.evidence.reason == (if gate then reason else GateDisabled)
    ensures r.pcm == (if gate then [] else pcm) && r.inputSamples == |pcm| && r.keptSamples == |r.pcm|
    ensures r.keptRanges == (if gate then 0 else 1) && r.evidence.speechFrames == r.evidence.totalFrames == 0
  {
    if !gate {
      return SpeechFilterResult(pcm, Evidence(true, GateDisabled, 0, 0), |pcm|, |pcm|, 1);
    }
    r := SpeechFilterResult([], Evidence(false, reason, 0, 0), |pcm|, 0, 0);
  }

  /** A clip is admitted exactly when nothing speaks against it. */
  lemma AdmittedByVerdict(cfg: GateConfig, hop: nat, pcm: seq<Sample>, rms: real, probs: seq<real>)
    requires hop > 0
    ensures Admitted(cfg, hop, pcm, rms, probs)
       <==> Verdict(cfg, hop, pcm, rms, probs) in {Disabled, GateDisabled, Accepted}
  {
  }

  lemma SomeFrame(pcm: seq<Sample>, hop: nat)
    requires hop > 0 && |pcm| >= hop
    ensures Chop(pcm, hop) != []
  {
  }
}
