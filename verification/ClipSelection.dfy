/**
 The two frame-level passes told sample by sample (backend/audio/vad.py, filter_speech_for_asr and
 trim_long_silence_for_asr): which samples of a clip come back, and which clips do.
 */
module ClipSelection {
  import opened Basics
  import opened Vad
  import opened SilenceRemoval
  import opened SpeechFilter

  /** The chosen samples of a clip, in order. */
  function Selected(pcm: seq<Sample>, keep: seq<bool>): seq<Sample>
    requires |keep| == |pcm|
  {
    if pcm == [] then []
    else
      var last := |pcm| - 1;
      Selected(pcm[..last], keep[..last]) + if keep[last] then [pcm[last]] else []
  }

  lemma {:induction false} SelectedAppend(x: seq<Sample>, y: seq<Sample>, k: seq<bool>, l: seq<bool>)
    requires |k| == |x| && |l| == |y|
    ensures Selected(x + y, k + l) == Selected(x, k) + Selected(y, l)
    decreases |y|
  {
    if y == [] {
      assert x + y == x && k + l == k;
    } else {
      var last := |y| - 1;
      assert (x + y)[..|x| + last] == x + y[..last] && (k + l)[..|x| + last] == k + l[..last];
      SelectedAppend(x, y[..last], k, l[..last]);
    }
  }

  lemma {:induction false} SelectedSame(pcm: seq<Sample>, keep: seq<bool>, b: bool)
    requires |keep| == |pcm| && forall i :: 0 <= i < |keep| ==> keep[i] == b
    ensures Selected(pcm, keep) == if b then pcm else []
  {
    if pcm != [] {
      var last := |pcm| - 1;
      SelectedSame(pcm[..last], keep[..last], b);
      assert pcm == pcm[..last] + [pcm[last]];
    }
  }

  /** Sample x lies in frame x / hop. */
  lemma FrameOf(x: nat, hop: nat, n: nat)
    requires hop > 0 && At(n, hop) <= x < At(n + 1, hop)
    ensures x / hop == n
  {
    var q := x / hop;
    assert At(q, hop) <= x < At(q + 1, hop) by {
      NextFrame(q, hop);
    }
    if q < n {
      AtMonotone(q + 1, n, hop);
    } else if q > n {
      AtMonotone(n + 1, q, hop);
    }
  }

  lemma BeforeFrame(x: nat, hop: nat, n: nat)
    requires hop > 0
    ensures x < At(n, hop) <==> x / hop < n
  {
    var q := x / hop;
    assert At(q, hop) <= x < At(q + 1, hop) by {
      NextFrame(q, hop);
    }
    if q < n {
      AtMonotone(q + 1, n, hop);
    } else {
      AtMonotone(n, q, hop);
    }
  }

  /** One flag per sample for the first n frames of a clip. */
  ghost predicate ByFrame(keep: seq<bool>, hop: nat, marks: seq<bool>)
    requires hop > 0
  {
    forall x :: 0 <= x < |keep| && x / hop < |marks| ==> keep[x] == marks[x / hop]
  }

  lemma {:induction false} MarkedIsSelected(pcm: seq<Sample>, hop: nat, marks: seq<bool>, keep: seq<bool>, n: nat)
    requires hop > 0 && n <= |marks| && |keep| == |pcm| && At(n, hop) <= |pcm| && ByFrame(keep, hop, marks)
    ensures 0 <= At(n, hop) && MarkedPcm(pcm, hop, marks, n) == Selected(pcm[..At(n, hop)], keep[..At(n, hop)])
    decreases n
  {
    AtZero(hop);
    AtMonotone(0, n, hop);
    if n > 0 {
      AtMonotone(n - 1, n, hop);
      AtMonotone(0, n - 1, hop);
      MarkedIsSelected(pcm, hop, marks, keep, n - 1);
      FrameIsSelected(pcm, hop, marks, keep, n - 1);
      hide At, ByFrame, Selected, Span;
      var a, b := At(n - 1, hop), At(n, hop);
      SelectedSplit(pcm[..b], keep[..b], a);
      assert pcm[..b][..a] == pcm[..a] && keep[..b][..a] == keep[..a];
      assert pcm[..b][a..] == pcm[a..b] && keep[..b][a..] == keep[a..b];
    }
  }

  lemma FrameIsSelected(pcm: seq<Sample>, hop: nat, marks: seq<bool>, keep: seq<bool>, n: nat)
    requires hop > 0 && n < |marks| && |keep| == |pcm| && 0 <= At(n, hop) <= At(n + 1, hop) <= |pcm|
    requires ByFrame(keep, hop, marks)
    ensures
      Selected(pcm[At(n, hop)..At(n + 1, hop)], keep[At(n, hop)..At(n + 1, hop)])
      == if marks[n] then Span(pcm, hop, n, n + 1) else []
  {
    var a, b := At(n, hop), At(n + 1, hop);
    forall i | 0 <= i < b - a ensures keep[a..b][i] == marks[n] {
      FrameOf(a + i, hop, n);
    }
    SelectedSame(pcm[a..b], keep[a..b], marks[n]);
  }

  lemma BehindFrames(hop: nat, n: nat)
    requires hop > 0
    ensures forall x: nat :: x >= At(n, hop) ==> x / hop >= n
  {
    forall x: nat | x >= At(n, hop) ensures x / hop >= n {
      BeforeFrame(x, hop, n);
    }
  }

  lemma SelectedSplit(pcm: seq<Sample>, keep: seq<bool>, a: nat)
    requires |keep| == |pcm| && a <= |pcm|
    ensures Selected(pcm, keep) == Selected(pcm[..a], keep[..a]) + Selected(pcm[a..], keep[a..])
  {
    hide Selected;
    SelectedAppend(pcm[..a], pcm[a..], keep[..a], keep[a..]);
    assert pcm == pcm[..a] + pcm[a..];
    assert keep == keep[..a] + keep[a..];
  }

  /** No run reaches behind the last whole frame. */
  lemma RestIsKept(hop: nat, flags: seq<bool>, min: nat, keep: seq<bool>, a: nat)
    requires hop > 0 && a <= |keep| && forall x: nat :: x >= a ==> x / hop >= |flags|
    requires forall x :: 0 <= x < |keep| ==>
      (keep[x] <==> !exists a: nat, b: nat :: LongRun(flags, min, a, b) && a <= x / hop < b)
    ensures forall i :: 0 <= i < |keep| - a ==> keep[a..][i]
  {
    forall x | a <= x < |keep| ensures keep[x] {
      assert forall a: nat, b: nat :: LongRun(flags, min, a, b) ==> b < |flags| <= x / hop;
    }
  }

  /**
   The speech filter keeps exactly the samples of the marked frames, and what lies behind the last whole
   frame together with that frame.
   */
  lemma FilterSelects(pcm: seq<Sample>, hop: nat, marks: seq<bool>, keep: seq<bool>)
    requires hop > 0 && |keep| == |pcm| && At(|marks|, hop) <= |pcm|
    requires marks != [] && forall x :: 0 <= x < |keep| ==> keep[x] == marks[Min(x / hop, |marks| - 1)]
    ensures MarkedClip(pcm, hop, marks) == Selected(pcm, keep)
  {
    var n := |marks|;
    MarkedIsSelected(pcm, hop, marks, keep, n);
    AtMonotone(0, n, hop);
    hide At, Selected;
    var a := At(n, hop);
    BehindFrames(hop, n);
    SelectedSame(pcm[a..], keep[a..], marks[n - 1]);
    SelectedSplit(pcm, keep, a);
  }

  lemma {:induction false} KeptIsMarked(pcm: seq<Sample>, hop: nat, flags: seq<bool>, min: nat, marks: seq<bool>, n: nat)
    requires n <= |marks| && At(n, hop) <= |pcm|
    requires forall j: nat :: j < |marks| ==> (marks[j] <==> !Removed(flags, min, j))
    ensures KeptPcm(pcm, hop, flags, min, n) == MarkedPcm(pcm, hop, marks, n)
    decreases n
  {
    hide Removed, Span, At;
    if n > 0 {
      AtMonotone(n - 1, n, hop);
      KeptIsMarked(pcm, hop, flags, min, marks, n - 1);
    }
  }

  /** Silence removal keeps exactly the samples that lie in no removed run, and what lies behind the last whole frame. */
  lemma RemovalSelects(pcm: seq<Sample>, hop: nat, flags: seq<bool>, min: nat, keep: seq<bool>)
    requires hop > 0 && |keep| == |pcm| && At(|flags|, hop) <= |pcm|
    requires forall x :: 0 <= x < |keep| ==>
      (keep[x] <==> !exists a: nat, b: nat :: LongRun(flags, min, a, b) && a <= x / hop < b)
    ensures 0 <= At(|flags|, hop) && KeptPcm(pcm, hop, flags, min, |flags|) + pcm[At(|flags|, hop)..] == Selected(pcm, keep)
  {
    var n := |flags|;
    var marks := seq(n, j requires 0 <= j < n => !Removed(flags, min, j));
    AtMonotone(0, n, hop);
    assert ByFrame(keep, hop, marks);
    KeptIsMarked(pcm, hop, flags, min, marks, n);
    MarkedIsSelected(pcm, hop, marks, keep, n);
    var a := At(n, hop);
    BehindFrames(hop, n);
    RestIsKept(hop, flags, min, keep, a);
    hide At, KeptPcm, MarkedPcm, Removed, Selected, LongRun;
    SelectedSame(pcm[a..], keep[a..], true);
    SelectedSplit(pcm, keep, a);
  }

  // ----- How many runs

  /** A run of marked frames begins at a. */
  predicate Begins(marks: seq<bool>, a: nat) { a < |marks| && marks[a] && (a > 0 ==> !marks[a - 1]) }

  /** The kept ranges that are reported are the places where a run of marked frames begins. */
  lemma {:induction false} RunsAreStarts(marks: seq<bool>, n: nat)
    requires n <= |marks|
    ensures Runs(marks, n) == |set a: nat | a < n && Begins(marks, a)|
  {
    hide Begins;
    if n > 0 {
      RunsAreStarts(marks, n - 1);
      LastBegins(marks, n - 1);
      var x := set a: nat | a < n && Begins(marks, a);
      var y := set a: nat | a < n - 1 && Begins(marks, a);
      assert x == if Begins(marks, n - 1) then y + {n - 1} else y;
    } else {
      assert (set a: nat | a < 0 && Begins(marks, a)) == {};
    }
  }

  lemma LastBegins(marks: seq<bool>, n: nat)
    requires n < |marks|
    ensures Runs(marks, n + 1) == Runs(marks, n) + if Begins(marks, n) then 1 else 0
  {
  }

  /** The removed ranges that are reported are the places where a removed run begins. */
  lemma {:induction false} LongRunsAreStarts(flags: seq<bool>, min: nat, n: nat)
    ensures CountLongRuns(flags, min, n) == |set a: nat | a < n && StartsLongRun(flags, min, a)|
  {
    hide StartsLongRun;
    if n > 0 {
      LongRunsAreStarts(flags, min, n - 1);
      var x := set a: nat | a < n && StartsLongRun(flags, min, a);
      var y := set a: nat | a < n - 1 && StartsLongRun(flags, min, a);
      assert x == if StartsLongRun(flags, min, n - 1) then y + {n - 1} else y;
    } else {
      assert (set a: nat | a < 0 && StartsLongRun(flags, min, a)) == {};
    }
  }

  // ----- Which clips are admitted

  function Marked(flags: seq<bool>): set<nat> { set i: nat | i < |flags| && flags[i] }

  lemma {:induction false} CountIsSize(flags: seq<bool>)
    ensures CountTrue(flags) == |Marked(flags)|
  {
    if flags != [] {
      var last := |flags| - 1;
      var init := flags[..last];
      CountIsSize(init);
      MarkedSnoc(init, flags[last]);
      assert flags == init + [flags[last]];
    }
  }

  lemma MarkedSnoc(flags: seq<bool>, b: bool)
    ensures |Marked(flags + [b])| == |Marked(flags)| + if b then 1 else 0
  {
    assert Marked(flags + [b]) == if b then Marked(flags) + {|flags|} else Marked(flags);
  }

  /**
   An enabled gate admits a clip exactly if it is loud enough and has whole frames, and the frames above the
   threshold, at least one, last the least time and make up the least share of the clip.
   */
  lemma AdmitsExactly(cfg: GateConfig, hop: nat, pcm: seq<Sample>, rms: real, probs: seq<real>, frames: nat)
    requires hop > 0 && cfg.gateEnabled
    requires Lasts(frames, cfg.minMs as real, FrameMs(hop, SAMPLE_RATE), 1)
    ensures
      var voiced := |set i: nat | i < |probs| && probs[i] > cfg.gateThreshold|;
      Admitted(cfg, hop, pcm, rms, probs)
      <==> pcm != [] && rms >= cfg.minRms && probs != [] && voiced >= frames
           && voiced as real / |probs| as real >= cfg.minRatio
  {
    var flags := Above(probs, cfg.gateThreshold);
    CountIsSize(flags);
    assert Marked(flags) == set i: nat | i < |probs| && probs[i] > cfg.gateThreshold;
    hide FramesFor, Lasts, CountTrue;
    LeastIsUnique(frames, MinVoiceFrames(cfg, hop), cfg.minMs as real, FrameMs(hop, SAMPLE_RATE), 1);
  }

  /** The reason reported for an enabled gate is the first of these that holds. */
  lemma VerdictIsFirst(cfg: GateConfig, hop: nat, pcm: seq<Sample>, rms: real, probs: seq<real>)
    requires hop > 0 && cfg.gateEnabled
    ensures
      var verdict, voiced := Verdict(cfg, hop, pcm, rms, probs), |Marked(Above(probs, cfg.gateThreshold))|;
      && (verdict == Empty <==> pcm == [])
      && (verdict == LowRms <==> pcm != [] && rms < cfg.minRms)
      && (verdict == TooShort <==> pcm != [] && rms >= cfg.minRms && probs == [])
      && (verdict == TooFewVoiceFrames <==>
            pcm != [] && rms >= cfg.minRms && probs != [] && voiced < MinVoiceFrames(cfg, hop))
      && (verdict == LowVoiceRatio <==>
            pcm != [] && rms >= cfg.minRms && probs != [] && voiced >= MinVoiceFrames(cfg, hop)
            && voiced as real / |probs| as real < cfg.minRatio)
      && (verdict == Accepted <==> Admitted(cfg, hop, pcm, rms, probs))
  {
    CountIsSize(Above(probs, cfg.gateThreshold));
    hide FramesFor, Lasts, CountTrue, Marked, Above;
  }

  /** An admitted clip is filtered exactly if filtering is on and a frame of a loud enough clip is above the threshold. */
  lemma FiltersExactly(cfg: GateConfig, pcm: seq<Sample>, rms: real, probs: seq<real>)
    ensures
      Filters(cfg, pcm, rms, probs)
      <==> cfg.filterEnabled && pcm != [] && rms >= cfg.minRms && exists p :: p in probs && p > cfg.filterThreshold
  {
    var flags := Above(probs, cfg.filterThreshold);
    assert forall i :: 0 <= i < |probs| ==> (flags[i] <==> probs[i] > cfg.filterThreshold);
    if CountTrue(flags) > 0 {
      var i :| 0 <= i < |flags| && flags[i];
      assert probs[i] in probs;
    }
    if p :| p in probs && p > cfg.filterThreshold {
      var i :| 0 <= i < |probs| && probs[i] == p;
      assert flags[i];
    }
  }

  lemma LeastIsUnique(m: nat, n: nat, ms: real, frameMs: real, floor: nat)
    requires frameMs > 0.0 && Lasts(m, ms, frameMs, floor) && Lasts(n, ms, frameMs, floor)
    ensures m == n
  {
    if m < n {
      NotLonger(m, n, ms, frameMs, floor);
    } else if n < m {
      NotLonger(n, m, ms, frameMs, floor);
    }
  }

  lemma NotLonger(m: nat, n: nat, ms: real, frameMs: real, floor: nat)
    requires frameMs > 0.0 && Lasts(m, ms, frameMs, floor) && m < n
    ensures !Lasts(n, ms, frameMs, floor)
  {
    hide Ms;
    MsMonotone(m, n - 1, frameMs);
  }
}
