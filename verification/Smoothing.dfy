/**
 What the smoothed probability behind every decision is: a weighted average of the backend's answers since
 the last reset (backend/audio/vad.py, process; the gate of k2_stream.py smooths in the same way).
 */
module Smoothing {
  import opened Basics
  import opened Vad
  import opened AudioStream
  import opened SilenceRemoval
  import opened Timeline

  // ----- The weighted average

  function Power(x: real, n: nat): real { if n == 0 then 1.0 else x * Power(x, n - 1) }

  /** The weight of the i-th of n answers: the newest counts 1 - alpha, each older one alpha times as much. */
  function Weight(alpha: real, n: nat, i: nat): real
    requires i < n
  {
    (if i == 0 then 1.0 else 1.0 - alpha) * Power(alpha, n - 1 - i)
  }

  /** The share of the first k of n answers. */
  function Share(alpha: real, raws: seq<real>, n: nat, k: nat): real
    requires k <= n <= |raws|
  {
    if k == 0 then 0.0 else Share(alpha, raws, n, k - 1) + Weight(alpha, n, k - 1) * raws[k - 1]
  }

  function Average(alpha: real, raws: seq<real>): real { Share(alpha, raws, |raws|, |raws|) }

  /** Smoothing answer by answer. */
  function Smoothed(alpha: real, raws: seq<real>): Option<real> {
    if raws == [] then None else Some(Smooth(alpha, Smoothed(alpha, raws[..|raws| - 1]), raws[|raws| - 1]))
  }

  lemma OlderWeight(alpha: real, n: nat, i: nat)
    requires i < n
    ensures Weight(alpha, n + 1, i) == alpha * Weight(alpha, n, i)
  {
    var c, p := if i == 0 then 1.0 else 1.0 - alpha, Power(alpha, n - 1 - i);
    assert Power(alpha, n - i) == alpha * p;
    assert c * (alpha * p) == alpha * (c * p);
  }

  lemma Scale(alpha: real, s: real, w: real, x: real)
    ensures alpha * s + (alpha * w) * x == alpha * (s + w * x)
  {
    assert (alpha * w) * x == alpha * (w * x);
  }

  lemma {:induction false} OlderShare(alpha: real, raws: seq<real>, more: seq<real>, k: nat)
    requires k <= |raws| < |more| && raws == more[..|raws|]
    ensures Share(alpha, more, |raws| + 1, k) == alpha * Share(alpha, raws, |raws|, k)
    decreases k
  {
    hide Weight;
    if k > 0 {
      OlderShare(alpha, raws, more, k - 1);
      OlderWeight(alpha, |raws|, k - 1);
      assert more[k - 1] == raws[k - 1];
      Scale(alpha, Share(alpha, raws, |raws|, k - 1), Weight(alpha, |raws|, k - 1), raws[k - 1]);
    }
  }

  lemma NewestWeight(alpha: real, n: nat)
    requires n > 0
    ensures Weight(alpha, n, n - 1) == if n == 1 then 1.0 else 1.0 - alpha
  {
    assert Power(alpha, 0) == 1.0;
  }

  /** The newest answer takes the share 1 - alpha. */
  function Blend(alpha: real, older: real, raw: real): real { alpha * older + (1.0 - alpha) * raw }

  lemma SmoothIsBlend(alpha: real, older: real, raw: real)
    ensures Smooth(alpha, Some(older), raw) == Blend(alpha, older, raw) && Smooth(alpha, None, raw) == raw
  {
  }

  /** One more answer is blended into the average, and the first one is all of it. */
  lemma AverageSnoc(alpha: real, raws: seq<real>, raw: real)
    ensures Average(alpha, raws + [raw]) == if raws == [] then raw else Blend(alpha, Average(alpha, raws), raw)
  {
    var more := raws + [raw];
    assert more[..|raws|] == raws;
    OlderShare(alpha, raws, more, |raws|);
    NewestWeight(alpha, |more|);
    hide Weight;
    assert Share(alpha, more, |more|, |more|)
        == Share(alpha, more, |more|, |raws|) + Weight(alpha, |more|, |raws|) * more[|raws|];
  }

  lemma SmoothedSnoc(alpha: real, raws: seq<real>, raw: real)
    ensures Smoothed(alpha, raws + [raw]) == Some(Smooth(alpha, Smoothed(alpha, raws), raw))
  {
    assert (raws + [raw])[..|raws|] == raws;
  }

  /** Smoothing is averaging. */
  lemma {:induction false} SmoothedIsAverage(alpha: real, raws: seq<real>)
    requires raws != []
    ensures Smoothed(alpha, raws) == Some(Average(alpha, raws))
  {
    hide Average;
    var n := |raws| - 1;
    var init, last := raws[..n], raws[n];
    assert raws == init + [last];
    AverageSnoc(alpha, init, last);
    SmoothedSnoc(alpha, init, last);
    if init == [] {
      assert Smoothed(alpha, init) == None;
      SmoothIsBlend(alpha, 0.0, last);
    } else {
      SmoothedIsAverage(alpha, init);
      SmoothIsBlend(alpha, Average(alpha, init), last);
      hide Smoothed, Smooth, Blend;
    }
  }

  /** The weights of an average add up to one. */
  lemma {:induction false} WeightsAddUp(alpha: real, n: nat)
    requires n > 0
    ensures Average(alpha, seq(n, _ => 1.0)) == 1.0
  {
    hide Average;
    var ones := seq(n - 1, _ => 1.0);
    assert seq(n, _ => 1.0) == ones + [1.0];
    AverageSnoc(alpha, ones, 1.0);
    if n > 1 {
      WeightsAddUp(alpha, n - 1);
    }
  }

  // ----- The backend's answers

  /** The backend's answers on frames from up to to, as probabilities. */
  function Answers(backend: Backend, heard: seq<Frame>, from: nat, to: nat): seq<real>
    requires from <= to <= |heard|
  {
    seq(to - from, i requires 0 <= i < to - from => Clamp01(backend(heard[..from + i + 1])))
  }

  lemma AnswersGrow(backend: Backend, heard: seq<Frame>, frame: Frame, from: nat)
    requires from <= |heard|
    ensures
      var more := heard + [frame];
      Answers(backend, more, from, |more|) == Answers(backend, heard, from, |heard|) + [Clamp01(backend(more))]
  {
    var more := heard + [frame];
    var a, b := Answers(backend, more, from, |more|), Answers(backend, heard, from, |heard|) + [Clamp01(backend(more))];
    assert more[..|more|] == more;
    forall i | 0 <= i < |a| ensures a[i] == b[i] {
      if i < |heard| - from {
        assert more[..from + i + 1] == heard[..from + i + 1];
      }
    }
  }

  /** The probabilities of a clip's frames, from a fresh backend, are such averages too. */
  lemma {:induction false} ProbsAreAverages(backend: Backend, alpha: real, frames: seq<Frame>, k: nat)
    requires k < |frames|
    ensures Probs(backend, alpha, frames)[k] == Average(alpha, Answers(backend, frames, 0, k + 1))
  {
    var init := frames[..|frames| - 1];
    if k < |init| {
      ProbsAreAverages(backend, alpha, init, k);
      PrefixAnswers(backend, frames, |init|, k + 1);
    } else {
      LastProb(backend, alpha, frames);
      AnswersGrow(backend, init, frames[k], 0);
      assert init + [frames[k]] == frames;
      AverageSnoc(alpha, Answers(backend, init, 0, k), Clamp01(backend(frames)));
      hide Average, Answers, Clamp01, Probs, Blend;
      if k > 0 {
        ProbsAreAverages(backend, alpha, init, k - 1);
      }
    }
  }

  lemma LastProb(backend: Backend, alpha: real, frames: seq<Frame>)
    requires frames != []
    ensures
      var k, raw := |frames| - 1, Clamp01(backend(frames));
      Probs(backend, alpha, frames)[k]
      == if k == 0 then raw else Blend(alpha, Probs(backend, alpha, frames[..k])[k - 1], raw)
  {
  }

  lemma PrefixAnswers(backend: Backend, frames: seq<Frame>, n: nat, k: nat)
    requires k <= n <= |frames|
    ensures Answers(backend, frames[..n], 0, k) == Answers(backend, frames, 0, k)
  {
    var a, b := Answers(backend, frames[..n], 0, k), Answers(backend, frames, 0, k);
    forall i | 0 <= i < k ensures a[i] == b[i] {
      assert frames[..n][..0 + i + 1] == frames[..0 + i + 1];
    }
  }

  // ----- The decisions of a run

  /** The smoothed probability in force is that of the answers since the last reset. */
  ghost predicate Smooths(cfg: Config, r: Run) {
    && r.resetAt <= |r.stream.heard|
    && r.stream.vad.smoothed
       == Smoothed(cfg.tunables.alpha, Answers(cfg.backend, r.stream.heard, r.resetAt, |r.stream.heard|))
  }

  /**
   A frame is decided as speech if and only if the average of the backend's answers since the last reset,
   this frame's included, is above the threshold.
   */
  lemma DecisionIsAverage(cfg: Config, r: Run, frame: Frame)
    requires Smooths(cfg, r)
    ensures Smooths(cfg, RunFrame(cfg, r, frame))
    ensures
      var heard := r.stream.heard + [frame];
      RunFrame(cfg, r, frame).flags
      == r.flags + [Average(cfg.tunables.alpha, Answers(cfg.backend, heard, r.resetAt, |heard|)) > cfg.tunables.threshold]
  {
    var s, heard := r.stream, r.stream.heard + [frame];
    var raws := Answers(cfg.backend, s.heard, r.resetAt, |s.heard|);
    var raw := Clamp01(cfg.backend(heard));
    AnswersGrow(cfg.backend, s.heard, frame, r.resetAt);
    SmoothedSnoc(cfg.tunables.alpha, raws, raw);
    SmoothedIsAverage(cfg.tunables.alpha, raws + [raw]);
    StepSmooths(cfg, s, frame);
    hide FrameStep, Step, Smooth, Average, Answers, Smoothed, Clamp01;
    var r' := RunFrame(cfg, r, frame);
    if r'.resetAt == |heard| {
      NoAnswers(cfg, heard);
    }
  }

  lemma NoAnswers(cfg: Config, heard: seq<Frame>)
    ensures Smoothed(cfg.tunables.alpha, Answers(cfg.backend, heard, |heard|, |heard|)) == None
  {
  }

  lemma StepSmooths(cfg: Config, s: Stream, frame: Frame)
    ensures
      var o, raw := FrameStep(cfg, s, frame), Clamp01(cfg.backend(s.heard + [frame]));
      var smoothed := Smooth(cfg.tunables.alpha, s.vad.smoothed, raw);
      && o.next.heard == s.heard + [frame]
      && o.next.vad.smoothed == (if s.vad.speaking && !o.next.vad.speaking then None else Some(smoothed))
      && (IsSpeech(cfg.tunables, s.vad, raw) <==> smoothed > cfg.tunables.threshold)
  {
    hide Flatten, DropLast;
  }

  lemma {:induction false} DrainSmooths(cfg: Config, r: Run, pcm: seq<Sample>)
    requires cfg.hop > 0 && Smooths(cfg, r)
    ensures Smooths(cfg, RunDrain(cfg, r, pcm))
    decreases |pcm|
  {
    hide RunFrame, Smoothed, Answers, Average;
    if |pcm| >= cfg.hop {
      DecisionIsAverage(cfg, r, pcm[..cfg.hop]);
      DrainSmooths(cfg, RunFrame(cfg, r, pcm[..cfg.hop]), pcm[cfg.hop..]);
    }
  }

  /** In every reachable state the next decision is about the average since the last reset. */
  lemma {:induction false} EveryRunSmooths(cfg: Config, actions: seq<Action>)
    requires cfg.Valid() && EvenFeeds(actions)
    ensures Smooths(cfg, RunAll(cfg, actions))
    decreases |actions|
  {
    if actions != [] {
      var last := |actions| - 1;
      EveryRunSmooths(cfg, actions[..last]);
      var r := RunAll(cfg, actions[..last]);
      match actions[last] {
        case Feed(bytes, now) => FeedSmooths(cfg, r, DecodePcm(bytes), now);
        case Flush(force) => NoAnswers(cfg, r.stream.heard);
      }
    }
  }

  lemma FeedSmooths(cfg: Config, r: Run, pcm: seq<Sample>, now: real)
    requires cfg.hop > 0 && Smooths(cfg, r)
    ensures Smooths(cfg, RunFeed(cfg, r, pcm, now))
  {
    hide RunDrain, Smoothed, Answers;
    DrainSmooths(cfg, r.(stream := r.stream.(carry := [])), r.stream.carry + pcm);
  }
}
