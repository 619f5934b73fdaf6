/**
 What a reader of the events can rely on, told of the audio that was fed: every segment is a range
 of it, ranges and stamps are in order, and what happens to the audio behind a cut.
 */
module Seams {
  import opened Basics
  import opened Events
  import opened Vad
  import opened AudioStream
  import opened Timeline

  // ----- Segments as ranges of the audio

  /**
   An utterance in samples of the audio that was fed. Its segment holds exactly the range's samples;
   the stamp is that range shifted right by the trimmed tail.
   */
  ghost predicate IsRange(cfg: Config, u: Utterance, fed: seq<Sample>) {
    var from, to, cut := At(u.first, cfg.hop), At(u.last, cfg.hop), At(u.cutAt, cfg.hop);
    && 0 <= from < to <= cut <= |fed|
    && (u.segment.Some? ==>
          && u.segment.value.pcm == fed[from..to]
          && u.segment.value.startMs == Some(Milliseconds(from + (cut - to)))
          && u.segment.value.endMs == Some(Milliseconds(cut)))
  }

  lemma UtteranceIsRange(cfg: Config, r: Run, u: Utterance)
    requires cfg.Valid() && RunInv(cfg, r) && Accounted(r) && u in r.utterances
    ensures IsRange(cfg, u, r.fed)
  {
    hide RunInv, Sound, Flatten, At, Milliseconds, LongEnough, Stamped;
    var heard := r.stream.heard;
    UtteranceIsSound(cfg, r, u);
    SoundShape(cfg, u, heard, r.flags);
    FlattenSlice(heard, cfg.hop, u.first, u.last);
    FlattenedFrames(heard, cfg.hop);
    AtMonotone(u.last, u.cutAt, cfg.hop);
    AtMonotone(u.cutAt, |heard|, cfg.hop);
    AtGrows(u.first, u.last, cfg.hop);
    if u.segment.Some? {
      StampedRange(cfg.hop, heard, u.first, u.last, u.cutAt, u.closing == ByFlush(true));
      SliceOfPrefix(Flatten(heard), r.stream.carry, At(u.first, cfg.hop), At(u.last, cfg.hop));
    }
  }

  lemma SliceOfPrefix(x: seq<Sample>, y: seq<Sample>, from: nat, to: nat)
    requires from <= to <= |x|
    ensures (x + y)[from..to] == x[from..to]
  {
  }

  lemma StampedRange(hop: nat, heard: seq<Frame>, first: nat, last: nat, cutAt: nat, stop: bool)
    requires first <= last <= cutAt && last <= |heard|
    ensures
      var g := Stamped(hop, heard, first, last, cutAt, stop);
      && g.pcm == Flatten(heard[first..last])
      && g.startMs == Some(Milliseconds(At(first, hop) + (At(cutAt, hop) - At(last, hop))))
      && g.endMs == Some(Milliseconds(At(cutAt, hop)))
  {
    hide At, Milliseconds, Flatten;
    AtSum(first, cutAt - last, hop);
    AtSum(last, cutAt - last, hop);
  }

  /** What a sound record says in frame numbers. */
  lemma SoundShape(cfg: Config, u: Utterance, heard: seq<Frame>, flags: seq<bool>)
    requires |flags| == |heard| && Sound(cfg, u, heard, flags)
    ensures u.resetAt <= u.first < u.last <= u.cutAt <= |heard|
    ensures u.first == Max(u.resetAt, u.confirmedAt - cfg.tunables.preSpeechFrames)
    ensures u.closing.ByFlush? ==> u.last == u.cutAt
    ensures u.segment.Some? <==> LongEnough(cfg, u.last - u.first, u.closing)
    ensures u.segment.Some? ==>
      u.segment.value == Stamped(cfg.hop, heard, u.first, u.last, u.cutAt, u.closing == ByFlush(true))
  {
    hide LongEnough, Stamped, FirstOpens;
  }

  lemma UtteranceIsSound(cfg: Config, r: Run, u: Utterance)
    requires cfg.Valid() && RunInv(cfg, r) && u in r.utterances
    ensures |r.flags| == |r.stream.heard| && Sound(cfg, u, r.stream.heard, r.flags) && u.cutAt <= r.resetAt
    ensures forall f <- r.stream.heard :: |f| == cfg.hop
  {
    hide Sound, Watches, Scan;
  }

  lemma AtGrows(a: nat, b: nat, hop: nat)
    requires a < b && hop > 0
    ensures At(a, hop) < At(b, hop)
  {
    AtMonotone(a + 1, b, hop);
    NextFrame(a, hop);
  }

  /** Later samples have later milliseconds. */
  lemma StampsMonotone(a: int, b: int)
    requires a <= b
    ensures Milliseconds(a) <= Milliseconds(b)
  {
  }

  /** Two stamps are in order, and do not overlap. */
  ghost predicate Follows(a: Segment, b: Segment) {
    && a.startMs.Some? && a.endMs.Some? && b.startMs.Some? && b.endMs.Some?
    && a.startMs.value <= a.endMs.value <= b.startMs.value <= b.endMs.value
  }

  /**
   The segments of a run are those of its utterances; the utterances are disjoint ranges of the audio
   that was fed, in order, and so are the stamps of their segments.
   */
  lemma SegmentsAreOrdered(cfg: Config, actions: seq<Action>, i: nat, j: nat)
    requires cfg.Valid() && EvenFeeds(actions)
    requires i < j < |RunAll(cfg, actions).utterances|
    ensures
      var r, fed := RunAll(cfg, actions), FedBy(actions);
      var a, b := r.utterances[i], r.utterances[j];
      && SegmentsOf(r.events) == SegmentsIn(r.utterances)
      && IsRange(cfg, a, fed) && IsRange(cfg, b, fed)
      && At(a.last, cfg.hop) <= At(b.first, cfg.hop)
      && (a.segment.Some? && b.segment.Some? ==> Follows(a.segment.value, b.segment.value))
  {
    EveryRun(cfg, actions);
    var r := RunAll(cfg, actions);
    var a, b := r.utterances[i], r.utterances[j];
    hide RunAll, Accounted;
    UtteranceIsSound(cfg, r, a);
    UtteranceIsSound(cfg, r, b);
    UtteranceIsRange(cfg, r, a);
    UtteranceIsRange(cfg, r, b);
    assert a.cutAt <= b.resetAt;
    RangesFollow(cfg, a, b, r.fed);
  }

  lemma RangesFollow(cfg: Config, a: Utterance, b: Utterance, fed: seq<Sample>)
    requires IsRange(cfg, a, fed) && IsRange(cfg, b, fed) && a.last <= a.cutAt <= b.first
    ensures At(a.last, cfg.hop) <= At(b.first, cfg.hop)
    ensures a.segment.Some? && b.segment.Some? ==> Follows(a.segment.value, b.segment.value)
  {
    hide At, Milliseconds;
    AtMonotone(a.cutAt, b.first, cfg.hop);
    AtMonotone(a.last, a.cutAt, cfg.hop);
    var cut, from, to, end := At(a.cutAt, cfg.hop), At(b.first, cfg.hop), At(b.last, cfg.hop), At(b.cutAt, cfg.hop);
    StampsMonotone(At(a.first, cfg.hop) + (cut - At(a.last, cfg.hop)), cut);
    StampsMonotone(cut, from + (end - to));
    StampsMonotone(from + (end - to), end);
  }

  /**
   The utterance's speech ends at frame `spoken`, the `silenceFrames` frames up to the cut are silent, and
   its segment holds `kept` of them: `keepTailFrames`, or all if there are fewer. Both stamps are those of
   the frames, the first shifted by what was cut off.
   */
  ghost predicate KeepsTail(cfg: Config, u: Utterance, flags: seq<bool>, fed: seq<Sample>) {
    var silence := cfg.tunables.silenceFrames;
    var spoken, kept := u.cutAt - silence, Min(cfg.tunables.keepTailFrames, silence);
    && u.first < spoken && u.cutAt <= |flags| && flags[spoken - 1]
    && (forall k :: spoken <= k < u.cutAt ==> !flags[k])
    && (u.segment.Some? ==>
          && 0 <= At(u.first, cfg.hop) <= At(spoken + kept, cfg.hop) <= |fed|
          && u.segment.value.pcm == fed[At(u.first, cfg.hop)..At(spoken + kept, cfg.hop)]
          && u.segment.value.startMs == Some(Milliseconds(At(u.first + (silence - kept), cfg.hop)))
          && u.segment.value.endMs == Some(Milliseconds(At(spoken + silence, cfg.hop))))
  }

  /** Over every run, each utterance that silence has closed keeps its tail. */
  lemma TailIsKept(cfg: Config, actions: seq<Action>, u: Utterance)
    requires cfg.Valid() && EvenFeeds(actions)
    requires u in RunAll(cfg, actions).utterances && u.closing == BySilence
    ensures KeepsTail(cfg, u, RunAll(cfg, actions).flags, FedBy(actions))
  {
    EveryRun(cfg, actions);
    hide RunAll, RunInv, Accounted, KeepsTail;
    RunKeepsTail(cfg, RunAll(cfg, actions), u);
  }

  lemma RunKeepsTail(cfg: Config, r: Run, u: Utterance)
    requires cfg.Valid() && RunInv(cfg, r) && Accounted(r) && u in r.utterances && u.closing == BySilence
    ensures KeepsTail(cfg, u, r.flags, r.fed)
  {
    hide Accounted, At, Milliseconds, Sound, Stamped, IsRange, RunInv, LongEnough;
    UtteranceIsSound(cfg, r, u);
    SoundShape(cfg, u, r.stream.heard, r.flags);
    SpokenInside(cfg, u, r.stream.heard, r.flags);
    UtteranceIsRange(cfg, r, u);
    if u.segment.Some? {
      TailOfRange(cfg, u, r.fed);
    }
  }

  lemma TailOfRange(cfg: Config, u: Utterance, fed: seq<Sample>)
    requires IsRange(cfg, u, fed) && u.first <= u.last <= u.cutAt && u.segment.Some?
    ensures
      && 0 <= At(u.first, cfg.hop) <= At(u.last, cfg.hop) <= |fed|
      && u.segment.value.pcm == fed[At(u.first, cfg.hop)..At(u.last, cfg.hop)]
      && u.segment.value.startMs == Some(Milliseconds(At(u.first + (u.cutAt - u.last), cfg.hop)))
      && u.segment.value.endMs == Some(Milliseconds(At(u.cutAt, cfg.hop)))
  {
    hide At, Milliseconds;
    AtSum(u.last, u.cutAt - u.last, cfg.hop);
    AtSum(u.first, u.cutAt - u.last, cfg.hop);
  }

  lemma SpokenInside(cfg: Config, u: Utterance, heard: seq<Frame>, flags: seq<bool>)
    requires cfg.Valid() && |flags| == |heard| && Sound(cfg, u, heard, flags) && u.closing == BySilence
    ensures
      var spoken := u.cutAt - cfg.tunables.silenceFrames;
      && u.first < spoken && flags[spoken - 1] && (forall k :: spoken <= k < u.cutAt ==> !flags[k])
      && u.last == spoken + Min(cfg.tunables.keepTailFrames, cfg.tunables.silenceFrames)
  {
    hide LongEnough, Stamped;
    assert flags[u.confirmedAt - 1];
  }

  // ----- The seam

  /** Frame k is in some segment. */
  ghost predicate Kept(r: Run, k: int) {
    exists u :: u in r.utterances && u.segment.Some? && u.first <= k < u.last
  }

  /** Between the reset before an utterance and its cut, no other utterance has frames. */
  lemma OnlyOne(cfg: Config, r: Run, u: Utterance, v: Utterance, k: int)
    requires cfg.Valid() && RunInv(cfg, r) && u in r.utterances && v in r.utterances
    requires u.resetAt <= k < u.cutAt && v.first <= k < v.last
    ensures u == v
  {
    hide RunInv, Sound, LongEnough;
    UtteranceIsSound(cfg, r, u);
    UtteranceIsSound(cfg, r, v);
    SoundShape(cfg, u, r.stream.heard, r.flags);
    SoundShape(cfg, v, r.stream.heard, r.flags);
    var i :| 0 <= i < |r.utterances| && r.utterances[i] == u;
    var j :| 0 <= j < |r.utterances| && r.utterances[j] == v;
    if i < j {
      Ordered(cfg, r, i, j);
    } else if j < i {
      Ordered(cfg, r, j, i);
    }
  }

  lemma Ordered(cfg: Config, r: Run, i: nat, j: nat)
    requires RunInv(cfg, r) && i < j < |r.utterances|
    ensures r.utterances[i].cutAt <= r.utterances[j].resetAt
  {
    hide Sound, StateInv;
  }

  /**
   The seam behind a reset at frame c, told of the next utterance u the VAD closes, whether it is
   handed on or dropped. Every frame from c to the end of u is in a segment if and only if u's speech
   is confirmed within `preSpeechFrames` of c and u is long enough or closed by a forced flush.
   */
  lemma SeamIsTight(cfg: Config, r: Run, u: Utterance)
    requires cfg.Valid() && RunInv(cfg, r) && Accounted(r) && u in r.utterances
    ensures
      var c := u.resetAt;
      (forall k :: c <= k < u.last ==> Kept(r, k))
      <==> u.confirmedAt - c <= cfg.tunables.preSpeechFrames && LongEnough(cfg, u.last - c, u.closing)
    ensures FirstOpens(r.flags, cfg.tunables.startFrames, u.resetAt, u.confirmedAt)
  {
    hide RunInv, Accounted, Sound, LongEnough;
    UtteranceIsSound(cfg, r, u);
    SoundShape(cfg, u, r.stream.heard, r.flags);
    OpenedThere(cfg, u, r.stream.heard, r.flags);
    var c := u.resetAt;
    if u.confirmedAt - c <= cfg.tunables.preSpeechFrames && LongEnough(cfg, u.last - c, u.closing) {
      assert u.first == c && u.segment.Some?;
    } else if forall k :: c <= k < u.last ==> Kept(r, k) {
      assert Kept(r, c);
      var v :| v in r.utterances && v.segment.Some? && v.first <= c < v.last;
      OnlyOne(cfg, r, u, v, c);
    }
  }

  lemma OpenedThere(cfg: Config, u: Utterance, heard: seq<Frame>, flags: seq<bool>)
    requires |flags| == |heard| && Sound(cfg, u, heard, flags)
    ensures FirstOpens(flags, cfg.tunables.startFrames, u.resetAt, u.confirmedAt)
  {
  }

  /** If the utterance before was closed by a flush and both are handed on, the seam leaves one range of the audio. */
  lemma SeamJoins(cfg: Config, r: Run, a: Utterance, b: Utterance)
    requires cfg.Valid() && RunInv(cfg, r) && Accounted(r) && a in r.utterances && b in r.utterances
    requires b.resetAt == a.cutAt && a.closing.ByFlush? && a.segment.Some? && b.segment.Some?
    requires b.confirmedAt - b.resetAt <= cfg.tunables.preSpeechFrames
    ensures 0 <= At(a.first, cfg.hop) <= At(b.last, cfg.hop) <= |r.fed|
    ensures a.segment.value.pcm + b.segment.value.pcm == r.fed[At(a.first, cfg.hop)..At(b.last, cfg.hop)]
  {
    hide RunInv, Accounted, At, Sound, LongEnough, Milliseconds;
    UtteranceIsSound(cfg, r, a);
    UtteranceIsSound(cfg, r, b);
    SoundShape(cfg, a, r.stream.heard, r.flags);
    SoundShape(cfg, b, r.stream.heard, r.flags);
    UtteranceIsRange(cfg, r, a);
    UtteranceIsRange(cfg, r, b);
  }

  /**
   If no speech is confirmed again, everything behind the last reset is lost: no segment holds a
   frame of it, however many of its frames, short of `startFrames` in a row, were decided as speech.
   */
  lemma UnconfirmedIsLost(cfg: Config, r: Run, k: int)
    requires cfg.Valid() && RunInv(cfg, r) && !r.stream.vad.speaking && r.resetAt <= k
    ensures !Kept(r, k)
    ensures NeverOpens(r.flags, cfg.tunables.startFrames, r.resetAt)
  {
    hide Sound, Remembers, NeverOpens, LongEnough;
    if Kept(r, k) {
      var u :| u in r.utterances && u.segment.Some? && u.first <= k < u.last;
      UtteranceIsSound(cfg, r, u);
      SoundShape(cfg, u, r.stream.heard, r.flags);
    }
  }

  // ----- Two runs that lose speech behind a forced cut

  /** With a hop of one sample and no snapshots, a feed of one sample is one frame. */
  lemma OneFrame(cfg: Config, r: Run, x: Sample)
    requires cfg.hop == 1 && !cfg.enablePartial && r.stream.carry == []
    ensures RunFeed(cfg, r, [x], 0.0) == RunFrame(cfg, r, [x]).(fed := r.fed + [x])
  {
    hide FrameStep, IsSpeech;
    var a := RunFrame(cfg, r, [x]);
    assert a.stream.carry == [] by {
      FrameCarry(cfg, r.stream, [x]);
    }
    assert [] + [x] == [x] && [x][..1] == [x] && [x][1..] == [];
    assert r.(stream := r.stream.(carry := [])) == r;
    assert RunDrain(cfg, a, []) == a.(stream := a.stream.(carry := []));
    assert RunDrain(cfg, r, [x]) == RunDrain(cfg, a, []);
    assert a.events + [] == a.events;
  }

  lemma FrameCarry(cfg: Config, s: Stream, frame: Frame)
    ensures FrameStep(cfg, s, frame).next.carry == s.carry
  {
  }

  const SILENT_THIRD: Backend := (heard: seq<Frame>) => if |heard| == 3 then 0.0 else 1.0

  /** Nothing is kept that lasts less than 16 samples, unless a flush is forced. */
  const SHORT_RESTART := Config(Tunables(0.5, 0.0, 1, 1, 1, 0), 1, SILENT_THIRD, 1, 0, 0.0, false)

  /** Two frames confirm speech, but only one is kept from before the confirmation. */
  const LATE_RESTART := Config(Tunables(0.5, 0.0, 2, 1, 1, 0), 1, _ => 1.0, 0, 0, 0.0, false)

  const SAMPLE := Feed([0, 0], 0.0)

  const SHORT_RUN := [SAMPLE, Flush(true), SAMPLE, SAMPLE]

  const LATE_RUN := [SAMPLE, SAMPLE, Flush(true), SAMPLE, SAMPLE, Flush(true)]

  ghost predicate LosesSpeech(r: Run, k: nat) { k < |r.flags| && r.flags[k] && !Kept(r, k) }

  /** A run one action longer. */
  lemma OneAction(cfg: Config, actions: seq<Action>, n: nat)
    requires cfg.hop > 0 && EvenFeeds(actions) && n < |actions|
    ensures EvenFeeds(actions[..n]) && EvenFeeds(actions[..n + 1])
    ensures
      var r := RunAll(cfg, actions[..n]);
      RunAll(cfg, actions[..n + 1])
      == match actions[n]
         case Feed(bytes, now) => RunFeed(cfg, r, DecodePcm(bytes), now)
         case Flush(force) => RunFlush(cfg, r, force)
  {
    hide RunFeed, RunFlush;
    assert actions[..n + 1][..n] == actions[..n];
  }

  /** One more sample of the runs below. */
  lemma OneSample(cfg: Config, actions: seq<Action>, n: nat, r: Run)
    requires cfg.hop == 1 && !cfg.enablePartial && EvenFeeds(actions) && n < |actions| && actions[n] == SAMPLE
    requires EvenFeeds(actions[..n]) && RunAll(cfg, actions[..n]) == r && r.stream.carry == []
    ensures EvenFeeds(actions[..n + 1])
    ensures
      var x := SampleOf(0, 0);
      RunAll(cfg, actions[..n + 1]) == RunFrame(cfg, r, [x]).(fed := r.fed + [x])
  {
    hide RunFrame, RunFeed;
    var x := SampleOf(0, 0);
    OneAction(cfg, actions, n);
    assert DecodePcm([0, 0]) == [x];
    OneFrame(cfg, r, x);
  }

  /**
   Confirmed at once, but too short: frame 1 is speech behind a forced cut, and the utterance it opens
   is dropped.
   */
  lemma ShortRestartLosesSpeech()
    ensures SHORT_RESTART.Valid() && EvenFeeds(SHORT_RUN)
    ensures
      var r := RunAll(SHORT_RESTART, SHORT_RUN);
      && LosesSpeech(r, 1) && |r.utterances| == 2
      && r.utterances[0].closing == ByFlush(true) && r.utterances[0].cutAt == r.utterances[1].resetAt == 1
      && r.utterances[1].confirmedAt == 2
  {
    hide RunFrame, RunAll, RunFlush;
    var cfg, acts, x := SHORT_RESTART, SHORT_RUN, SampleOf(0, 0);
    assert RunAll(cfg, acts[..0]) == START by {
      NoRun(cfg, acts);
    }
    OneSample(cfg, acts, 0, START);
    var r1 := RunAll(cfg, acts[..1]);
    ShortFirst(r1, x);
    OneAction(cfg, acts, 1);
    var r2 := RunAll(cfg, acts[..2]);
    ShortSecond(r1, r2, x);
    OneSample(cfg, acts, 2, r2);
    var r3 := RunAll(cfg, acts[..3]);
    ShortThird(r2, r3, x);
    OneSample(cfg, acts, 3, r3);
    ShortFourth(r3, RunAll(cfg, acts[..4]), x);
    assert acts[..4] == acts;
  }

  lemma NoRun(cfg: Config, actions: seq<Action>)
    requires cfg.hop > 0
    ensures EvenFeeds(actions[..0]) && RunAll(cfg, actions[..0]) == START
  {
  }

  lemma ShortFirst(r: Run, x: Sample)
    requires r == RunFrame(SHORT_RESTART, START, [x]).(fed := [] + [x])
    ensures r.stream.vad == VadState([[x]], [], 0, 1, true, Some(1.0)) && r.stream.heard == [[x]] && r.flags == [true]
    ensures r.stream.carry == [] && r.stream.announced && r.utterances == [] && r.resetAt == 0 && r.confirmedAt == 1
  {
  }

  lemma ShortSecond(r: Run, r': Run, x: Sample)
    requires r' == RunFlush(SHORT_RESTART, r, true)
    requires r.stream.vad == VadState([[x]], [], 0, 1, true, Some(1.0)) && r.stream.heard == [[x]] && r.flags == [true]
    requires r.stream.carry == [] && r.stream.announced && r.utterances == [] && r.resetAt == 0 && r.confirmedAt == 1
    ensures r'.stream.vad == RESET && r'.stream.heard == [[x]] && r'.flags == [true]
    ensures r'.stream.carry == [] && !r'.stream.announced && r'.resetAt == 1
    ensures |r'.utterances| == 1 && var u := r'.utterances[0]; u == Utterance(u.segment, 0, 1, 0, 1, 1, ByFlush(true))
  {
  }

  lemma ShortThird(r: Run, r': Run, x: Sample)
    requires r' == RunFrame(SHORT_RESTART, r, [x]).(fed := r.fed + [x])
    requires r.stream.vad == RESET && r.stream.heard == [[x]] && r.flags == [true]
    requires r.stream.carry == [] && !r.stream.announced && r.resetAt == 1
    ensures r'.stream.vad == VadState([[x]], [], 0, 1, true, Some(1.0)) && r'.stream.heard == [[x], [x]]
    ensures r'.flags == [true, true] && r'.stream.carry == [] && r'.stream.announced
    ensures r'.utterances == r.utterances && r'.resetAt == 1 && r'.confirmedAt == 2
  {
  }

  lemma ShortFourth(r: Run, r': Run, x: Sample)
    requires r' == RunFrame(SHORT_RESTART, r, [x]).(fed := r.fed + [x])
    requires r.stream.vad == VadState([[x]], [], 0, 1, true, Some(1.0)) && r.stream.heard == [[x], [x]]
    requires r.flags == [true, true] && r.stream.carry == [] && r.stream.announced && r.resetAt == 1 && r.confirmedAt == 2
    ensures r'.flags == [true, true, false]
    ensures r'.utterances == r.utterances + [Utterance(None, 1, 2, 1, 2, 3, BySilence)]
  {
    var cfg := SHORT_RESTART;
    var o := FrameStep(cfg, r.stream, [x]);
    assert DropLast([[x]] + [[x]], 1) == [[x]] && Flatten([[x]]) == [x] && cfg.MinSamples() == 16;
    assert Step(cfg.tunables, r.stream.vad, [x], 0.0).segment == Some([x]);
    assert o.events == [SpeechDropped] && SegmentsOf([SpeechDropped]) == [];
  }

  /** Frame after frame of speech since a reset; the second one confirms it and keeps only itself. */
  ghost predicate LateAfter(r: Run, x: Sample, from: nat, n: nat) {
    && |r.stream.heard| == |r.flags| == from + n && (forall k :: 0 <= k < from + n ==> r.flags[k])
    && r.stream.carry == [] && r.resetAt == from && r.stream.announced == r.stream.vad.speaking == (n == 2)
    && (n == 2 ==> r.stream.vad.audio == [[x]] && r.confirmedAt == from + 2)
    && (n < 2 ==> r.stream.vad.audio == [] && r.stream.vad.speech == |r.stream.vad.pre| == n)
  }

  lemma LateSample(r: Run, r': Run, x: Sample, from: nat, n: nat)
    requires n < 2 && LateAfter(r, x, from, n) && r' == RunFrame(LATE_RESTART, r, [x]).(fed := r.fed + [x])
    ensures LateAfter(r', x, from, n + 1) && r'.utterances == r.utterances
  {
    assert n == 1 ==> (r.stream.vad.pre + [[x]])[1..] == [[x]];
  }

  lemma LateFlush(r: Run, r': Run, x: Sample, from: nat)
    requires LateAfter(r, x, from, 2) && r' == RunFlush(LATE_RESTART, r, true)
    ensures LateAfter(r', x, from + 2, 0)
    ensures |r'.utterances| == |r.utterances| + 1 && r.utterances <= r'.utterances
    ensures
      var u := r'.utterances[|r.utterances|];
      u == Utterance(u.segment, from, from + 2, from + 1, from + 2, from + 2, ByFlush(true)) && u.segment.Some?
  {
    assert Flatten([[x]]) == [x];
    var o := FlushStream(LATE_RESTART, r.stream, true);
    assert o.events == [SegmentReady(TimedSegment([x], r.stream.consumed, true))];
  }

  /** Long enough, but confirmed too late: frame 2 is speech behind a forced cut, and kept nowhere. */
  lemma LateRestartLosesSpeech()
    ensures LATE_RESTART.Valid() && EvenFeeds(LATE_RUN)
    ensures
      var r := RunAll(LATE_RESTART, LATE_RUN);
      && LosesSpeech(r, 2) && |r.utterances| == 2
      && r.utterances[0].closing == ByFlush(true) && r.utterances[0].cutAt == r.utterances[1].resetAt == 2
      && r.utterances[1].confirmedAt == 4 && r.utterances[1].segment.Some?
  {
    hide RunFrame, RunAll, RunFlush, LateAfter;
    var cfg, acts, x := LATE_RESTART, LATE_RUN, SampleOf(0, 0);
    NoRun(cfg, acts);
    LateStart(x);
    var r2 := LateUtterance(acts, 0, START, x, 0);
    var r4 := LateUtterance(acts, 3, r2, x, 2);
    assert acts[..6] == acts;
    LateFlags(r4, x, 4);
  }

  lemma LateStart(x: Sample)
    ensures LateAfter(START, x, 0, 0)
  {
  }

  lemma LateFlags(r: Run, x: Sample, from: nat)
    requires LateAfter(r, x, from, 0)
    ensures |r.flags| == from && forall k :: 0 <= k < from ==> r.flags[k]
  {
  }

  lemma LateUtterance(acts: seq<Action>, n: nat, r: Run, x: Sample, from: nat) returns (r': Run)
    requires x == SampleOf(0, 0) && n + 3 <= |acts| && EvenFeeds(acts) && EvenFeeds(acts[..n])
    requires acts[n] == acts[n + 1] == SAMPLE && acts[n + 2] == Flush(true)
    requires RunAll(LATE_RESTART, acts[..n]) == r && LateAfter(r, x, from, 0)
    ensures EvenFeeds(acts[..n + 3]) && RunAll(LATE_RESTART, acts[..n + 3]) == r' && LateAfter(r', x, from + 2, 0)
    ensures |r'.utterances| == |r.utterances| + 1 && r.utterances <= r'.utterances
    ensures
      var u := r'.utterances[|r.utterances|];
      u == Utterance(u.segment, from, from + 2, from + 1, from + 2, from + 2, ByFlush(true)) && u.segment.Some?
  {
    LateCarry(r, x, from, 0);
    OneSample(LATE_RESTART, acts, n, r);
    hide RunFrame, RunAll, RunFlush, LateAfter;
    var a := RunAll(LATE_RESTART, acts[..n + 1]);
    LateSample(r, a, x, from, 0);
    LateCarry(a, x, from, 1);
    OneSample(LATE_RESTART, acts, n + 1, a);
    var b := RunAll(LATE_RESTART, acts[..n + 2]);
    LateSample(a, b, x, from, 1);
    OneAction(LATE_RESTART, acts, n + 2);
    r' := RunAll(LATE_RESTART, acts[..n + 3]);
    LateFlush(b, r', x, from);
  }

  lemma LateCarry(r: Run, x: Sample, from: nat, n: nat)
    requires LateAfter(r, x, from, n)
    ensures r.stream.carry == []
  {
  }
}
