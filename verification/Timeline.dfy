/**
 Whole runs of VadSegmentedStream: any sequence of feeds and flushes, with a record of
 where in the processed audio every emitted segment came from.
 */
module Timeline {
  import opened Basics
  import opened Events
  import opened Vad
  import opened AudioStream

  datatype Action = Feed(bytes: seq<Byte>, now: real) | Flush(force: bool)

  datatype Closing = BySilence | ByFlush(force: bool)

  /**
   An utterance the VAD has closed, in processed frames: it is [first, last), it was cut when
   `cutAt` frames had been processed, its speech was confirmed at `confirmedAt` and the VAD
   had last been reset at `resetAt`. It became a segment, or was dropped as too short.
   */
  datatype Utterance = Utterance(
    segment: Option<Segment>, resetAt: nat, confirmedAt: nat, first: nat, last: nat, cutAt: nat, closing: Closing)

  /** The stream with the audio it was fed, the decision on every frame, and what came of it. */
  datatype Run = Run(
    stream: Stream,
    fed: seq<Sample>,
    flags: seq<bool>,
    resetAt: nat,
    confirmedAt: nat,
    events: seq<StreamEvent>,
    utterances: seq<Utterance>)

  const START := Run(FRESH, [], [], 0, 0, [], [])

  /** The utterance that a step with output o has closed, if any. */
  function Closed(r: Run, o: Output, last: int, cutAt: nat, closing: Closing): seq<Utterance> {
    var first := |r.stream.heard| - |r.stream.vad.audio|;
    if !r.stream.vad.speaking || o.next.vad.speaking || first < 0 || last < 0 then []
    else
      var segment := if SegmentsOf(o.events) == [] then None else Some(SegmentsOf(o.events)[0]);
      [Utterance(segment, r.resetAt, r.confirmedAt, first, last, cutAt, closing)]
  }

  function RunFrame(cfg: Config, r: Run, frame: Frame): Run {
    var s := r.stream;
    var o := FrameStep(cfg, s, frame);
    var n := |s.heard| + 1;
    var raw := Clamp01(cfg.backend(s.heard + [frame]));
    Run(o.next,
        r.fed,
        r.flags + [IsSpeech(cfg.tunables, s.vad, raw)],
        if s.vad.speaking && !o.next.vad.speaking then n else r.resetAt,
        if !s.vad.speaking && o.next.vad.speaking then n else r.confirmedAt,
        r.events + o.events,
        r.utterances + Closed(r, o, n - cfg.tunables.Trim(), n, BySilence))
  }

  function RunDrain(cfg: Config, r: Run, pcm: seq<Sample>): Run
    requires cfg.hop > 0
    decreases |pcm|
  {
    if |pcm| < cfg.hop then r.(stream := r.stream.(carry := pcm))
    else RunDrain(cfg, RunFrame(cfg, r, pcm[..cfg.hop]), pcm[cfg.hop..])
  }

  function RunFeed(cfg: Config, r: Run, pcm: seq<Sample>, now: real): Run
    requires cfg.hop > 0
  {
    var a := RunDrain(cfg, r.(stream := r.stream.(carry := [])), r.stream.carry + pcm);
    var b := PartialStep(cfg, a.stream, now);
    a.(stream := b.next, fed := r.fed + pcm, events := a.events + b.events)
  }

  function RunFlush(cfg: Config, r: Run, force: bool): Run {
    var o := FlushStream(cfg, r.stream, force);
    var n := |r.stream.heard|;
    r.(stream := o.next, resetAt := n, events := r.events + o.events,
       utterances := r.utterances + Closed(r, o, n, n, ByFlush(force)))
  }

  ghost predicate EvenFeeds(actions: seq<Action>) {
    forall a <- actions :: a.Feed? ==> |a.bytes| % 2 == 0
  }

  function RunAll(cfg: Config, actions: seq<Action>): Run
    requires cfg.hop > 0 && EvenFeeds(actions)
  {
    if actions == [] then START
    else
      var last := |actions| - 1;
      var r := RunAll(cfg, actions[..last]);
      match actions[last]
      case Feed(bytes, now) => RunFeed(cfg, r, DecodePcm(bytes), now)
      case Flush(force) => RunFlush(cfg, r, force)
  }

  /** The audio of the feeds, end to end. */
  function FedBy(actions: seq<Action>): seq<Sample>
    requires EvenFeeds(actions)
  {
    if actions == [] then []
    else
      var last := |actions| - 1;
      FedBy(actions[..last]) + if actions[last].Feed? then DecodePcm(actions[last].bytes) else []
  }

  // ----- The record follows the stream

  lemma {:induction false} RunDrainIsDrain(cfg: Config, r: Run, pcm: seq<Sample>)
    requires cfg.hop > 0
    ensures var o := Drain(cfg, r.stream, pcm);
      RunDrain(cfg, r, pcm).stream == o.next && RunDrain(cfg, r, pcm).events == r.events + o.events
    decreases |pcm|
  {
    if |pcm| >= cfg.hop {
      var r' := RunFrame(cfg, r, pcm[..cfg.hop]);
      RunDrainIsDrain(cfg, r', pcm[cfg.hop..]);
      var a := FrameStep(cfg, r.stream, pcm[..cfg.hop]);
      var b := Drain(cfg, a.next, pcm[cfg.hop..]);
      assert r.events + (a.events + b.events) == (r.events + a.events) + b.events;
    } else {
      assert r.events + [] == r.events;
    }
  }

  /** Each action moves the recorded stream exactly as the class's method moves the real one. */
  lemma RunIsStream(cfg: Config, r: Run, pcm: seq<Sample>, now: real, force: bool)
    requires cfg.hop > 0
    ensures var o := FeedPcm(cfg, r.stream, pcm, now);
      RunFeed(cfg, r, pcm, now).stream == o.next && RunFeed(cfg, r, pcm, now).events == r.events + o.events
    ensures var o := FlushStream(cfg, r.stream, force);
      RunFlush(cfg, r, force).stream == o.next && RunFlush(cfg, r, force).events == r.events + o.events
  {
    var r0 := r.(stream := r.stream.(carry := []));
    RunDrainIsDrain(cfg, r0, r.stream.carry + pcm);
    var a := Drain(cfg, r0.stream, r.stream.carry + pcm);
    var b := PartialStep(cfg, a.next, now);
    assert r.events + (a.events + b.events) == (r.events + a.events) + b.events;
  }

  // ----- The event grammar

  /** (SpeechStarted PartialSnapshot* (SegmentReady | SpeechDropped))*, as an automaton with one state bit. */
  function Scan(open: bool, events: seq<StreamEvent>): Option<bool>
    decreases |events|
  {
    if events == [] then Some(open)
    else
      match events[0]
      case SpeechStarted => if open then None else Scan(true, events[1..])
      case PartialSnapshot(_) => if open then Scan(true, events[1..]) else None
      case _ => if open then Scan(false, events[1..]) else None
  }

  lemma {:induction false} ScanAppend(open: bool, a: seq<StreamEvent>, b: seq<StreamEvent>)
    requires Scan(open, a).Some?
    ensures Scan(open, a + b) == Scan(Scan(open, a).value, b)
    decreases |a|
  {
    if a == [] {
      assert a + b == b;
    } else {
      assert (a + b)[1..] == a[1..] + b;
      ScanAppend(a[0].SpeechStarted? || a[0].PartialSnapshot?, a[1..], b);
    }
  }

  // ----- The invariant of every run

  /** Utterances of a run never overlap: each was cut before the VAD was reset for the next. */
  ghost predicate InOrder(utterances: seq<Utterance>) {
    forall i, j :: 0 <= i < j < |utterances| ==> utterances[i].cutAt <= utterances[j].resetAt
  }

  /**
   The segment that frames [first, last) make when they are cut at `cutAt`: its stamp is its true
   position shifted right by the frames trimmed between `last` and `cutAt`.
   */
  function Stamped(hop: nat, heard: seq<Frame>, first: nat, last: nat, cutAt: nat, stop: bool): Segment
    requires first <= last <= |heard|
  {
    Segment(Flatten(heard[first..last]), stop, None,
            Some(Milliseconds(At(first + (cutAt - last), hop))), Some(Milliseconds(At(cutAt, hop))), None)
  }

  /** Whether frames first up to last are handed on when they are closed. */
  predicate LongEnough(cfg: Config, frames: int, closing: Closing) {
    closing == ByFlush(true) || At(frames, cfg.hop) >= cfg.MinSamples()
  }

  /**
   Where frames first up to last end before the cut. A flush cuts nothing off. Otherwise the cut closes
   `silenceFrames` frames against speech behind one for it, and of these `keepTailFrames`, if there are
   as many, are kept.
   */
  ghost predicate EndsWell(t: Tunables, flags: seq<bool>, last: nat, cutAt: nat, closing: Closing)
    requires last <= cutAt <= |flags|
  {
    if closing.ByFlush? then last == cutAt
    else
      var spoken := cutAt - t.silenceFrames;
      && 0 < spoken && flags[spoken - 1] && (forall k :: spoken <= k < cutAt ==> !flags[k])
      && last == spoken + Min(t.keepTailFrames, t.silenceFrames)
  }

  /**
   The record of an utterance is true: where it opened, where it ended, which frames it is, and that it
   became the segment of those frames unless it was too short.
   */
  ghost predicate Sound(cfg: Config, u: Utterance, heard: seq<Frame>, flags: seq<bool>)
    requires |flags| == |heard|
  {
    && u.resetAt <= u.first < u.last <= u.cutAt <= |heard|
    && u.resetAt < u.confirmedAt <= u.last
    && u.first == Max(u.resetAt, u.confirmedAt - cfg.tunables.preSpeechFrames)
    && FirstOpens(flags, cfg.tunables.startFrames, u.resetAt, u.confirmedAt)
    && EndsWell(cfg.tunables, flags, u.last, u.cutAt, u.closing)
    && u.segment == (if LongEnough(cfg, u.last - u.first, u.closing) then
                       Some(Stamped(cfg.hop, heard, u.first, u.last, u.cutAt, u.closing == ByFlush(true)))
                     else None)
  }

  function SegmentsIn(utterances: seq<Utterance>): seq<Segment> {
    if utterances == [] then []
    else
      var last := utterances[|utterances| - 1];
      SegmentsIn(utterances[..|utterances| - 1]) + if last.segment.Some? then [last.segment.value] else []
  }

  lemma SegmentsInSnoc(utterances: seq<Utterance>, added: seq<Utterance>)
    requires |added| <= 1
    ensures SegmentsIn(utterances + added) == SegmentsIn(utterances) + SegmentsIn(added)
  {
    if added == [] {
      assert utterances + added == utterances;
    } else {
      assert (utterances + added)[..|utterances|] == utterances && added[..0] == [];
    }
  }

  /** The stream is in step with the record of the frames. */
  ghost predicate StateInv(cfg: Config, r: Run) {
    && Remembers(cfg.tunables, r.stream.vad, r.stream.heard, r.flags, r.resetAt, r.confirmedAt)
    && Watches(cfg.tunables, r.stream.vad.speaking, r.flags, r.resetAt, r.confirmedAt)
    && (forall f <- r.stream.heard :: |f| == cfg.hop)
    && r.stream.consumed == At(|r.stream.heard|, cfg.hop)
    && r.stream.announced == r.stream.vad.speaking
  }

  /** The events so far are grammatical, the utterances sound and in order, and the segments of both the same. */
  ghost predicate LogInv(cfg: Config, r: Run)
    requires |r.flags| == |r.stream.heard|
  {
    && Scan(false, r.events) == Some(r.stream.vad.speaking)
    && SegmentsOf(r.events) == SegmentsIn(r.utterances)
    && (forall u <- r.utterances :: Sound(cfg, u, r.stream.heard, r.flags) && u.cutAt <= r.resetAt)
    && InOrder(r.utterances)
  }

  ghost predicate RunInv(cfg: Config, r: Run) { StateInv(cfg, r) && LogInv(cfg, r) }

  lemma SoundGrows(
    cfg: Config, u: Utterance, heard: seq<Frame>, flags: seq<bool>, heard': seq<Frame>, flags': seq<bool>)
    requires |flags| == |heard| && |flags'| == |heard'| && heard <= heard' && flags <= flags'
    requires Sound(cfg, u, heard, flags)
    ensures Sound(cfg, u, heard', flags')
  {
    hide At, Flatten, Milliseconds, Opens;
    assert heard'[u.first..u.last] == heard[u.first..u.last];
    assert forall k :: 0 <= k < |flags| ==> flags'[k] == flags[k];
    forall m | m <= u.confirmedAt
      ensures Opens(flags', cfg.tunables.startFrames, u.resetAt, m) <==> Opens(flags, cfg.tunables.startFrames, u.resetAt, m)
    {
      OpensGrows(flags, flags', cfg.tunables.startFrames, u.resetAt, m);
    }
  }

  /** One step's events and the utterance it closed extend the log, if they fit each other and the step's end. */
  lemma ExtendLog(cfg: Config, r: Run, r': Run, events: seq<StreamEvent>, added: seq<Utterance>)
    requires StateInv(cfg, r) && LogInv(cfg, r)
    requires r'.events == r.events + events && r'.utterances == r.utterances + added
    requires |r'.flags| == |r'.stream.heard| && r.stream.heard <= r'.stream.heard && r.flags <= r'.flags
    requires r'.resetAt >= r.resetAt
    requires Scan(r.stream.vad.speaking, events) == Some(r'.stream.vad.speaking)
    requires |added| <= 1 && SegmentsOf(events) == SegmentsIn(added)
    requires forall u <- added ::
      Sound(cfg, u, r'.stream.heard, r'.flags) && r'.resetAt == u.cutAt && u.resetAt == r.resetAt
    ensures LogInv(cfg, r')
  {
    hide At, Remembers, Sound, SegmentsIn, Watches;
    StateBuffers(cfg, r);
    ScanAppend(false, r.events, events);
    SegmentsOfAppend(r.events, events);
    SegmentsInSnoc(r.utterances, added);
    forall u <- r.utterances ensures Sound(cfg, u, r'.stream.heard, r'.flags) {
      SoundGrows(cfg, u, r.stream.heard, r.flags, r'.stream.heard, r'.flags);
    }
    assert InOrder(r'.utterances) by {
      forall i, j | 0 <= i < j < |r'.utterances| ensures r'.utterances[i].cutAt <= r'.utterances[j].resetAt {
        if j == |r.utterances| {
          assert r'.utterances[j] in added && r'.utterances[i] in r.utterances;
        }
      }
    }
  }

  /** Frames first..last hold (last - first) hops, so the stamp's start is never clamped. */
  lemma StampIsExact(cfg: Config, heard: seq<Frame>, first: nat, last: nat, cutAt: nat, stop: bool)
    requires first < last <= cutAt && last <= |heard| && cfg.hop > 0
    requires forall f <- heard :: |f| == cfg.hop
    ensures |Flatten(heard[first..last])| > 0
    ensures At(cutAt, cfg.hop) - |Flatten(heard[first..last])| == At(first + (cutAt - last), cfg.hop) >= 0
    ensures TimedSegment(Flatten(heard[first..last]), At(cutAt, cfg.hop), stop)
         == Stamped(cfg.hop, heard, first, last, cutAt, stop)
  {
    hide Flatten;
    FlattenLength(heard[first..last], cfg.hop);
    Distribute(last - first, first + (cutAt - last), cfg.hop);
    Distribute(1, last - first - 1, cfg.hop);
  }

  /** What makes an utterance sound, told by frame numbers alone. */
  lemma SliceIsSound(
    cfg: Config, heard: seq<Frame>, flags: seq<bool>, resetAt: nat, confirmedAt: nat, first: nat, last: nat, cutAt: nat,
    closing: Closing)
    requires cfg.hop > 0 && |flags| == |heard| && forall f <- heard :: |f| == cfg.hop
    requires resetAt <= first < last <= cutAt <= |heard| && resetAt < confirmedAt <= last
    requires first == Max(resetAt, confirmedAt - cfg.tunables.preSpeechFrames)
    requires FirstOpens(flags, cfg.tunables.startFrames, resetAt, confirmedAt)
    requires EndsWell(cfg.tunables, flags, last, cutAt, closing)
    ensures |Flatten(heard[first..last])| == At(last - first, cfg.hop) > 0
    ensures
      var pcm := Flatten(heard[first..last]);
      var segment :=
        if closing == ByFlush(true) || |pcm| >= cfg.MinSamples() then
          Some(TimedSegment(pcm, At(cutAt, cfg.hop), closing == ByFlush(true)))
        else None;
      Sound(cfg, Utterance(segment, resetAt, confirmedAt, first, last, cutAt, closing), heard, flags)
  {
    hide At, Flatten, Stamped, TimedSegment, FirstOpens, EndsWell;
    StampIsExact(cfg, heard, first, last, cutAt, closing == ByFlush(true));
    FlattenedFrames(heard[first..last], cfg.hop);
  }

  /** The events of one frame: at most one, and which one is settled by the VAD's transition. */
  lemma FrameEvents(cfg: Config, s: Stream, frame: Frame)
    requires cfg.Valid() && s.announced == s.vad.speaking && (s.vad.speaking || s.vad.audio == [])
    ensures
      var o := FrameStep(cfg, s, frame);
      var r := Step(cfg.tunables, s.vad, frame, Clamp01(cfg.backend(s.heard + [frame])));
      && o.next == Stream(r.next, s.heard + [frame], s.carry, s.consumed + cfg.hop, r.next.speaking, o.next.lastPartial)
      && match r.segment
         case None =>
           if !s.vad.speaking && r.next.speaking then o.events == [SpeechStarted]
           else o.events == [] && r.next.speaking == s.vad.speaking
         case Some(pcm) =>
           && s.vad.speaking && !r.next.speaking
           && o.events == (if |pcm| < cfg.MinSamples() then [SpeechDropped]
                           else [SegmentReady(TimedSegment(pcm, s.consumed + cfg.hop, false))])
  {
  }

  /** A silence cut: what the VAD returned, and what the record says of it. */
  lemma CutIsSound(
    cfg: Config, s: VadState, heard: seq<Frame>, flags: seq<bool>, resetAt: nat, confirmedAt: nat, frame: Frame, raw: real)
    requires cfg.Valid() && |frame| == cfg.hop && (forall f <- heard :: |f| == cfg.hop) && s.speaking
    requires Remembers(cfg.tunables, s, heard, flags, resetAt, confirmedAt)
    requires Watches(cfg.tunables, true, flags, resetAt, confirmedAt)
    requires Step(cfg.tunables, s, frame, raw).segment.Some?
    ensures
      var n, first := |heard| + 1, |heard| - |s.audio|;
      var last := n - cfg.tunables.Trim();
      var pcm := Step(cfg.tunables, s, frame, raw).segment.value;
      var segment := if |pcm| >= cfg.MinSamples() then Some(TimedSegment(pcm, At(n, cfg.hop), false)) else None;
      && 0 <= first && 0 <= last
      && Sound(cfg, Utterance(segment, resetAt, confirmedAt, first, last, n, BySilence),
               heard + [frame], flags + [IsSpeech(cfg.tunables, s, raw)])
  {
    hide Step, At, IsSpeech, Sound, Flatten, TimedSegment, Opens;
    CutIsSlice(cfg.tunables, s, heard, flags, resetAt, confirmedAt, frame, raw);
    var n, first, now := |heard| + 1, |heard| - |s.audio|, flags + [IsSpeech(cfg.tunables, s, raw)];
    forall m | m <= |flags|
      ensures Opens(now, cfg.tunables.startFrames, resetAt, m) <==> Opens(flags, cfg.tunables.startFrames, resetAt, m)
    {
      OpensGrows(flags, now, cfg.tunables.startFrames, resetAt, m);
    }
    SliceIsSound(cfg, heard + [frame], now, resetAt, confirmedAt, first, n - cfg.tunables.Trim(), n, BySilence);
  }

  lemma FrameUtterance(cfg: Config, r: Run, frame: Frame)
    requires cfg.Valid() && StateInv(cfg, r) && |frame| == cfg.hop
    ensures
      var r' := RunFrame(cfg, r, frame);
      var o := FrameStep(cfg, r.stream, frame);
      var added := Closed(r, o, |r.stream.heard| + 1 - cfg.tunables.Trim(), |r.stream.heard| + 1, BySilence);
      && |r'.flags| == |r'.stream.heard|
      && SegmentsOf(o.events) == SegmentsIn(added)
      && forall u <- added ::
           Sound(cfg, u, r'.stream.heard, r'.flags) && r'.resetAt == u.cutAt && u.resetAt == r.resetAt
  {
    hide FrameStep, Step, At, Sound, Remembers, TimedSegment, IsSpeech, Watches, Clamp01;
    var s := r.stream;
    var raw := Clamp01(cfg.backend(s.heard + [frame]));
    var step := Step(cfg.tunables, s.vad, frame, raw);
    StateBuffers(cfg, r);
    FrameEvents(cfg, s, frame);
    if step.segment.Some? {
      NextFrame(|s.heard|, cfg.hop);
      assert s.vad.speaking;
      assert SegmentsIn([]) == [];
      CutIsSound(cfg, s.vad, s.heard, r.flags, r.resetAt, r.confirmedAt, frame, raw);
    }
  }

  lemma StateBuffers(cfg: Config, r: Run)
    requires StateInv(cfg, r)
    ensures |r.flags| == |r.stream.heard| && r.resetAt <= |r.stream.heard|
    ensures r.stream.vad.speaking || r.stream.vad.audio == []
    ensures r.stream.announced == r.stream.vad.speaking
  {
  }

  lemma RunFrameState(cfg: Config, r: Run, frame: Frame)
    requires cfg.Valid() && StateInv(cfg, r) && |frame| == cfg.hop
    ensures var r' := RunFrame(cfg, r, frame); StateInv(cfg, r') && r'.resetAt >= r.resetAt
  {
    hide FrameStep, Step, At, Remembers, Watches;
    var s := r.stream;
    var raw := Clamp01(cfg.backend(s.heard + [frame]));
    StateBuffers(cfg, r);
    FrameEvents(cfg, s, frame);
    StepWatches(cfg.tunables, s.vad, s.heard, r.flags, r.resetAt, r.confirmedAt, frame, raw);
    StepRemembers(cfg.tunables, s.vad, s.heard, r.flags, r.resetAt, r.confirmedAt, frame, raw);
    NextFrame(|s.heard|, cfg.hop);
  }

  lemma RunFrameKeeps(cfg: Config, r: Run, frame: Frame)
    requires cfg.Valid() && RunInv(cfg, r) && |frame| == cfg.hop
    ensures RunInv(cfg, RunFrame(cfg, r, frame))
  {
    hide FrameStep, Step, Sound, StateInv, LogInv;
    var s, r' := r.stream, RunFrame(cfg, r, frame);
    var o := FrameStep(cfg, s, frame);
    StateBuffers(cfg, r);
    FrameEvents(cfg, s, frame);
    RunFrameState(cfg, r, frame);
    FrameUtterance(cfg, r, frame);
    ExtendLog(cfg, r, r', o.events,
              Closed(r, o, |s.heard| + 1 - cfg.tunables.Trim(), |s.heard| + 1, BySilence));
  }

  lemma {:induction false} RunDrainKeeps(cfg: Config, r: Run, pcm: seq<Sample>)
    requires cfg.Valid() && RunInv(cfg, r)
    ensures RunInv(cfg, RunDrain(cfg, r, pcm))
    decreases |pcm|
  {
    if |pcm| >= cfg.hop {
      RunFrameKeeps(cfg, r, pcm[..cfg.hop]);
      RunDrainKeeps(cfg, RunFrame(cfg, r, pcm[..cfg.hop]), pcm[cfg.hop..]);
    }
  }

  lemma RunFeedKeeps(cfg: Config, r: Run, pcm: seq<Sample>, now: real)
    requires cfg.Valid() && RunInv(cfg, r)
    ensures RunInv(cfg, RunFeed(cfg, r, pcm, now))
  {
    hide At, Sound, Remembers, RunDrain, Watches;
    var r0 := r.(stream := r.stream.(carry := []));
    RunDrainKeeps(cfg, r0, r.stream.carry + pcm);
    var a := RunDrain(cfg, r0, r.stream.carry + pcm);
    StateBuffers(cfg, a);
    assert a.stream.heard <= PartialStep(cfg, a.stream, now).next.heard;
    ExtendLog(cfg, a, RunFeed(cfg, r, pcm, now), PartialStep(cfg, a.stream, now).events, []);
  }

  lemma FlushUtterance(cfg: Config, r: Run, force: bool)
    requires cfg.Valid() && StateInv(cfg, r)
    ensures
      var r', n, o := RunFlush(cfg, r, force), |r.stream.heard|, FlushStream(cfg, r.stream, force);
      var added := Closed(r, o, n, n, ByFlush(force));
      && SegmentsOf(o.events) == SegmentsIn(added)
      && (forall u <- added ::
           Sound(cfg, u, r'.stream.heard, r'.flags) && r'.resetAt == u.cutAt && u.resetAt == r.resetAt)
      && if r.stream.vad.speaking then |o.events| == 1 && (o.events[0].SegmentReady? || o.events[0].SpeechDropped?)
         else o.events == []
  {
    hide At, Sound, Flatten, FirstOpens, NeverOpens, TimedSegment;
    var s, n := r.stream, |r.stream.heard|;
    if s.vad.speaking {
      var first := n - |s.vad.audio|;
      assert s.heard[first..n] == s.vad.audio;
      SliceIsSound(cfg, s.heard, r.flags, r.resetAt, r.confirmedAt, first, n, n, ByFlush(force));
    }
  }

  lemma FlushState(cfg: Config, r: Run, force: bool)
    requires cfg.Valid() && StateInv(cfg, r)
    ensures
      var r' := RunFlush(cfg, r, force);
      && StateInv(cfg, r') && !r'.stream.vad.speaking && r'.resetAt >= r.resetAt
      && r'.stream.heard == r.stream.heard && r'.flags == r.flags
  {
    hide At, SegmentsOf, Flatten;
  }

  /** A flush closes the open utterance with exactly one event, and is silent if none is open. */
  lemma RunFlushKeeps(cfg: Config, r: Run, force: bool)
    requires cfg.Valid() && RunInv(cfg, r)
    ensures RunInv(cfg, RunFlush(cfg, r, force)) && !RunFlush(cfg, r, force).stream.vad.speaking
    ensures var o := FlushStream(cfg, r.stream, force);
      if r.stream.vad.speaking then |o.events| == 1 && (o.events[0].SegmentReady? || o.events[0].SpeechDropped?)
      else o.events == []
  {
    FlushState(cfg, r, force);
    StateBuffers(cfg, r);
    hide At, Sound, StateInv, FlushStream, LogInv, SegmentsIn, SegmentsOf;
    var o, n := FlushStream(cfg, r.stream, force), |r.stream.heard|;
    FlushUtterance(cfg, r, force);
    ExtendLog(cfg, r, RunFlush(cfg, r, force), o.events, Closed(r, o, n, n, ByFlush(force)));
  }

  // ----- The audio that was fed

  /** Processed frames and carry are the audio that was fed: all of it, once and in order. */
  ghost predicate Accounted(r: Run) { Flatten(r.stream.heard) + r.stream.carry == r.fed }

  lemma {:induction false} DrainAccounts(cfg: Config, r: Run, pcm: seq<Sample>)
    requires cfg.hop > 0
    ensures var s := RunDrain(cfg, r, pcm).stream; Flatten(s.heard) + s.carry == Flatten(r.stream.heard) + pcm
    ensures RunDrain(cfg, r, pcm).fed == r.fed
    decreases |pcm|
  {
    hide Flatten, Step;
    if |pcm| >= cfg.hop {
      var frame, rest := pcm[..cfg.hop], pcm[cfg.hop..];
      DrainAccounts(cfg, RunFrame(cfg, r, frame), rest);
      FlattenSnoc(r.stream.heard, frame);
      assert pcm == frame + rest;
      assert (Flatten(r.stream.heard) + frame) + rest == Flatten(r.stream.heard) + (frame + rest);
    }
  }

  lemma FeedAccounts(cfg: Config, r: Run, pcm: seq<Sample>, now: real)
    requires cfg.hop > 0 && Accounted(r)
    ensures Accounted(RunFeed(cfg, r, pcm, now)) && RunFeed(cfg, r, pcm, now).fed == r.fed + pcm
  {
    hide Flatten, RunDrain;
    var r0 := r.(stream := r.stream.(carry := []));
    DrainAccounts(cfg, r0, r.stream.carry + pcm);
    assert Flatten(r.stream.heard) + (r.stream.carry + pcm) == r.fed + pcm;
  }

  lemma FlushAccounts(cfg: Config, r: Run, force: bool)
    requires Accounted(r)
    ensures Accounted(RunFlush(cfg, r, force)) && RunFlush(cfg, r, force).fed == r.fed
  {
  }

  // ----- Every run

  lemma StartInv(cfg: Config)
    requires cfg.Valid()
    ensures RunInv(cfg, START) && Accounted(START)
  {
    assert At(0, cfg.hop) == 0;
  }

  /**
   After every run of feeds and flushes, for every backend and every clock, the invariant holds and
   the processed frames with the carry are the audio of the feeds.
   */
  lemma {:induction false} EveryRun(cfg: Config, actions: seq<Action>)
    requires cfg.Valid() && EvenFeeds(actions)
    ensures var r := RunAll(cfg, actions); RunInv(cfg, r) && Accounted(r) && r.fed == FedBy(actions)
  {
    hide RunInv, RunFeed, RunFlush, Accounted;
    if actions == [] {
      StartInv(cfg);
    } else {
      var last := |actions| - 1;
      EveryRun(cfg, actions[..last]);
      var r := RunAll(cfg, actions[..last]);
      match actions[last] {
        case Feed(bytes, now) =>
          RunFeedKeeps(cfg, r, DecodePcm(bytes), now);
          FeedAccounts(cfg, r, DecodePcm(bytes), now);
        case Flush(force) =>
          RunFlushKeeps(cfg, r, force);
          FlushAccounts(cfg, r, force);
          assert FedBy(actions[..last]) + [] == FedBy(actions[..last]);
      }
    }
  }
}
