/**
 When the stream takes a snapshot of the open utterance, and what it holds
 (backend/streaming/audio_stream.py, feed).
 */
module Snapshots {
  import opened Basics
  import opened Events
  import opened Vad
  import opened AudioStream
  import opened Timeline

  ghost predicate Opened(events: seq<StreamEvent>) { SpeechStarted in events }

  ghost predicate Shown(events: seq<StreamEvent>) { exists e :: e in events && e.PartialSnapshot? }

  /** What an action adds to the events of a run. */
  ghost predicate Adds(r: Run, r': Run, more: seq<StreamEvent>) { r'.events == r.events + more }

  // ----- One feed

  lemma FrameClock(cfg: Config, s: Stream, frame: Frame)
    ensures
      var o := FrameStep(cfg, s, frame);
      && (forall e <- o.events :: !e.PartialSnapshot?)
      && o.next.lastPartial == if Opened(o.events) then 0.0 else s.lastPartial
  {
    hide Step;
  }

  lemma {:induction false} DrainClock(cfg: Config, s: Stream, pcm: seq<Sample>)
    requires cfg.hop > 0
    ensures
      var o := Drain(cfg, s, pcm);
      && (forall e <- o.events :: !e.PartialSnapshot?)
      && o.next.lastPartial == if Opened(o.events) then 0.0 else s.lastPartial
    decreases |pcm|
  {
    hide FrameStep;
    if |pcm| >= cfg.hop {
      var a := FrameStep(cfg, s, pcm[..cfg.hop]);
      FrameClock(cfg, s, pcm[..cfg.hop]);
      DrainClock(cfg, a.next, pcm[cfg.hop..]);
      var b := Drain(cfg, a.next, pcm[cfg.hop..]);
      assert forall e :: e in a.events + b.events <==> e in a.events || e in b.events;
    }
  }

  /** The samples of the open utterance so far are a range of the audio that was fed. */
  ghost predicate IsOpenUtterance(cfg: Config, r: Run, pcm: seq<Sample>) {
    var first := Max(r.resetAt, r.confirmedAt - cfg.tunables.preSpeechFrames);
    && 0 <= At(first, cfg.hop) <= At(|r.stream.heard|, cfg.hop) <= |r.fed|
    && pcm == r.fed[At(first, cfg.hop)..At(|r.stream.heard|, cfg.hop)]
  }

  /** The time of the last snapshot that counts behind events `more` from state r: none of an utterance opened since. */
  ghost function LastBefore(r: Run, more: seq<StreamEvent>): real {
    if Opened(more) then 0.0 else r.stream.lastPartial
  }

  /**
   A feed ends with a snapshot if and only if snapshots are on, somebody is speaking, the interval since the
   last one of this utterance is over, and the utterance has its least length; it holds the utterance so far.
   */
  ghost predicate ShowsInTime(cfg: Config, r: Run, r': Run, now: real, more: seq<StreamEvent>) {
    var last, open := LastBefore(r, more), At(|r'.stream.vad.audio|, cfg.hop);
    && (Shown(more) <==> cfg.enablePartial && r'.stream.vad.speaking && now - last >= cfg.partialInterval
                         && open >= cfg.FirstPartialSamples())
    && (forall e <- more :: e.PartialSnapshot? ==> IsOpenUtterance(cfg, r', e.snapshot) && |e.snapshot| == open)
    && r'.stream.lastPartial == if Shown(more) then now else last
  }

  /** A feed is its frames, which show nothing, and the step that may. */
  lemma FeedParts(cfg: Config, r: Run, pcm: seq<Sample>, now: real) returns (a: Output, b: Output)
    requires cfg.hop > 0
    ensures RunFeed(cfg, r, pcm, now).stream == b.next && Adds(r, RunFeed(cfg, r, pcm, now), a.events + b.events)
    ensures (forall e <- a.events :: !e.PartialSnapshot?) && a.next.lastPartial == LastBefore(r, a.events)
    ensures b == PartialStep(cfg, a.next, now)
  {
    var s0 := r.stream.(carry := []);
    a := Drain(cfg, s0, r.stream.carry + pcm);
    b := PartialStep(cfg, a.next, now);
    RunIsStream(cfg, r, pcm, now, true);
    FeedIsDrain(cfg, r.stream, pcm, now);
    DrainClock(cfg, s0, r.stream.carry + pcm);
    hide Drain, RunFeed, FeedPcm, PartialStep, FlushStream;
  }

  lemma FeedShows(cfg: Config, r: Run, pcm: seq<Sample>, now: real) returns (more: seq<StreamEvent>)
    requires cfg.Valid() && RunInv(cfg, r) && Accounted(r)
    ensures var r' := RunFeed(cfg, r, pcm, now); Adds(r, r', more) && ShowsInTime(cfg, r, r', now, more)
  {
    hide RunFeed, RunInv, Accounted, PartialStep, IsOpenUtterance, Flatten, At;
    var r' := RunFeed(cfg, r, pcm, now);
    var a, b := FeedParts(cfg, r, pcm, now);
    more := a.events + b.events;
    RunFeedKeeps(cfg, r, pcm, now);
    FeedAccounts(cfg, r, pcm, now);
    OpenUtterance(cfg, r');
    StepShows(cfg, a.next, now);
    PartsShow(cfg, r, r', now, a, b);
  }

  lemma PartsShow(cfg: Config, r: Run, r': Run, now: real, a: Output, b: Output)
    requires (forall e <- a.events :: !e.PartialSnapshot?) && a.next.lastPartial == LastBefore(r, a.events)
    requires r'.stream == b.next == a.next.(lastPartial := b.next.lastPartial)
    requires
      var open := r'.stream.vad.audio;
      && |Flatten(open)| == At(|open|, cfg.hop)
      && (r'.stream.vad.speaking ==> open != [] && IsOpenUtterance(cfg, r', Flatten(open)))
      && (b.events == [] || b.events == [PartialSnapshot(Flatten(open))])
      && (b.events != [] <==> cfg.enablePartial && r'.stream.vad.speaking && now - a.next.lastPartial >= cfg.partialInterval
                              && open != [] && |Flatten(open)| >= cfg.FirstPartialSamples())
    requires b.next.lastPartial == if b.events == [] then a.next.lastPartial else now
    ensures ShowsInTime(cfg, r, r', now, a.events + b.events)
  {
    hide IsOpenUtterance, Flatten, At;
    var more := a.events + b.events;
    assert forall e :: e in more <==> e in a.events || e in b.events;
    assert Opened(more) <==> Opened(a.events);
    if b.events != [] {
      assert b.events[0] in more;
    }
  }

  lemma FeedIsDrain(cfg: Config, s: Stream, pcm: seq<Sample>, now: real)
    requires cfg.hop > 0
    ensures
      var a := Drain(cfg, s.(carry := []), s.carry + pcm);
      var b := PartialStep(cfg, a.next, now);
      FeedPcm(cfg, s, pcm, now) == Output(b.next, a.events + b.events)
  {
  }

  lemma StepShows(cfg: Config, s: Stream, now: real)
    ensures
      var o := PartialStep(cfg, s, now);
      && o.next == s.(lastPartial := o.next.lastPartial)
      && (o.events == [] || o.events == [PartialSnapshot(Flatten(s.vad.audio))])
      && (o.events != [] <==> cfg.enablePartial && s.vad.speaking && now - s.lastPartial >= cfg.partialInterval
                              && s.vad.audio != [] && |Flatten(s.vad.audio)| >= cfg.FirstPartialSamples())
      && o.next.lastPartial == if o.events == [] then s.lastPartial else now
  {
  }

  lemma OpenUtterance(cfg: Config, r: Run)
    requires cfg.Valid() && RunInv(cfg, r) && Accounted(r)
    ensures |Flatten(r.stream.vad.audio)| == At(|r.stream.vad.audio|, cfg.hop)
    ensures r.stream.vad.speaking ==> r.stream.vad.audio != [] && IsOpenUtterance(cfg, r, Flatten(r.stream.vad.audio))
  {
    hide LogInv, Flatten, At, Watches;
    var heard, n := r.stream.heard, |r.stream.heard| - |r.stream.vad.audio|;
    if r.stream.vad.speaking {
      FlattenSlice(heard, cfg.hop, n, |heard|);
      FlattenedFrames(heard, cfg.hop);
      assert heard[n..|heard|] == r.stream.vad.audio;
      assert Flatten(heard) <= r.fed;
    }
    FlattenedFrames(r.stream.vad.audio, cfg.hop);
  }

  // ----- Every run

  /** The events that action k of a run adds. */
  ghost function AddedBy(cfg: Config, actions: seq<Action>, k: nat): seq<StreamEvent>
    requires cfg.hop > 0 && EvenFeeds(actions) && k < |actions|
  {
    var before, after := RunAll(cfg, actions[..k]).events, RunAll(cfg, actions[..k + 1]).events;
    if |before| <= |after| then after[|before|..] else []
  }

  lemma ActionShows(cfg: Config, actions: seq<Action>, k: nat)
    requires cfg.Valid() && EvenFeeds(actions) && k < |actions|
    ensures
      var r, r', more := RunAll(cfg, actions[..k]), RunAll(cfg, actions[..k + 1]), AddedBy(cfg, actions, k);
      match actions[k]
      case Feed(bytes, now) => ShowsInTime(cfg, r, r', now, more)
      case Flush(force) => !Shown(more) && !Opened(more) && r'.stream.lastPartial == r.stream.lastPartial
  {
    EveryRun(cfg, actions[..k]);
    assert actions[..k + 1][..k] == actions[..k];
    hide RunInv, Accounted, ShowsInTime, RunFeed, RunFlush, Shown, Opened;
    var r := RunAll(cfg, actions[..k]);
    match actions[k] {
      case Feed(bytes, now) =>
        assert RunAll(cfg, actions[..k + 1]) == RunFeed(cfg, r, DecodePcm(bytes), now);
        hide RunAll;
        var more := FeedShows(cfg, r, DecodePcm(bytes), now);
        assert AddedBy(cfg, actions, k) == more;
      case Flush(force) =>
        assert RunAll(cfg, actions[..k + 1]) == RunFlush(cfg, r, force);
        hide RunAll;
        var more := FlushShows(cfg, r, force);
        assert AddedBy(cfg, actions, k) == more;
    }
  }

  lemma FlushShows(cfg: Config, r: Run, force: bool) returns (more: seq<StreamEvent>)
    ensures var r' := RunFlush(cfg, r, force);
      Adds(r, r', more) && !Shown(more) && !Opened(more) && r'.stream.lastPartial == r.stream.lastPartial
  {
    more := FlushStream(cfg, r.stream, force).events;
  }

  /** Since action i no utterance has opened, so the last snapshot is at least as late as that of action i. */
  lemma {:induction false} ClockSince(cfg: Config, actions: seq<Action>, i: nat, k: nat, now: real)
    requires cfg.Valid() && EvenFeeds(actions) && i <= k < |actions| && cfg.partialInterval >= 0.0
    requires actions[i].Feed? && actions[i].now == now && Shown(AddedBy(cfg, actions, i))
    requires forall m :: i < m <= k ==> !Opened(AddedBy(cfg, actions, m))
    ensures RunAll(cfg, actions[..k + 1]).stream.lastPartial >= now
    decreases k
  {
    hide RunAll, Shown, Opened, AddedBy;
    ActionShows(cfg, actions, k);
    if k > i {
      ClockSince(cfg, actions, i, k - 1, now);
    }
  }

  /** Two snapshots of one utterance are at least the interval apart, whatever happens between them. */
  lemma SnapshotsAreThrottled(cfg: Config, actions: seq<Action>, i: nat, j: nat)
    requires cfg.Valid() && EvenFeeds(actions) && i < j < |actions| && cfg.partialInterval >= 0.0
    requires actions[i].Feed? && Shown(AddedBy(cfg, actions, i))
    requires actions[j].Feed? && Shown(AddedBy(cfg, actions, j))
    requires forall m :: i < m <= j ==> !Opened(AddedBy(cfg, actions, m))
    ensures actions[j].now - actions[i].now >= cfg.partialInterval
  {
    hide RunAll, Shown, Opened, AddedBy;
    ClockSince(cfg, actions, i, j - 1, actions[i].now);
    ActionShows(cfg, actions, j);
  }
}
