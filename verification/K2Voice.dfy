/**
 When the voice gate of the k2 stream has heard a voice, and what that decides at a cut
 (backend/streaming/k2_stream.py, _K2VoiceGate, _emit_buffered_segment).
 */
module K2Voice {
  import opened Basics
  import opened Vad
  import opened Smoothing
  import opened K2Stream
  import opened K2Runs

  // ----- The decisions on the frames since a reset

  /** The smoothed probability behind frame k - 1, when smoothing has started at frame n. */
  function SmoothedAt(cfg: GateConfig, heard: seq<Frame>, n: nat, k: nat): Option<real>
    requires k <= |heard|
  {
    if k <= n then None
    else Some(Smooth(cfg.alpha, SmoothedAt(cfg, heard, n, k - 1), Clamp01(cfg.backend(heard[..k]))))
  }

  /** Frame k counts as voice. */
  predicate Loud(cfg: GateConfig, heard: seq<Frame>, n: nat, k: nat)
    requires n <= k < |heard|
  {
    SmoothedAt(cfg, heard, n, k + 1).value > cfg.threshold
  }

  /** That is, the average of the backend's answers from frame n up to this one is above the threshold. */
  lemma LoudIsAverage(cfg: GateConfig, heard: seq<Frame>, n: nat, k: nat)
    requires n <= k < |heard|
    ensures Loud(cfg, heard, n, k) <==> Average(cfg.alpha, Answers(cfg.backend, heard, n, k + 1)) > cfg.threshold
  {
    SmoothedIsFolded(cfg, heard, n, k + 1);
    SmoothedIsAverage(cfg.alpha, Answers(cfg.backend, heard, n, k + 1));
  }

  lemma {:induction false} SmoothedIsFolded(cfg: GateConfig, heard: seq<Frame>, n: nat, k: nat)
    requires n <= k <= |heard|
    ensures SmoothedAt(cfg, heard, n, k) == Smoothed(cfg.alpha, Answers(cfg.backend, heard, n, k))
    decreases k
  {
    if k > n {
      SmoothedIsFolded(cfg, heard, n, k - 1);
      var raws := Answers(cfg.backend, heard, n, k - 1);
      assert Answers(cfg.backend, heard, n, k) == raws + [Clamp01(cfg.backend(heard[..k]))];
      SmoothedSnoc(cfg.alpha, raws, Clamp01(cfg.backend(heard[..k])));
    }
  }

  /** Frames m - startFrames up to m all count as voice. */
  ghost predicate VoiceBefore(cfg: GateConfig, heard: seq<Frame>, n: nat, m: int) {
    n + cfg.startFrames <= m <= |heard| && forall k :: m - cfg.startFrames <= k < m ==> Loud(cfg, heard, n, k)
  }

  /** Somewhere since frame n, `startFrames` frames in a row count as voice. */
  ghost predicate HasVoice(cfg: GateConfig, heard: seq<Frame>, n: nat) {
    exists m :: VoiceBefore(cfg, heard, n, m)
  }

  /** The gate remembers what it was given since it was reset behind n frames. */
  ghost predicate Tracks(cfg: GateConfig, g: Gate, n: nat) {
    && n <= |g.heard| && g.smoothed == SmoothedAt(cfg, g.heard, n, |g.heard|)
    && g.speechCount <= |g.heard| - n
    && (forall k :: |g.heard| - g.speechCount <= k < |g.heard| ==> Loud(cfg, g.heard, n, k))
    && (g.speechCount < |g.heard| - n ==> !Loud(cfg, g.heard, n, |g.heard| - g.speechCount - 1))
    && (g.hasVoice <==> HasVoice(cfg, g.heard, n))
  }

  lemma {:induction false} SmoothedStable(cfg: GateConfig, heard: seq<Frame>, frame: Frame, n: nat, k: nat)
    requires k <= |heard|
    ensures SmoothedAt(cfg, heard + [frame], n, k) == SmoothedAt(cfg, heard, n, k)
  {
    if k > n {
      SmoothedStable(cfg, heard, frame, n, k - 1);
      assert (heard + [frame])[..k] == heard[..k];
    }
  }

  lemma LoudStable(cfg: GateConfig, heard: seq<Frame>, frame: Frame, n: nat)
    ensures forall k :: n <= k < |heard| ==> (Loud(cfg, heard + [frame], n, k) <==> Loud(cfg, heard, n, k))
    ensures forall m :: m <= |heard| ==> (VoiceBefore(cfg, heard + [frame], n, m) <==> VoiceBefore(cfg, heard, n, m))
  {
    forall k | n <= k < |heard| ensures Loud(cfg, heard + [frame], n, k) <==> Loud(cfg, heard, n, k) {
      SmoothedStable(cfg, heard, frame, n, k + 1);
    }
    hide Loud;
  }

  /** One frame, whatever the backend answers, keeps the record true. */
  lemma FrameTracks(cfg: GateConfig, g: Gate, n: nat, frame: Frame)
    requires cfg.Valid() && Tracks(cfg, g, n)
    ensures Tracks(cfg, GateFrame(cfg, g, frame), n) && GateFrame(cfg, g, frame).heard == g.heard + [frame]
  {
    var g' := GateFrame(cfg, g, frame);
    var heard' := g.heard + [frame];
    SmoothedStable(cfg, g.heard, frame, n, |g.heard|);
    assert heard'[..|heard'|] == heard';
    LoudStable(cfg, g.heard, frame, n);
    var last := |g.heard|;
    assert Loud(cfg, heard', n, last) <==> g'.smoothed.value > cfg.threshold;
    VoiceNow(cfg, g, g', n);
  }

  /** The new frame is the end of a run of voice exactly if the count has reached the start length. */
  lemma VoiceNow(cfg: GateConfig, g: Gate, g': Gate, n: nat)
    requires cfg.Valid() && Tracks(cfg, g, n) && |g'.heard| == |g.heard| + 1
    requires forall k :: n <= k < |g.heard| ==> (Loud(cfg, g'.heard, n, k) <==> Loud(cfg, g.heard, n, k))
    requires forall m :: m <= |g.heard| ==> (VoiceBefore(cfg, g'.heard, n, m) <==> VoiceBefore(cfg, g.heard, n, m))
    requires g'.speechCount == if Loud(cfg, g'.heard, n, |g.heard|) then g.speechCount + 1 else 0
    requires g'.hasVoice == (g.hasVoice || g'.speechCount >= cfg.startFrames)
    ensures g'.hasVoice <==> HasVoice(cfg, g'.heard, n)
  {
    hide Loud;
    var m' := |g'.heard|;
    if g'.speechCount >= cfg.startFrames {
      assert VoiceBefore(cfg, g'.heard, n, m');
    }
    if g.hasVoice {
      var m :| VoiceBefore(cfg, g.heard, n, m);
      assert VoiceBefore(cfg, g'.heard, n, m);
    }
    if HasVoice(cfg, g'.heard, n) {
      var m :| VoiceBefore(cfg, g'.heard, n, m);
      if m <= |g.heard| {
        assert VoiceBefore(cfg, g.heard, n, m);
      }
    }
  }

  // ----- Any feeds since the reset

  /** The frames since the reset and the carry are the audio since the reset. */
  ghost predicate Listens(cfg: GateConfig, g: Gate, n: nat, audio: seq<Sample>) {
    && Tracks(cfg, g, n) && |g.carry| < cfg.hop
    && (forall k :: n <= k < |g.heard| ==> |g.heard[k]| == cfg.hop)
    && Flatten(g.heard[n..]) + g.carry == audio
  }

  lemma {:induction false} DrainListens(cfg: GateConfig, g: Gate, n: nat, pcm: seq<Sample>)
    requires cfg.Valid() && Tracks(cfg, g, n) && forall k :: n <= k < |g.heard| ==> |g.heard[k]| == cfg.hop
    ensures Listens(cfg, GateDrain(cfg, g, pcm), n, Flatten(g.heard[n..]) + pcm)
    decreases |pcm|
  {
    hide GateFrame, Flatten, Loud, HasVoice;
    if |pcm| >= cfg.hop {
      var frame, rest := pcm[..cfg.hop], pcm[cfg.hop..];
      var g' := GateFrame(cfg, g, frame);
      FrameTracks(cfg, g, n, frame);
      DrainListens(cfg, g', n, rest);
      FlattenSnoc(g.heard[n..], frame);
      assert g'.heard[n..] == g.heard[n..] + [frame];
      assert pcm == frame + rest;
      assert (Flatten(g.heard[n..]) + frame) + rest == Flatten(g.heard[n..]) + (frame + rest);
    }
  }

  lemma FeedListens(cfg: GateConfig, g: Gate, n: nat, audio: seq<Sample>, bytes: seq<Byte>)
    requires cfg.Valid() && cfg.enabled && Listens(cfg, g, n, audio) && |bytes| % 2 == 0
    ensures Listens(cfg, FeedGate(cfg, g, bytes), n, audio + DecodePcm(bytes))
  {
    hide GateDrain, Flatten, Loud, HasVoice, DecodePcm;
    if bytes == [] {
      NoBytes();
      assert audio + [] == audio;
    } else {
      var pcm := g.carry + DecodePcm(bytes);
      DrainListens(cfg, g.(carry := []), n, pcm);
      assert Flatten(g.heard[n..]) + pcm == audio + DecodePcm(bytes);
    }
  }

  lemma NoBytes()
    ensures DecodePcm([]) == []
  {
  }

  lemma ResetListens(cfg: GateConfig, g: Gate)
    requires cfg.Valid() && cfg.enabled
    ensures Listens(cfg, ResetGate(cfg, g), |g.heard|, [])
  {
    assert g.heard[|g.heard|..] == [];
  }

  function GateFeeds(cfg: GateConfig, g: Gate, chunks: seq<seq<Byte>>): Gate
    requires cfg.hop > 0 && forall c <- chunks :: |c| % 2 == 0
  {
    if chunks == [] then g else FeedGate(cfg, GateFeeds(cfg, g, chunks[..|chunks| - 1]), chunks[|chunks| - 1])
  }

  function AudioOf(chunks: seq<seq<Byte>>): seq<Sample>
    requires forall c <- chunks :: |c| % 2 == 0
  {
    if chunks == [] then [] else AudioOf(chunks[..|chunks| - 1]) + DecodePcm(chunks[|chunks| - 1])
  }

  lemma {:induction false} FeedsListen(cfg: GateConfig, g: Gate, chunks: seq<seq<Byte>>)
    requires cfg.Valid() && cfg.enabled && forall c <- chunks :: |c| % 2 == 0
    ensures Listens(cfg, GateFeeds(cfg, ResetGate(cfg, g), chunks), |g.heard|, AudioOf(chunks))
  {
    hide Listens, FeedGate, ResetGate;
    if chunks == [] {
      ResetListens(cfg, g);
    } else {
      var init := chunks[..|chunks| - 1];
      FeedsListen(cfg, g, init);
      FeedListens(cfg, GateFeeds(cfg, ResetGate(cfg, g), init), |g.heard|, AudioOf(init), chunks[|chunks| - 1]);
    }
  }

  /** The audio cut into whole hops from its start, behind what the backend was given before. */
  ghost predicate HopsOf(cfg: GateConfig, before: seq<Frame>, audio: seq<Sample>, heard: seq<Frame>) {
    && before <= heard && (forall k :: |before| <= k < |heard| ==> |heard[k]| == cfg.hop)
    && exists rest :: |rest| < cfg.hop && Flatten(heard[|before|..]) + rest == audio
  }

  /**
   An enabled gate, fed any chunks since a reset, has heard a voice if and only if, in the audio of the
   chunks cut into hops, the smoothed probability of some `startFrames` frames in a row is above the threshold.
   */
  lemma GateHearsVoice(cfg: GateConfig, g: Gate, chunks: seq<seq<Byte>>)
    requires cfg.Valid() && cfg.enabled && forall c <- chunks :: |c| % 2 == 0
    ensures
      var fed := GateFeeds(cfg, ResetGate(cfg, g), chunks);
      && HopsOf(cfg, g.heard, AudioOf(chunks), fed.heard)
      && (fed.hasVoice <==> HasVoice(cfg, fed.heard, |g.heard|))
  {
    FeedsListen(cfg, g, chunks);
    HeardGrows(cfg, ResetGate(cfg, g), chunks);
    hide HasVoice, Tracks, Flatten;
    var fed := GateFeeds(cfg, ResetGate(cfg, g), chunks);
    TracksVoice(cfg, fed, |g.heard|);
    assert |fed.carry| < cfg.hop;
  }

  lemma TracksVoice(cfg: GateConfig, g: Gate, n: nat)
    requires Tracks(cfg, g, n)
    ensures n <= |g.heard| && (g.hasVoice <==> HasVoice(cfg, g.heard, n))
  {
  }

  lemma {:induction false} DrainGrows(cfg: GateConfig, g: Gate, pcm: seq<Sample>)
    requires cfg.hop > 0
    ensures g.heard <= GateDrain(cfg, g, pcm).heard
    decreases |pcm|
  {
    if |pcm| >= cfg.hop {
      DrainGrows(cfg, GateFrame(cfg, g, pcm[..cfg.hop]), pcm[cfg.hop..]);
    }
  }

  lemma {:induction false} HeardGrows(cfg: GateConfig, g: Gate, chunks: seq<seq<Byte>>)
    requires cfg.hop > 0 && forall c <- chunks :: |c| % 2 == 0
    ensures g.heard <= GateFeeds(cfg, g, chunks).heard
  {
    if chunks != [] {
      var init, last := chunks[..|chunks| - 1], chunks[|chunks| - 1];
      HeardGrows(cfg, g, init);
      var a := GateFeeds(cfg, g, init);
      DrainGrows(cfg, a.(carry := []), a.carry + DecodePcm(last));
    }
  }

  // ----- Every run, and what a cut does

  /** Up to which sample the accepted audio had left the buffer at the last cut; idle trims are none. */
  function LastCut(pieces: seq<Piece>): nat {
    if pieces == [] then 0
    else
      var last := pieces[|pieces| - 1];
      if last.fate.IdleTrimmed? then LastCut(pieces[..|pieces| - 1]) else last.to
  }

  lemma LastCutSnoc(pieces: seq<Piece>, p: Piece)
    ensures LastCut(pieces + [p]) == if p.fate.IdleTrimmed? then LastCut(pieces) else p.to
  {
    assert (pieces + [p])[..|pieces|] == pieces;
  }

  /** The gate has listened to exactly the audio accepted since the last cut; an empty buffer means none. */
  ghost predicate VoiceInv(cfg: Config, r: Run) {
    var from := 2 * LastCut(r.pieces);
    && from <= |r.accepted| && |r.accepted| % 2 == 0
    && (r.state.buffer == [] ==> from == |r.accepted|)
    && exists n :: Listens(cfg.gate, r.state.gate, n, DecodePcm(r.accepted[from..]))
  }

  lemma TakeKeepsVoice(cfg: Config, r: Run, taken: seq<Byte>)
    requires cfg.Valid() && cfg.gate.enabled && VoiceInv(cfg, r) && |taken| % 2 == 0 && taken != []
    ensures VoiceInv(cfg, r.(state := Take(cfg, r.state, taken), accepted := r.accepted + taken))
  {
    hide Listens, FeedGate, DecodePcm, Take;
    var from := 2 * LastCut(r.pieces);
    var audio := DecodePcm(r.accepted[from..]);
    var n :| Listens(cfg.gate, r.state.gate, n, audio);
    FeedListens(cfg.gate, r.state.gate, n, audio, taken);
    DecodePcmAppend(r.accepted[from..], taken);
    assert (r.accepted + taken)[from..] == r.accepted[from..] + taken;
    TakeShape(cfg, r.state, taken);
  }

  lemma TrimKeepsVoice(cfg: Config, r: Run)
    requires VoiceInv(cfg, r) && |r.state.buffer| % 2 == 0
    ensures VoiceInv(cfg, RunTrim(cfg, r))
  {
    hide Listens, DecodePcm, TrimIdle;
    TrimKeepsEnd(cfg, r.state);
    var next := TrimIdle(cfg, r.state);
    LastCutSnoc(r.pieces, Piece(IdleTrimmed, r.state.bufferStart, next.bufferStart));
    var n :| Listens(cfg.gate, r.state.gate, n, DecodePcm(r.accepted[2 * LastCut(r.pieces)..]));
    assert Listens(cfg.gate, next.gate, n, DecodePcm(r.accepted[2 * LastCut(RunTrim(cfg, r).pieces)..]));
  }

  lemma CutKeepsVoice(cfg: Config, r: Run, isStopFlush: bool)
    requires cfg.Valid() && cfg.gate.enabled && VoiceInv(cfg, r) && Balanced(r) && |r.state.buffer| % 2 == 0
    ensures VoiceInv(cfg, RunCut(cfg, r, isStopFlush))
  {
    hide Listens, DecodePcm, PiecesEndAt, Segments, EmittedSlices, FateOfCut;
    var s, r' := r.state, RunCut(cfg, r, isStopFlush);
    CutResets(cfg, s, isStopFlush);
    if s.buffer != [] {
      BufferIsRest(r);
      CutIsNoTrim(cfg, s);
      LastCutSnoc(r.pieces, Piece(FateOfCut(cfg, s), s.bufferStart, s.bufferStart + |s.buffer| / 2));
    }
    hide EmitBuffered, Balanced, LastCut;
    assert r'.accepted[2 * LastCut(r'.pieces)..] == [];
    NoBytes();
    ResetListens(cfg.gate, s.gate);
    assert Listens(cfg.gate, r'.state.gate, |s.gate.heard|, DecodePcm(r'.accepted[2 * LastCut(r'.pieces)..]));
  }

  lemma CutResets(cfg: Config, s: State, isStopFlush: bool)
    requires |s.buffer| % 2 == 0
    ensures var s' := EmitBuffered(cfg, s, isStopFlush); s'.gate == ResetGate(cfg.gate, s.gate) && s'.buffer == []
  {
    hide DecodePcm;
  }

  lemma CutIsNoTrim(cfg: Config, s: State)
    requires |s.buffer| % 2 == 0
    ensures !FateOfCut(cfg, s).IdleTrimmed?
  {
  }

  lemma FeedKeepsListening(cfg: Config, r: Run, bytes: seq<Byte>, room: bool)
    requires cfg.Valid() && cfg.gate.enabled && VoiceInv(cfg, r) && Balanced(r) && |r.state.buffer| % 2 == 0
    ensures VoiceInv(cfg, RunFeed(cfg, r, bytes, room))
  {
    hide VoiceInv, EmitBuffered, Take, TrimIdle, Balanced, Accepted, RunTrim, RunCut;
    var taken := Accepted(r.state, bytes);
    if taken != [] {
      var a := r.(state := Take(cfg, r.state, taken), accepted := r.accepted + taken);
      TakeKeepsVoice(cfg, r, taken);
      TakeBalances(cfg, r, taken);
      TakeShape(cfg, r.state, taken);
      TrimKeepsVoice(cfg, a);
      TrimBalances(cfg, a);
      CutKeepsVoice(cfg, RunTrim(cfg, a), false);
    }
  }

  /** Only the gate, the buffer and the record of the audio matter. */
  lemma SameVoice(cfg: Config, r: Run, r': Run)
    requires VoiceInv(cfg, r) && r'.accepted == r.accepted && r'.pieces == r.pieces
    requires r'.state.gate == r.state.gate && r'.state.buffer == r.state.buffer
    ensures VoiceInv(cfg, r')
  {
    hide Listens, LastCut;
    var n :| Listens(cfg.gate, r.state.gate, n, DecodePcm(r.accepted[2 * LastCut(r.pieces)..]));
    assert Listens(cfg.gate, r'.state.gate, n, DecodePcm(r'.accepted[2 * LastCut(r'.pieces)..]));
  }

  lemma StepKeepsVoice(cfg: Config, r: Run, action: Action)
    requires cfg.Valid() && cfg.gate.enabled && VoiceInv(cfg, r) && Balanced(r) && |r.state.buffer| % 2 == 0
    ensures VoiceInv(cfg, RunStep(cfg, r, action))
  {
    hide VoiceInv, Balanced, EmitBuffered, RunFeed, RunCut;
    match action {
      case Feed(bytes, room) => FeedKeepsListening(cfg, r, bytes, room);
      case Partial(text) => SameVoice(cfg, r, r.(state := OnPartial(cfg, r.state, text)));
      case CloseRequested => SameVoice(cfg, r, r.(state := r.state.(closing := true)));
      case Endpoint => CutKeepsVoice(cfg, r, r.state.closing);
      case CallOver => SameVoice(cfg, r, Ended(r, []));
      case Error(message) =>
        CutKeepsVoice(cfg, r, true);
        SameVoice(cfg, RunCut(cfg, r, true), Ended(RunCut(cfg, r, true), [Failure(message)]));
      case CallFailed(message) =>
        CutKeepsVoice(cfg, r, true);
        SameVoice(cfg, RunCut(cfg, r, true), Ended(RunCut(cfg, r, true), [Failure(message)]));
      case SessionEnded =>
        CutKeepsVoice(cfg, r, true);
        SameVoice(cfg, RunCut(cfg, r, true), Ended(RunCut(cfg, r, true), []));
    }
  }

  lemma BeginListens(cfg: Config)
    requires cfg.Valid() && cfg.gate.enabled
    ensures VoiceInv(cfg, Run(Begin(cfg), [], []))
  {
    hide Listens, DecodePcm;
    NoBytes();
    var g := Begin(cfg).gate;
    ResetListens(cfg.gate, g);
    assert ResetGate(cfg.gate, g) == g;
    assert Listens(cfg.gate, g, |g.heard|, DecodePcm([][2 * 0..]));
  }

  lemma {:induction false} EveryRunListens(cfg: Config, actions: seq<Action>)
    requires cfg.Valid() && cfg.gate.enabled
    ensures VoiceInv(cfg, RunAll(cfg, actions))
    decreases |actions|
  {
    hide VoiceInv, RunStep, Balanced;
    if actions == [] {
      BeginListens(cfg);
    } else {
      var last := |actions| - 1;
      EveryRunListens(cfg, actions[..last]);
      StepKeepsVoice(cfg, RunAll(cfg, actions[..last]), actions[last]);
    }
  }

  /** What a cut adds to the queue. */
  lemma CutQueues(cfg: Config, s: State, isStopFlush: bool)
    requires |s.buffer| % 2 == 0
    ensures
      var pcm := DecodePcm(s.buffer);
      EmitBuffered(cfg, s, isStopFlush).events
      == s.events
         + if s.buffer != [] && s.gate.hasVoice && (s.sawPartial || cfg.rms(pcm) >= 0.0005) then
             [SegmentReady(pcm, isStopFlush, CurrentId(s), s.bufferStart, s.bufferStart + |s.buffer| / 2)]
           else []
  {
    if s.buffer == [] {
      assert s.events + [] == s.events;
    }
  }

  /** The cut queues the buffer exactly if the gate has heard a voice in it and it is no digital silence. */
  ghost predicate QueuesByVoice(cfg: Config, s: State, isStopFlush: bool, before: seq<Frame>)
    requires |s.buffer| % 2 == 0
  {
    EmitBuffered(cfg, s, isStopFlush).events
    == s.events
       + if && s.buffer != [] && HasVoice(cfg.gate, s.gate.heard, |before|)
            && (s.sawPartial || cfg.rms(DecodePcm(s.buffer)) >= 0.0005) then
           [SegmentReady(DecodePcm(s.buffer), isStopFlush, CurrentId(s), s.bufferStart, s.bufferStart + |s.buffer| / 2)]
         else []
  }

  /** A partial result is shown exactly if it has text, partial results are wanted and the gate has heard a voice. */
  ghost predicate ShowsByVoice(cfg: Config, s: State, before: seq<Frame>) {
    forall text: string ::
      OnPartial(cfg, s, text).events
      == s.events
         + if text != "" && cfg.enablePseudoStream && HasVoice(cfg.gate, s.gate.heard, |before|) then
             [PartialText(text, CurrentId(s))]
           else []
  }

  /** The same of the audio accepted since the last cut, behind whatever the backend was given before. */
  ghost predicate VoiceDecides(cfg: Config, r: Run, isStopFlush: bool) {
    var from := 2 * LastCut(r.pieces);
    && from <= |r.accepted| && |r.accepted[from..]| % 2 == 0 && |r.state.buffer| % 2 == 0
    && exists before: seq<Frame> ::
         HopsOf(cfg.gate, before, DecodePcm(r.accepted[from..]), r.state.gate.heard)
         && QueuesByVoice(cfg, r.state, isStopFlush, before) && ShowsByVoice(cfg, r.state, before)
  }

  /**
   In every reachable state, with the gate enabled, a cut queues what is buffered if and only if the audio
   accepted since the last cut holds `startFrames` frames of voice in a row, and the buffer is louder than
   digital silence or k2 has shown a partial result; and a partial result is shown only behind such a voice.
   */
  lemma CutQueuesVoice(cfg: Config, actions: seq<Action>, isStopFlush: bool)
    requires cfg.Valid() && cfg.gate.enabled
    ensures VoiceDecides(cfg, RunAll(cfg, actions), isStopFlush)
  {
    EveryRunListens(cfg, actions);
    hide RunAll, VoiceInv, VoiceDecides, Balanced;
    StateDecides(cfg, RunAll(cfg, actions), isStopFlush);
  }

  lemma StateDecides(cfg: Config, r: Run, isStopFlush: bool)
    requires VoiceInv(cfg, r) && |r.state.buffer| % 2 == 0
    ensures VoiceDecides(cfg, r, isStopFlush)
  {
    hide QueuesByVoice, ShowsByVoice, DecodePcm, HopsOf, LastCut, Listens;
    var audio := DecodePcm(r.accepted[2 * LastCut(r.pieces)..]);
    var n: nat :| Listens(cfg.gate, r.state.gate, n, audio);
    var before := ListensSince(cfg, r.state, n, audio, isStopFlush);
  }

  lemma ListensSince(cfg: Config, s: State, n: nat, audio: seq<Sample>, isStopFlush: bool) returns (before: seq<Frame>)
    requires |s.buffer| % 2 == 0 && Listens(cfg.gate, s.gate, n, audio)
    ensures HopsOf(cfg.gate, before, audio, s.gate.heard) && QueuesByVoice(cfg, s, isStopFlush, before)
    ensures ShowsByVoice(cfg, s, before)
  {
    TracksVoice(cfg.gate, s.gate, n);
    CutQueues(cfg, s, isStopFlush);
    assert s.events + [] == s.events;
    hide EmitBuffered, DecodePcm, HasVoice, Tracks, Flatten;
    before := s.gate.heard[..n];
    assert s.gate.heard[|before|..] == s.gate.heard[n..];
  }
}
