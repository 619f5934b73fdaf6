/**
 When the k2 stream cuts or trims its own buffer (backend/streaming/k2_stream.py, feed): a forced cut waits
 for the cap, and idle audio is dropped only while everything since the last cut was quiet.
 */
module K2Cuts {
  import opened Basics
  import opened K2Stream
  import opened K2Runs

  // ----- One feed

  /** What a feed may take from the buffer: the oldest idle samples, or all of it once it has reached the cap. */
  ghost predicate MayLeave(cfg: Config, before: Run, bytes: seq<Byte>, p: Piece)
    requires cfg.Valid()
  {
    var s := before.state;
    var total := |s.buffer + Accepted(s, bytes)| / 2;
    if p.fate.IdleTrimmed? then
      && 0 < cfg.KeepSamples() && !s.sawPartial && !s.idleSeenSpeech
      && p.to - p.from == total - cfg.KeepSamples()
    else cfg.MaxSamples() > 0 && p.to - p.from >= cfg.MaxSamples()
  }

  /** Trimming leaves exactly the newest samples of the idle keep. */
  lemma TrimIsExact(cfg: Config, s: State)
    requires |s.buffer| % 2 == 0
    ensures
      var s' := TrimIdle(cfg, s);
      var n := s'.bufferStart - s.bufferStart;
      && 0 <= 2 * n <= |s.buffer| && s'.buffer == s.buffer[2 * n..]
      && (n > 0 <==> 0 < cfg.KeepSamples() < |s.buffer| / 2 && !s.sawPartial && !s.idleSeenSpeech)
      && (n > 0 ==> n == |s.buffer| / 2 - cfg.KeepSamples())
  {
  }

  lemma CutTakesAll(cfg: Config, r: Run, isStopFlush: bool)
    requires |r.state.buffer| % 2 == 0
    ensures
      var r' := RunCut(cfg, r, isStopFlush);
      if r.state.buffer == [] then r'.pieces == r.pieces
      else
        |r'.pieces| == |r.pieces| + 1 && r'.pieces[..|r.pieces|] == r.pieces
        && var p := r'.pieces[|r.pieces|];
           !p.fate.IdleTrimmed? && p.from == r.state.bufferStart && p.to - p.from == |r.state.buffer| / 2
  {
    hide EmitBuffered;
  }

  /** In every reachable state a cut of buffered audio spends one id, queued or dropped, and an empty cut none. */
  lemma CutSpendsId(cfg: Config, actions: seq<Action>, isStopFlush: bool)
    requires cfg.Valid()
    ensures
      var s := RunAll(cfg, actions).state;
      CurrentId(EmitBuffered(cfg, s, isStopFlush)) == CurrentId(s) + if s.buffer == [] then 0 else 1
  {
    EveryRun(cfg, actions);
    hide RunAll, Balanced, EndInv, PromiseInv, GateInv, IdsInOrder;
    StateSpendsId(cfg, RunAll(cfg, actions).state, isStopFlush);
  }

  lemma StateSpendsId(cfg: Config, s: State, isStopFlush: bool)
    requires |s.buffer| % 2 == 0 && (s.active.Some? ==> s.active.value == s.segmentSeq)
    ensures CurrentId(EmitBuffered(cfg, s, isStopFlush)) == CurrentId(s) + if s.buffer == [] then 0 else 1
  {
    hide DecodePcm;
  }

  lemma LoudnessOfTake(cfg: Config, s: State, taken: seq<Byte>)
    requires cfg.Valid() && |taken| % 2 == 0
    ensures
      Take(cfg, s, taken).idleSeenSpeech
      <==> s.idleSeenSpeech || (taken != [] && cfg.rms(DecodePcm(taken)) >= 0.003)
  {
    hide FeedGate, DecodePcm;
  }

  /**
   Every accepted chunk is buffered, even one the request queue has no room for, and all that a feed takes
   from the buffer is one idle trim, or a cut at the cap, or both.
   */
  lemma FeedTakes(cfg: Config, r: Run, bytes: seq<Byte>, room: bool)
    requires cfg.Valid() && |r.state.buffer| % 2 == 0
    ensures
      var r' := RunFeed(cfg, r, bytes, room);
      && r'.accepted == r.accepted + Accepted(r.state, bytes) && r.pieces <= r'.pieces
      && (forall i :: |r.pieces| <= i < |r'.pieces| ==> MayLeave(cfg, r, bytes, r'.pieces[i]))
      && (forall i :: |r.pieces| <= i < |r'.pieces| && r'.pieces[i].fate.IdleTrimmed? ==>
            cfg.rms(DecodePcm(Accepted(r.state, bytes))) < 0.003)
      && (room && Accepted(r.state, bytes) != [] && cfg.MaxSamples() > 0 ==> |r'.state.buffer| / 2 < cfg.MaxSamples())
  {
    hide EmitBuffered, TrimIdle, Take, Accepted, DecodePcm;
    var taken := Accepted(r.state, bytes);
    assert r.accepted + [] == r.accepted;
    if taken != [] {
      var a := r.(state := Take(cfg, r.state, taken), accepted := r.accepted + taken);
      TakeShape(cfg, r.state, taken);
      LoudnessOfTake(cfg, r.state, taken);
      TrimIsExact(cfg, a.state);
      var b := RunTrim(cfg, a);
      assert r.pieces <= b.pieces;
      assert forall i :: |r.pieces| <= i < |b.pieces| ==> MayLeave(cfg, r, bytes, b.pieces[i]);
      CutTakesAll(cfg, b, false);
      CutShape(cfg, b.state, false);
    }
  }

  // ----- Every run

  /** The chunks accepted since the buffer was last emptied by a cut. */
  ghost function ChunksSince(cfg: Config, actions: seq<Action>): seq<seq<Byte>>
    requires cfg.Valid()
  {
    if actions == [] then []
    else
      var last := actions[|actions| - 1];
      var before := actions[..|actions| - 1];
      var taken := if last.Feed? then Accepted(RunAll(cfg, before).state, last.bytes) else [];
      if RunAll(cfg, actions).state.buffer == [] then []
      else ChunksSince(cfg, before) + if taken == [] then [] else [taken]
  }

  ghost predicate AnyLoud(cfg: Config, chunks: seq<seq<Byte>>) {
    exists c :: c in chunks && |c| % 2 == 0 && cfg.rms(DecodePcm(c)) >= 0.003
  }

  lemma AnyLoudSnoc(cfg: Config, chunks: seq<seq<Byte>>, c: seq<Byte>)
    requires |c| % 2 == 0
    ensures AnyLoud(cfg, chunks + [c]) <==> AnyLoud(cfg, chunks) || cfg.rms(DecodePcm(c)) >= 0.003
  {
    hide DecodePcm;
    assert c in chunks + [c];
    if AnyLoud(cfg, chunks) {
      var d :| d in chunks && |d| % 2 == 0 && cfg.rms(DecodePcm(d)) >= 0.003;
      assert d in chunks + [c];
    }
  }

  /** What one step does to the idle flag: a cut clears it, and a loud chunk sets it. */
  lemma StepIdle(cfg: Config, r: Run, action: Action)
    requires cfg.Valid() && Balanced(r) && |r.state.buffer| % 2 == 0
    requires r.state.buffer == [] ==> !r.state.idleSeenSpeech
    ensures
      var s' := RunStep(cfg, r, action).state;
      var taken := if action.Feed? then Accepted(r.state, action.bytes) else [];
      if s'.buffer == [] then !s'.idleSeenSpeech
      else
        s'.idleSeenSpeech <==> r.state.idleSeenSpeech || (taken != [] && cfg.rms(DecodePcm(taken)) >= 0.003)
  {
    hide EmitBuffered, RunFeed, Accepted, DecodePcm, Balanced, Segments, EmittedSlices, PiecesEndAt;
    CutClears(cfg, r.state, r.state.closing);
    CutClears(cfg, r.state, true);
    if action.Feed? {
      FeedIdle(cfg, r, action.bytes, action.room);
    }
  }

  lemma CutClears(cfg: Config, s: State, isStopFlush: bool)
    requires |s.buffer| % 2 == 0
    ensures var s' := EmitBuffered(cfg, s, isStopFlush); s'.buffer == [] && !s'.idleSeenSpeech && !s'.sawPartial
  {
    hide DecodePcm;
  }

  lemma FeedIdle(cfg: Config, r: Run, bytes: seq<Byte>, room: bool)
    requires cfg.Valid() && |r.state.buffer| % 2 == 0 && (r.state.buffer == [] ==> !r.state.idleSeenSpeech)
    ensures
      var s' := RunFeed(cfg, r, bytes, room).state;
      var taken := Accepted(r.state, bytes);
      if s'.buffer == [] then !s'.idleSeenSpeech
      else s'.idleSeenSpeech <==> r.state.idleSeenSpeech || (taken != [] && cfg.rms(DecodePcm(taken)) >= 0.003)
  {
    hide EmitBuffered, TrimIdle, Take, Accepted, DecodePcm;
    var taken := Accepted(r.state, bytes);
    if taken != [] {
      var a := Take(cfg, r.state, taken);
      TakeShape(cfg, r.state, taken);
      LoudnessOfTake(cfg, r.state, taken);
      TrimKeepsEnd(cfg, a);
      CutClears(cfg, TrimIdle(cfg, a), false);
    }
  }

  /** In every reachable state the idle flag says whether any chunk since the last cut was loud. */
  lemma {:induction false} IdleMeansQuiet(cfg: Config, actions: seq<Action>)
    requires cfg.Valid()
    ensures RunAll(cfg, actions).state.idleSeenSpeech <==> AnyLoud(cfg, ChunksSince(cfg, actions))
    ensures RunAll(cfg, actions).state.buffer == [] ==> !RunAll(cfg, actions).state.idleSeenSpeech
    decreases |actions|
  {
    hide RunStep, AnyLoud, Balanced, Accepted, DecodePcm;
    NoChunk(cfg);
    if actions != [] {
      var last := |actions| - 1;
      var r, action := RunAll(cfg, actions[..last]), actions[last];
      IdleMeansQuiet(cfg, actions[..last]);
      StepIdle(cfg, r, action);
      var taken := if action.Feed? then Accepted(r.state, action.bytes) else [];
      var chunks := ChunksSince(cfg, actions[..last]);
      AnyLoudSnoc(cfg, chunks, taken);
      assert chunks + [] == chunks;
    }
  }

  lemma NoChunk(cfg: Config)
    ensures !AnyLoud(cfg, [])
  {
  }

  /**
   In every reachable state a feed drops idle audio only while k2 has shown nothing and no chunk since the
   last cut, this one included, was loud; and then exactly the idle keep is left.
   */
  lemma OnlyQuietAudioIsDropped(cfg: Config, actions: seq<Action>, bytes: seq<Byte>, room: bool, i: nat)
    requires cfg.Valid()
    requires
      var r := RunAll(cfg, actions);
      var r' := RunFeed(cfg, r, bytes, room);
      |r.pieces| <= i < |r'.pieces| && r'.pieces[i].fate.IdleTrimmed?
    ensures
      var r := RunAll(cfg, actions);
      var taken := Accepted(r.state, bytes);
      && !r.state.sawPartial && !AnyLoud(cfg, ChunksSince(cfg, actions) + [taken])
      && var p := RunFeed(cfg, r, bytes, room).pieces[i];
         p.to - p.from == |r.state.buffer + taken| / 2 - cfg.KeepSamples()
  {
    hide RunAll, RunFeed, AnyLoud, ChunksSince, Accepted, DecodePcm, Balanced;
    var r := RunAll(cfg, actions);
    FeedTakes(cfg, r, bytes, room);
    IdleMeansQuiet(cfg, actions);
    AnyLoudSnoc(cfg, ChunksSince(cfg, actions), Accepted(r.state, bytes));
  }
}
