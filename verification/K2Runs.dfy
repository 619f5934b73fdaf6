/**
 What the k2 stream keeps over every run of its two tasks: no sample is lost unaccounted, ids
 are in order, and a partial result is answered or outstanding while the receive loop is at work.
 */
module K2Runs {
  import opened Basics
  import opened K2Stream

  /** One atomic step of either task. The last four stop the receive loop. */
  datatype Action =
    | Feed(bytes: seq<Byte>, room: bool)
    | Partial(text: string)
    | Endpoint
    | CloseRequested
    | Error(message: string)
    | SessionEnded
    | CallFailed(message: string)
    | CallOver

  /** What became of a stretch of the accepted samples. */
  datatype Fate = Emitted | IdleTrimmed | SilenceDropped | GateDropped

  /** Samples [from, to) of the accepted audio. */
  datatype Piece = Piece(fate: Fate, from: nat, to: nat)

  /** The stream with the audio it accepted and the record of what left the buffer. */
  datatype Run = Run(state: State, accepted: seq<Byte>, pieces: seq<Piece>)

  // ----- The record beside each step

  ghost predicate Balanced(r: Run) {
    && |r.accepted| % 2 == 0 && r.state.total == |r.accepted| / 2
    && 2 * r.state.bufferStart + |r.state.buffer| == |r.accepted|
    && r.state.buffer == r.accepted[2 * r.state.bufferStart..]
    && PiecesEndAt(r.pieces, r.state.bufferStart)
    && Segments(r.state.events) == EmittedSlices(r.accepted, r.pieces)
  }

  /** The pieces partition [0, end): in order, without gaps, none of them empty. */
  ghost predicate PiecesEndAt(pieces: seq<Piece>, end: nat) {
    if pieces == [] then end == 0
    else
      var last := pieces[|pieces| - 1];
      last.from < last.to == end && PiecesEndAt(pieces[..|pieces| - 1], last.from)
  }

  /** A segment's audio and the samples its stamps name. */
  datatype Slice = Slice(pcm: seq<Sample>, from: nat, to: nat)

  function Segments(events: seq<Event>): seq<Slice> {
    if events == [] then []
    else
      var last := events[|events| - 1];
      Segments(events[..|events| - 1])
      + if last.SegmentReady? then [Slice(last.pcm, last.startSample, last.endSample)] else []
  }

  /** The accepted audio named by the emitted pieces. */
  function EmittedSlices(accepted: seq<Byte>, pieces: seq<Piece>): seq<Slice> {
    if pieces == [] then []
    else
      var last := pieces[|pieces| - 1];
      EmittedSlices(accepted, pieces[..|pieces| - 1])
      + if last.fate.Emitted? && last.from <= last.to && 2 * last.to <= |accepted|
        then [Slice(DecodePcm(accepted[2 * last.from..2 * last.to]), last.from, last.to)] else []
  }

  function FateOfCut(cfg: Config, s: State): Fate
    requires |s.buffer| % 2 == 0
  {
    if !s.sawPartial && cfg.rms(DecodePcm(s.buffer)) < DIGITAL_SILENCE_RMS then SilenceDropped
    else if !s.gate.hasVoice then GateDropped
    else Emitted
  }

  function RunCut(cfg: Config, r: Run, isStopFlush: bool): Run
    requires |r.state.buffer| % 2 == 0
  {
    var s := r.state;
    Run(EmitBuffered(cfg, s, isStopFlush), r.accepted,
        if s.buffer == [] then r.pieces
        else r.pieces + [Piece(FateOfCut(cfg, s), s.bufferStart, s.bufferStart + |s.buffer| / 2)])
  }

  function RunTrim(cfg: Config, r: Run): Run {
    var next := TrimIdle(cfg, r.state);
    Run(next, r.accepted,
        if next.bufferStart == r.state.bufferStart then r.pieces
        else r.pieces + [Piece(IdleTrimmed, r.state.bufferStart, next.bufferStart)])
  }

  function RunForceCut(cfg: Config, r: Run): Run
    requires cfg.Valid() && |r.state.buffer| % 2 == 0
  {
    if cfg.MaxSamples() == 0 || |r.state.buffer| / BYTES_PER_SAMPLE < cfg.MaxSamples() then r else RunCut(cfg, r, false)
  }

  function RunFeed(cfg: Config, r: Run, bytes: seq<Byte>, room: bool): Run
    requires cfg.Valid() && |r.state.buffer| % 2 == 0
  {
    var taken := Accepted(r.state, bytes);
    if taken == [] then r
    else
      var a := r.(state := Take(cfg, r.state, taken), accepted := r.accepted + taken);
      if !room then a else RunForceCut(cfg, RunTrim(cfg, a))
  }

  /** A step of a run; steps of a receive loop that has stopped do nothing. */
  function RunStep(cfg: Config, r: Run, action: Action): Run
    requires cfg.Valid() && |r.state.buffer| % 2 == 0
  {
    if action.Feed? then RunFeed(cfg, r, action.bytes, action.room)
    else if action.CloseRequested? then r.(state := r.state.(closing := true))
    else if r.state.closed then r
    else
      match action
      case Partial(text) => r.(state := OnPartial(cfg, r.state, text))
      case Endpoint => RunCut(cfg, r, r.state.closing)
      case Error(message) => Ended(RunCut(cfg, r, true), [Failure(message)])
      case CallFailed(message) => Ended(RunCut(cfg, r, true), [Failure(message)])
      case SessionEnded => Ended(RunCut(cfg, r, true), [])
      case _ => Ended(r, [])
  }

  function Ended(r: Run, last: seq<Event>): Run { r.(state := Finish(r.state, last)) }

  /** The record does not disturb the stream: each step is the step of the class. */
  lemma StepIsStream(cfg: Config, r: Run, action: Action)
    requires cfg.Valid() && |r.state.buffer| % 2 == 0
    ensures
      var s, s' := r.state, RunStep(cfg, r, action).state;
      match action
      case Feed(bytes, room) => s' == FeedBytes(cfg, s, bytes, room)
      case CloseRequested => s' == s.(closing := true)
      case Partial(text) => s' == if s.closed then s else OnPartial(cfg, s, text)
      case Endpoint => s' == if s.closed then s else EmitBuffered(cfg, s, s.closing)
      case SessionEnded => s' == if s.closed then s else Finish(EmitBuffered(cfg, s, true), [])
      case CallOver => s' == if s.closed then s else Finish(s, [])
      case Error(m) => s' == if s.closed then s else Finish(EmitBuffered(cfg, s, true), [Failure(m)])
      case CallFailed(m) => s' == if s.closed then s else Finish(EmitBuffered(cfg, s, true), [Failure(m)])
  {
  }

  // ----- Conservation of samples

  lemma PiecesSnoc(pieces: seq<Piece>, p: Piece)
    requires PiecesEndAt(pieces, p.from) && p.from < p.to
    ensures PiecesEndAt(pieces + [p], p.to)
  {
    assert (pieces + [p])[..|pieces|] == pieces;
  }

  lemma SegmentsSnoc(events: seq<Event>, e: Event)
    ensures Segments(events + [e])
         == Segments(events) + if e.SegmentReady? then [Slice(e.pcm, e.startSample, e.endSample)] else []
  {
    assert (events + [e])[..|events|] == events;
  }

  lemma SlicesSnoc(accepted: seq<Byte>, pieces: seq<Piece>, p: Piece)
    ensures EmittedSlices(accepted, pieces + [p])
         == EmittedSlices(accepted, pieces)
            + if p.fate.Emitted? && p.from <= p.to && 2 * p.to <= |accepted|
              then [Slice(DecodePcm(accepted[2 * p.from..2 * p.to]), p.from, p.to)] else []
  {
    assert (pieces + [p])[..|pieces|] == pieces;
  }

  /** Audio that is still to come does not change the slices. */
  lemma {:induction false} SlicesStable(accepted: seq<Byte>, more: seq<Byte>, pieces: seq<Piece>, end: nat)
    requires PiecesEndAt(pieces, end) && 2 * end <= |accepted|
    ensures EmittedSlices(accepted + more, pieces) == EmittedSlices(accepted, pieces)
    decreases |pieces|
  {
    if pieces != [] {
      var last := pieces[|pieces| - 1];
      SlicesStable(accepted, more, pieces[..|pieces| - 1], last.from);
      assert (accepted + more)[2 * last.from..2 * last.to] == accepted[2 * last.from..2 * last.to];
    }
  }

  /** One more piece leaves the front of the buffer, as a segment or without one. */
  lemma PieceLeaves(accepted: seq<Byte>, pieces: seq<Piece>, events: seq<Event>, p: Piece, more: seq<Event>)
    requires PiecesEndAt(pieces, p.from) && p.from < p.to && 2 * p.to <= |accepted|
    requires Segments(events) == EmittedSlices(accepted, pieces)
    requires if p.fate.Emitted? then
        |more| == 1 && more[0].SegmentReady?
        && more[0].pcm == DecodePcm(accepted[2 * p.from..2 * p.to])
        && more[0].startSample == p.from && more[0].endSample == p.to
      else more == []
    ensures PiecesEndAt(pieces + [p], p.to)
    ensures Segments(events + more) == EmittedSlices(accepted, pieces + [p])
  {
    hide Segments, EmittedSlices, PiecesEndAt;
    PiecesSnoc(pieces, p);
    SlicesSnoc(accepted, pieces, p);
    if p.fate.Emitted? {
      SegmentsSnoc(events, more[0]);
      assert events + more == events + [more[0]];
    } else {
      assert events + more == events;
      assert EmittedSlices(accepted, pieces) + [] == EmittedSlices(accepted, pieces);
    }
  }

  lemma CutBalances(cfg: Config, r: Run, isStopFlush: bool)
    requires Balanced(r) && |r.state.buffer| % 2 == 0
    ensures Balanced(RunCut(cfg, r, isStopFlush)) && RunCut(cfg, r, isStopFlush).state.buffer == []
  {
    hide Segments, EmittedSlices, PiecesEndAt;
    var s, r' := r.state, RunCut(cfg, r, isStopFlush);
    if s.buffer != [] {
      var p := Piece(FateOfCut(cfg, s), s.bufferStart, s.bufferStart + |s.buffer| / 2);
      var more := r'.state.events[|s.events|..];
      assert r'.state.events == s.events + more;
      BufferIsRest(r);
      PieceLeaves(r.accepted, r.pieces, s.events, p, more);
      assert r'.accepted[2 * r'.state.bufferStart..] == [];
    }
  }

  lemma BufferIsRest(r: Run)
    requires Balanced(r)
    ensures 2 * (r.state.bufferStart + |r.state.buffer| / 2) == |r.accepted|
    ensures r.accepted[2 * r.state.bufferStart..2 * (r.state.bufferStart + |r.state.buffer| / 2)] == r.state.buffer
  {
  }

  lemma TrimBalances(cfg: Config, r: Run)
    requires Balanced(r)
    ensures Balanced(RunTrim(cfg, r)) && |RunTrim(cfg, r).state.buffer| % 2 == 0
    ensures r.state.buffer != [] ==> RunTrim(cfg, r).state.buffer != []
  {
    hide Segments, EmittedSlices, PiecesEndAt, TrimIdle;
    var s, s' := r.state, TrimIdle(cfg, r.state);
    TrimKeepsEnd(cfg, s);
    if s'.bufferStart != s.bufferStart {
      PieceLeaves(r.accepted, r.pieces, s.events, Piece(IdleTrimmed, s.bufferStart, s'.bufferStart), []);
      assert s.events + [] == s.events;
      assert s'.buffer == r.accepted[2 * s'.bufferStart..];
    }
  }

  /** Trimming takes whole samples off the front and never empties the buffer. */
  lemma TrimToKeepsEnd(s: State, keep: nat)
    requires |s.buffer| % 2 == 0
    ensures
      var s' := TrimTo(s, keep);
      var n := s'.bufferStart - s.bufferStart;
      && n >= 0 && 2 * n <= |s.buffer| && s'.buffer == s.buffer[2 * n..]
      && s' == s.(buffer := s'.buffer, bufferStart := s'.bufferStart)
      && (s.buffer != [] ==> s'.buffer != [])
      && (keep > 0 && !s.sawPartial && !s.idleSeenSpeech ==> |s'.buffer| / 2 <= keep)
  {
  }

  lemma TrimKeepsEnd(cfg: Config, s: State)
    requires |s.buffer| % 2 == 0
    ensures
      var s' := TrimIdle(cfg, s);
      var n := s'.bufferStart - s.bufferStart;
      && n >= 0 && 2 * n <= |s.buffer| && s'.buffer == s.buffer[2 * n..]
      && s' == s.(buffer := s'.buffer, bufferStart := s'.bufferStart)
      && (s.buffer != [] ==> s'.buffer != [])
      && (cfg.KeepSamples() > 0 && !s.sawPartial && !s.idleSeenSpeech ==> |s'.buffer| / 2 <= cfg.KeepSamples())
  {
    hide TrimTo;
    TrimToKeepsEnd(s, cfg.KeepSamples());
  }

  lemma TakeBalances(cfg: Config, r: Run, taken: seq<Byte>)
    requires cfg.Valid() && Balanced(r) && |taken| % 2 == 0
    ensures Balanced(r.(state := Take(cfg, r.state, taken), accepted := r.accepted + taken))
  {
    hide FeedGate, UpdateIdleSpeech, Segments, EmittedSlices, PiecesEndAt;
    SlicesStable(r.accepted, taken, r.pieces, r.state.bufferStart);
    TakeShape(cfg, r.state, taken);
    assert (r.accepted + taken)[2 * r.state.bufferStart..] == r.accepted[2 * r.state.bufferStart..] + taken;
  }

  lemma TakeShape(cfg: Config, s: State, taken: seq<Byte>)
    requires cfg.Valid() && |taken| % 2 == 0
    ensures
      var s' := Take(cfg, s, taken);
      && s'.buffer == s.buffer + taken && s'.total == s.total + |taken| / 2 && s'.events == s.events
      && s'.bufferStart == (if s.buffer == [] then s.total else s.bufferStart)
      && s'.gate == FeedGate(cfg.gate, s.gate, taken) && s'.sawPartial == s.sawPartial
      && s'.active == s.active && s'.segmentSeq == s.segmentSeq && s'.closing == s.closing && s'.closed == s.closed
  {
    hide FeedGate;
  }

  /** In every step the accepted samples stay split into pieces that left and the buffer that has not. */
  lemma StepBalances(cfg: Config, r: Run, action: Action)
    requires cfg.Valid() && Balanced(r) && |r.state.buffer| % 2 == 0
    ensures Balanced(RunStep(cfg, r, action)) && |RunStep(cfg, r, action).state.buffer| % 2 == 0
  {
    hide Balanced, EmitBuffered, TrimIdle, Take, FeedGate;
    match action {
      case Feed(bytes, room) =>
        FeedBalances(cfg, r, bytes, room);
      case Partial(text) =>
        PartialBalances(cfg, r, text);
      case CloseRequested =>
        OnlyEventsMatter(r, r.(state := r.state.(closing := true)));
      case Endpoint =>
        CutBalances(cfg, r, r.state.closing);
      case CallOver =>
        EndBalances(r, []);
      case Error(message) =>
        CutBalances(cfg, r, true);
        EndBalances(RunCut(cfg, r, true), [Failure(message)]);
      case CallFailed(message) =>
        CutBalances(cfg, r, true);
        EndBalances(RunCut(cfg, r, true), [Failure(message)]);
      case SessionEnded =>
        CutBalances(cfg, r, true);
        EndBalances(RunCut(cfg, r, true), []);
    }
  }

  lemma FeedBalances(cfg: Config, r: Run, bytes: seq<Byte>, room: bool)
    requires cfg.Valid() && Balanced(r) && |r.state.buffer| % 2 == 0
    ensures Balanced(RunFeed(cfg, r, bytes, room)) && |RunFeed(cfg, r, bytes, room).state.buffer| % 2 == 0
  {
    hide EmitBuffered, TrimIdle, Take, Balanced, Accepted, RunTrim;
    var taken := Accepted(r.state, bytes);
    if taken != [] {
      TakeShape(cfg, r.state, taken);
      var a := r.(state := Take(cfg, r.state, taken), accepted := r.accepted + taken);
      TakeBalances(cfg, r, taken);
      TrimBalances(cfg, a);
      CutBalances(cfg, RunTrim(cfg, a), false);
    }
  }

  lemma OnlyEventsMatter(r: Run, r': Run)
    requires Balanced(r) && r'.accepted == r.accepted && r'.pieces == r.pieces
    requires r'.state.buffer == r.state.buffer && r'.state.bufferStart == r.state.bufferStart
    requires r'.state.total == r.state.total && Segments(r'.state.events) == Segments(r.state.events)
    ensures Balanced(r')
  {
  }

  lemma PartialBalances(cfg: Config, r: Run, text: string)
    requires Balanced(r)
    ensures Balanced(r.(state := OnPartial(cfg, r.state, text)))
  {
    hide Segments, EmittedSlices, PiecesEndAt, Balanced;
    var s := OnPartial(cfg, r.state, text);
    if s.events != r.state.events {
      SegmentsSnoc(r.state.events, s.events[|r.state.events|]);
      assert Segments(r.state.events) + [] == Segments(r.state.events);
    }
    OnlyEventsMatter(r, r.(state := s));
  }

  lemma EndBalances(r: Run, last: seq<Event>)
    requires Balanced(r) && |last| <= 1 && (last != [] ==> last[0].Failure?)
    ensures Balanced(Ended(r, last)) && Ended(r, last).state.buffer == r.state.buffer
  {
    var events := r.state.events;
    assert Segments(events) + [] == Segments(events);
    if last != [] {
      SegmentsSnoc(events, last[0]);
      assert events + last == events + [last[0]];
    } else {
      assert events + last == events;
    }
    SegmentsSnoc(events + last, Sentinel);
    OnlyEventsMatter(r, Ended(r, last));
  }

  // ----- Order of the events

  predicate HasId(e: Event) { e.PartialText? || e.SegmentReady? }

  /** Ids never decrease, and nothing at or below a finished segment's id follows it. */
  ghost predicate IdsInOrder(events: seq<Event>) {
    forall i, j :: 0 <= i < j < |events| && HasId(events[i]) && HasId(events[j]) ==>
      events[i].id <= events[j].id && (events[i].SegmentReady? ==> events[i].id < events[j].id)
  }

  ghost predicate IdInv(s: State) {
    && IdsInOrder(s.events)
    && (forall e <- s.events :: HasId(e) ==> 1 <= e.id <= s.segmentSeq)
    && (s.active.Some? ==> s.active.value == s.segmentSeq >= 1
                           && forall e <- s.events :: e.SegmentReady? ==> e.id < s.segmentSeq)
  }

  /** The queue is closed exactly when the loop has stopped, and nothing comes after. */
  ghost predicate ClosedBySentinel(s: State) {
    forall i :: 0 <= i < |s.events| ==> (s.events[i].Sentinel? <==> s.closed && i == |s.events| - 1)
  }

  ghost predicate EndInv(s: State) {
    ClosedBySentinel(s) && (s.closed ==> s.events != [])
  }

  /** A new event under the current id keeps the order; a segment's id is then spent. */
  lemma IdSnoc(s: State, e: Event)
    requires IdInv(s) && HasId(e) && e.id == CurrentId(s)
    ensures
      var s' := WithId(s).(events := s.events + [e]);
      IdInv(if e.SegmentReady? then s'.(active := None) else s')
  {
    var events := s.events + [e];
    assert forall i :: 0 <= i < |s.events| ==> s.events[i] in s.events;
    assert forall x <- events :: x in s.events || x == e;
  }

  /** Only what IdInv and EndInv read. */
  ghost predicate SameIds(s: State, s': State) {
    s'.events == s.events && s'.segmentSeq == s.segmentSeq && s'.active == s.active && s'.closed == s.closed
  }

  /** A cut of an empty buffer leaves the ids alone; any other spends one, with or without a segment. */
  lemma CutIds(cfg: Config, s: State, isStopFlush: bool)
    requires |s.buffer| % 2 == 0
    ensures
      var s', spent := EmitBuffered(cfg, s, isStopFlush), WithId(s).(active := None);
      || SameIds(s, s') || SameIds(spent, s')
      || exists e: Event :: e.SegmentReady? && e.id == CurrentId(s) && SameIds(spent.(events := s.events + [e]), s')
  {
    hide DecodePcm;
  }

  lemma CutKeepsOrder(cfg: Config, s: State, isStopFlush: bool)
    requires IdInv(s) && EndInv(s) && !s.closed && |s.buffer| % 2 == 0
    ensures var s' := EmitBuffered(cfg, s, isStopFlush); IdInv(s') && EndInv(s') && s'.closed == s.closed
  {
    hide EmitBuffered;
    var s', spent := EmitBuffered(cfg, s, isStopFlush), WithId(s).(active := None);
    CutIds(cfg, s, isStopFlush);
    if !SameIds(s, s') && !SameIds(spent, s') {
      var e: Event :| e.SegmentReady? && e.id == CurrentId(s) && SameIds(spent.(events := s.events + [e]), s');
      IdSnoc(s, e);
    }
  }

  lemma PartialKeepsOrder(cfg: Config, s: State, text: string)
    requires IdInv(s) && EndInv(s) && !s.closed
    ensures IdInv(OnPartial(cfg, s, text)) && EndInv(OnPartial(cfg, s, text))
  {
    IdSnoc(s, PartialText(text, CurrentId(s)));
  }

  lemma FailureKeepsOrder(s: State, e: Event)
    requires IdInv(s) && EndInv(s) && !s.closed && e.Failure?
    ensures var s' := s.(events := s.events + [e]); IdInv(s') && EndInv(s')
  {
    assert forall x <- s.events + [e] :: x in s.events || x == e;
  }

  lemma SentinelKeepsOrder(s: State)
    requires IdInv(s) && EndInv(s) && !s.closed
    ensures IdInv(Finish(s, [])) && EndInv(Finish(s, []))
  {
    assert s.events + [] + [Sentinel] == s.events + [Sentinel];
    assert forall x <- s.events + [Sentinel] :: x in s.events || x == Sentinel;
  }

  lemma FinishKeepsOrder(s: State, last: seq<Event>)
    requires IdInv(s) && EndInv(s) && !s.closed && |last| <= 1 && (last != [] ==> last[0].Failure?)
    ensures IdInv(Finish(s, last)) && EndInv(Finish(s, last))
  {
    hide IdInv, EndInv;
    if last == [] {
      SentinelKeepsOrder(s);
    } else {
      var a := s.(events := s.events + [last[0]]);
      FailureKeepsOrder(s, last[0]);
      SentinelKeepsOrder(a);
      assert s.events + last + [Sentinel] == a.events + [] + [Sentinel];
    }
  }

  lemma FeedKeepsOrder(cfg: Config, s: State, bytes: seq<Byte>, room: bool)
    requires cfg.Valid() && IdInv(s) && EndInv(s) && |s.buffer| % 2 == 0
    ensures var s' := FeedBytes(cfg, s, bytes, room); IdInv(s') && EndInv(s')
  {
    hide IdInv, EndInv, FeedGate, EmitBuffered, TrimIdle, Take;
    var taken := Accepted(s, bytes);
    if taken != [] {
      var a := Take(cfg, s, taken);
      TakeShape(cfg, s, taken);
      SameOrder(s, a);
      TrimKeepsEnd(cfg, a);
      SameOrder(a, TrimIdle(cfg, a));
      CutKeepsOrder(cfg, TrimIdle(cfg, a), false);
    }
  }

  lemma SameOrder(s: State, s': State)
    requires IdInv(s) && EndInv(s) && SameIds(s, s')
    ensures IdInv(s') && EndInv(s')
  {
  }

  lemma StepKeepsOrder(cfg: Config, r: Run, action: Action)
    requires cfg.Valid() && IdInv(r.state) && EndInv(r.state) && |r.state.buffer| % 2 == 0
    ensures var s' := RunStep(cfg, r, action).state; IdInv(s') && EndInv(s')
  {
    hide IdInv, EndInv, EmitBuffered, FeedBytes, OnPartial, RunFeed, Finish;
    var s := r.state;
    StepIsStream(cfg, r, action);
    if action.Feed? {
      FeedKeepsOrder(cfg, s, action.bytes, action.room);
    } else if action.CloseRequested? {
      SameOrder(s, s.(closing := true));
    } else if !s.closed {
      match action {
        case Partial(text) => PartialKeepsOrder(cfg, s, text);
        case Endpoint => CutKeepsOrder(cfg, s, s.closing);
        case Error(message) =>
          CutKeepsOrder(cfg, s, true);
          FinishKeepsOrder(EmitBuffered(cfg, s, true), [Failure(message)]);
        case CallFailed(message) =>
          CutKeepsOrder(cfg, s, true);
          FinishKeepsOrder(EmitBuffered(cfg, s, true), [Failure(message)]);
        case SessionEnded =>
          CutKeepsOrder(cfg, s, true);
          FinishKeepsOrder(EmitBuffered(cfg, s, true), []);
        case CallOver => FinishKeepsOrder(s, []);
      }
    }
  }

  // ----- A partial result is answered or outstanding while the loop is at work

  ghost predicate Answered(events: seq<Event>, id: nat) {
    exists e :: e in events && e.SegmentReady? && e.id == id
  }

  /** The loop is at work, and the open segment has shown a partial result that a cut will have to answer. */
  predicate Outstanding(s: State, id: nat) { !s.closed && s.active == Some(id) && s.sawPartial && s.gate.hasVoice }

  /** As long as the loop is at work, every partial result is answered or waits for a cut. */
  ghost predicate PromiseInv(s: State) {
    !s.closed ==> forall e <- s.events :: e.PartialText? ==> Answered(s.events, e.id) || Outstanding(s, e.id)
  }

  /** An enabled gate can only have heard a voice in audio that is still buffered. */
  ghost predicate GateInv(cfg: Config, s: State) {
    if cfg.gate.enabled then s.gate.hasVoice ==> s.buffer != [] else s.gate.hasVoice
  }

  lemma {:induction false} VoiceIsLatched(cfg: GateConfig, g: Gate, pcm: seq<Sample>)
    requires cfg.hop > 0 && g.hasVoice
    ensures GateDrain(cfg, g, pcm).hasVoice
    decreases |pcm|
  {
    if |pcm| >= cfg.hop {
      VoiceIsLatched(cfg, GateFrame(cfg, g, pcm[..cfg.hop]), pcm[cfg.hop..]);
    }
  }

  lemma FeedKeepsVoice(cfg: Config, s: State, taken: seq<Byte>)
    requires cfg.Valid() && |taken| % 2 == 0 && s.gate.hasVoice
    ensures FeedGate(cfg.gate, s.gate, taken).hasVoice
  {
    if cfg.gate.enabled && taken != [] {
      VoiceIsLatched(cfg.gate, s.gate.(carry := []), s.gate.carry + DecodePcm(taken));
    }
  }

  /**
   The cut. It answers an outstanding partial result if and only if audio is buffered; with an
   empty buffer the partial stays without a segment, and is outstanding no more.
   */
  lemma CutAnswers(cfg: Config, s: State, isStopFlush: bool, id: nat)
    requires Outstanding(s, id) && |s.buffer| % 2 == 0 && IdInv(s)
    ensures !Answered(s.events, id)
    ensures var s' := EmitBuffered(cfg, s, isStopFlush);
      && (Answered(s'.events, id) <==> s.buffer != [])
      && (s.buffer != [] ==>
            s'.events == s.events + [SegmentReady(DecodePcm(s.buffer), isStopFlush, id, s.bufferStart,
                                                  s.bufferStart + |s.buffer| / 2)])
      && (s.buffer == [] ==> !s'.sawPartial && s'.active == Some(id))
  {
    var s' := EmitBuffered(cfg, s, isStopFlush);
    if s.buffer != [] {
      var e := s'.events[|s.events|];
      assert s'.events == s.events + [e];
      assert e in s'.events;
    }
  }

  lemma AnsweredGrows(events: seq<Event>, more: seq<Event>, id: nat)
    requires Answered(events, id)
    ensures Answered(events + more, id)
  {
    var e :| e in events && e.SegmentReady? && e.id == id;
    assert e in events + more;
  }

  /** What one cut does to the promises: with audio buffered, or none outstanding, all are kept. */
  lemma CutKeepsPromises(cfg: Config, s: State, isStopFlush: bool)
    requires |s.buffer| % 2 == 0 && IdInv(s) && PromiseInv(s) && GateInv(cfg, s) && cfg.gate.enabled
    ensures var s' := EmitBuffered(cfg, s, isStopFlush); PromiseInv(s') && GateInv(cfg, s')
  {
    hide IdInv;
    CutShape(cfg, s, isStopFlush);
    hide EmitBuffered;
    var s' := EmitBuffered(cfg, s, isStopFlush);
    var more := s'.events[|s.events|..];
    forall e <- s'.events | e.PartialText? && !s.closed ensures Answered(s'.events, e.id) {
      assert e in s.events;
      if Answered(s.events, e.id) {
        AnsweredGrows(s.events, more, e.id);
      } else {
        CutAnswers(cfg, s, isStopFlush, e.id);
      }
    }
  }

  /** A cut empties the buffer, resets the gate and queues at most a segment. */
  lemma CutShape(cfg: Config, s: State, isStopFlush: bool)
    requires |s.buffer| % 2 == 0
    ensures
      var s' := EmitBuffered(cfg, s, isStopFlush);
      && s'.buffer == [] && s'.gate.hasVoice == !cfg.gate.enabled && s'.closed == s.closed
      && |s'.events| >= |s.events| && s'.events == s.events + s'.events[|s.events|..]
      && forall e <- s'.events[|s.events|..] :: e.SegmentReady?
  {
    hide DecodePcm;
  }

  lemma FeedKeepsPromises(cfg: Config, s: State, bytes: seq<Byte>, room: bool)
    requires cfg.Valid() && cfg.gate.enabled && |s.buffer| % 2 == 0
    requires IdInv(s) && PromiseInv(s) && GateInv(cfg, s)
    ensures var s' := FeedBytes(cfg, s, bytes, room); PromiseInv(s') && GateInv(cfg, s')
  {
    hide FeedGate, EmitBuffered, TrimIdle, Take, IdInv;
    var taken := Accepted(s, bytes);
    if taken != [] {
      var a := Take(cfg, s, taken);
      TakeShape(cfg, s, taken);
      if s.gate.hasVoice {
        FeedKeepsVoice(cfg, s, taken);
      }
      var b := TrimIdle(cfg, a);
      TrimKeepsEnd(cfg, a);
      SameIdOrder(s, b);
      CutKeepsPromises(cfg, b, false);
    }
  }

  lemma SameIdOrder(s: State, s': State)
    requires IdInv(s) && SameIds(s, s')
    ensures IdInv(s')
  {
  }

  lemma PartialKeepsPromises(cfg: Config, s: State, text: string)
    requires PromiseInv(s) && GateInv(cfg, s) && IdInv(s)
    ensures PromiseInv(OnPartial(cfg, s, text)) && GateInv(cfg, OnPartial(cfg, s, text))
  {
    var s' := OnPartial(cfg, s, text);
    forall e <- s'.events | e.PartialText? && !s.closed ensures Answered(s'.events, e.id) || Outstanding(s', e.id) {
      if e in s.events && Answered(s.events, e.id) {
        AnsweredGrows(s.events, s'.events[|s.events|..], e.id);
        assert s'.events == s.events + s'.events[|s.events|..];
      }
    }
  }

  lemma StepKeepsPromises(cfg: Config, r: Run, action: Action)
    requires cfg.Valid() && cfg.gate.enabled && |r.state.buffer| % 2 == 0
    requires IdInv(r.state) && PromiseInv(r.state) && GateInv(cfg, r.state)
    ensures var s' := RunStep(cfg, r, action).state; PromiseInv(s') && GateInv(cfg, s')
  {
    hide IdInv, EmitBuffered, FeedBytes, OnPartial, RunFeed;
    var s := r.state;
    StepIsStream(cfg, r, action);
    if action.Feed? {
      FeedKeepsPromises(cfg, s, action.bytes, action.room);
    } else if !s.closed && !action.CloseRequested? {
      CutKeepsPromises(cfg, s, if action.Endpoint? then s.closing else true);
      if action.Partial? {
        PartialKeepsPromises(cfg, s, action.text);
      }
    }
  }

  // ----- All runs

  ghost predicate Inv(cfg: Config, r: Run) {
    && |r.state.buffer| % 2 == 0 && Balanced(r) && IdInv(r.state) && EndInv(r.state)
    && (cfg.gate.enabled ==> PromiseInv(r.state) && GateInv(cfg, r.state))
  }

  /** The state after a run of steps of the two tasks, in any order. */
  ghost function RunAll(cfg: Config, actions: seq<Action>): (r: Run)
    requires cfg.Valid()
    ensures Balanced(r) && |r.state.buffer| % 2 == 0
  {
    if actions == [] then
      BeginInv(cfg);
      Run(Begin(cfg), [], [])
    else
      var last := |actions| - 1;
      var r := RunAll(cfg, actions[..last]);
      StepBalances(cfg, r, actions[last]);
      RunStep(cfg, r, actions[last])
  }

  /** In every reachable state: samples are conserved, events are in order, promises are kept. */
  lemma {:induction false} EveryRun(cfg: Config, actions: seq<Action>)
    requires cfg.Valid()
    ensures Inv(cfg, RunAll(cfg, actions))
    decreases |actions|
  {
    hide Balanced, IdInv, EndInv, PromiseInv, GateInv, RunStep;
    if actions == [] {
      BeginInv(cfg);
    } else {
      var last := |actions| - 1;
      var r := RunAll(cfg, actions[..last]);
      EveryRun(cfg, actions[..last]);
      StepBalances(cfg, r, actions[last]);
      StepKeepsOrder(cfg, r, actions[last]);
      if cfg.gate.enabled {
        StepKeepsPromises(cfg, r, actions[last]);
      }
    }
  }

  lemma BeginInv(cfg: Config)
    requires cfg.Valid()
    ensures Inv(cfg, Run(Begin(cfg), [], []))
  {
  }

  lemma Promised(cfg: Config, s: State, e: Event)
    requires PromiseInv(s) && GateInv(cfg, s) && cfg.gate.enabled && e in s.events && e.PartialText? && !s.closed
    ensures Answered(s.events, e.id) || (Outstanding(s, e.id) && s.buffer != [])
  {
  }

  /**
   With the voice gate on, while the receive loop is at work, a partial result that has been shown is
   answered by the next cut of any kind: neither dropped as silence nor for want of a voice.
   */
  lemma PartialIsAnswered(cfg: Config, actions: seq<Action>, text: string, id: nat, isStopFlush: bool)
    requires cfg.Valid() && cfg.gate.enabled && !RunAll(cfg, actions).state.closed
    requires
      var s := RunAll(cfg, actions).state;
      PartialText(text, id) in s.events && !Answered(s.events, id)
    ensures
      var s := RunAll(cfg, actions).state;
      && s.buffer != []
      && EmitBuffered(cfg, s, isStopFlush).events
         == s.events + [SegmentReady(DecodePcm(s.buffer), isStopFlush, id, s.bufferStart, s.bufferStart + |s.buffer| / 2)]
  {
    hide Balanced, IdInv, EndInv, EmitBuffered, RunAll;
    EveryRun(cfg, actions);
    var s := RunAll(cfg, actions).state;
    Promised(cfg, s, PartialText(text, id));
    hide PromiseInv, GateInv;
    CutAnswers(cfg, s, isStopFlush, id);
  }

  /**
   One step, with or without the gate: an outstanding partial result is lost, neither answered nor
   waiting any more, exactly if the call just ends, without any last event, or a cut finds no audio.
   */
  lemma LostExactly(cfg: Config, r: Run, action: Action, id: nat)
    requires cfg.Valid() && |r.state.buffer| % 2 == 0 && IdInv(r.state) && Outstanding(r.state, id)
    ensures
      var s' := RunStep(cfg, r, action).state;
      !Outstanding(s', id) && !Answered(s'.events, id)
      <==> action.CallOver?
           || (r.state.buffer == [] && (action.Endpoint? || action.Error? || action.CallFailed? || action.SessionEnded?))
  {
    hide IdInv, EmitBuffered, FeedBytes, RunFeed;
    var s := r.state;
    StepIsStream(cfg, r, action);
    CutAnswers(cfg, s, s.closing, id);
    CutAnswers(cfg, s, true, id);
    CutShape(cfg, s, true);
    var cut := EmitBuffered(cfg, s, true);
    match action {
      case Feed(bytes, room) => FeedAnswers(cfg, s, bytes, room, id);
      case Error(message) => FinishAnswersNone(cut, [Failure(message)], id);
      case CallFailed(message) => FinishAnswersNone(cut, [Failure(message)], id);
      case SessionEnded => FinishAnswersNone(cut, [], id);
      case CallOver => FinishAnswersNone(s, [], id);
      case _ =>
    }
  }

  /** The end of the queue answers nothing. */
  lemma FinishAnswersNone(s: State, last: seq<Event>, id: nat)
    requires |last| <= 1 && (last != [] ==> last[0].Failure?)
    ensures Answered(Finish(s, last).events, id) <==> Answered(s.events, id)
  {
    var events := s.events + last + [Sentinel];
    assert events == s.events + (last + [Sentinel]);
    if Answered(s.events, id) {
      AnsweredGrows(s.events, last + [Sentinel], id);
    }
  }

  // ----- After the loop has stopped

  lemma ClosedIsFinal(cfg: Config, r: Run, action: Action)
    requires cfg.Valid() && |r.state.buffer| % 2 == 0 && r.state.closed
    ensures RunStep(cfg, r, action).state.events == r.state.events && RunStep(cfg, r, action).state.closed
  {
  }

  lemma {:induction false} NothingFollows(cfg: Config, actions: seq<Action>, n: nat)
    requires cfg.Valid() && n <= |actions| && RunAll(cfg, actions[..n]).state.closed
    ensures RunAll(cfg, actions).state.events == RunAll(cfg, actions[..n]).state.events
    ensures RunAll(cfg, actions).state.closed
    decreases |actions|
  {
    hide RunStep, Balanced;
    if n == |actions| {
      assert actions[..n] == actions;
    } else {
      var last := |actions| - 1;
      assert actions[..last][..n] == actions[..n];
      NothingFollows(cfg, actions[..last], n);
      ClosedIsFinal(cfg, RunAll(cfg, actions[..last]), actions[last]);
    }
  }

  /** The step that stops the loop answers what was still open, unless it is the bare end of the call. */
  lemma StopAnswers(cfg: Config, r: Run, action: Action, text: string, id: nat)
    requires cfg.Valid() && cfg.gate.enabled && Inv(cfg, r)
    requires !r.state.closed && RunStep(cfg, r, action).state.closed
    requires PartialText(text, id) in RunStep(cfg, r, action).state.events
    ensures
      Answered(RunStep(cfg, r, action).state.events, id)
      <==> !(action.CallOver? && !Answered(r.state.events, id))
  {
    hide IdInv, EmitBuffered, FeedBytes, RunFeed, EndInv, Balanced, OnPartial;
    var s := r.state;
    StepIsStream(cfg, r, action);
    FeedStaysOpen(cfg, s, action);
    CutShape(cfg, s, true);
    CutShape(cfg, s, s.closing);
    var cut := EmitBuffered(cfg, s, true);
    assert PartialText(text, id) in s.events;
    match action {
      case Error(message) => FinishAnswersNone(cut, [Failure(message)], id);
      case CallFailed(message) => FinishAnswersNone(cut, [Failure(message)], id);
      case SessionEnded => FinishAnswersNone(cut, [], id);
      case CallOver => FinishAnswersNone(s, [], id);
      case _ =>
    }
    if Answered(s.events, id) {
      AnsweredGrows(s.events, cut.events[|s.events|..], id);
    } else {
      Promised(cfg, s, PartialText(text, id));
      CutAnswers(cfg, s, true, id);
    }
  }

  lemma FeedStaysOpen(cfg: Config, s: State, action: Action)
    requires cfg.Valid() && |s.buffer| % 2 == 0 && !s.closed
    ensures action.Feed? ==> !FeedBytes(cfg, s, action.bytes, action.room).closed
    ensures action.Partial? ==> !OnPartial(cfg, s, action.text).closed
  {
    hide FeedGate;
  }

  /**
   Over every run with the gate enabled, of which step n stopped the receive loop: a partial result
   has been answered, now and for ever, if and only if the loop did not stop by the bare end of the
   call while it was unanswered.
   */
  lemma AnsweredUnlessCallEnds(cfg: Config, actions: seq<Action>, n: nat, text: string, id: nat)
    requires cfg.Valid() && cfg.gate.enabled && n < |actions|
    requires !RunAll(cfg, actions[..n]).state.closed && RunAll(cfg, actions[..n + 1]).state.closed
    requires PartialText(text, id) in RunAll(cfg, actions).state.events
    ensures RunAll(cfg, actions).state.closed
    ensures
      Answered(RunAll(cfg, actions).state.events, id)
      <==> !(actions[n].CallOver? && !Answered(RunAll(cfg, actions[..n]).state.events, id))
  {
    hide RunStep, Inv, Balanced;
    NothingFollows(cfg, actions, n + 1);
    EveryRun(cfg, actions[..n]);
    assert actions[..n + 1][..n] == actions[..n];
    StopAnswers(cfg, RunAll(cfg, actions[..n]), actions[n], text, id);
  }

  lemma FeedAnswers(cfg: Config, s: State, bytes: seq<Byte>, room: bool, id: nat)
    requires cfg.Valid() && |s.buffer| % 2 == 0 && IdInv(s) && Outstanding(s, id)
    ensures var s' := FeedBytes(cfg, s, bytes, room); Outstanding(s', id) || Answered(s'.events, id)
  {
    hide IdInv, EmitBuffered, FeedGate, Take;
    var taken := Accepted(s, bytes);
    if taken != [] {
      var a := Take(cfg, s, taken);
      TakeShape(cfg, s, taken);
      FeedKeepsVoice(cfg, s, taken);
      SameIdOrder(s, a);
      CutAnswers(cfg, a, false, id);
    }
  }

  // ----- Two runs that lose a partial result

  const GATED := Config(GateConfig(true, 0.5, 1, 0.0, 1, _ => 1.0), true, 0, 0.0, _ => 1.0)

  const CALL_ENDS := [Feed([0, 0], true), Partial("a"), CallOver]

  /** One more step of a run. */
  lemma OneStep(cfg: Config, actions: seq<Action>, n: nat)
    requires cfg.Valid() && n < |actions|
    ensures |RunAll(cfg, actions[..n]).state.buffer| % 2 == 0
    ensures RunAll(cfg, actions[..n + 1]) == RunStep(cfg, RunAll(cfg, actions[..n]), actions[n])
  {
    hide RunStep, Balanced;
    assert actions[..n + 1][..n] == actions[..n];
  }

  lemma NoStep(cfg: Config, actions: seq<Action>)
    requires cfg.Valid()
    ensures RunAll(cfg, actions[..0]) == Run(Begin(cfg), [], [])
  {
  }

  /** The gate is on, a partial is shown over buffered audio, and the call just ends: its segment never comes. */
  lemma EndedCallLosesPartial()
    ensures GATED.Valid()
    ensures
      var s := RunAll(GATED, CALL_ENDS).state;
      s.closed && s.events == [PartialText("a", 1), Sentinel] && s.buffer == [0, 0]
  {
    hide RunStep, RunAll, Balanced;
    NoStep(GATED, CALL_ENDS);
    OneStep(GATED, CALL_ENDS, 0);
    OneStep(GATED, CALL_ENDS, 1);
    OneStep(GATED, CALL_ENDS, 2);
    assert CALL_ENDS[..3] == CALL_ENDS;
    VoicedFeed();
    EndedSteps(RunAll(GATED, CALL_ENDS[..1]));
  }

  lemma VoicedFeed()
    ensures
      var s := RunStep(GATED, Run(Begin(GATED), [], []), Feed([0, 0], true)).state;
      && s.buffer == [0, 0] && !s.closed && !s.closing && s.gate.hasVoice
      && s.events == [] && s.active == None && s.segmentSeq == 0
  {
    var s := Begin(GATED);
    var x := DecodePcm([0, 0]);
    assert Accepted(s, [0, 0]) == [0, 0];
    assert [] + x == x && x[..1] == x && x[1..] == [];
    TakeShape(GATED, s, [0, 0]);
    TrimKeepsEnd(GATED, Take(GATED, s, [0, 0]));
    assert GateFrame(GATED.gate, s.gate.(carry := []), x).hasVoice;
    assert FeedGate(GATED.gate, s.gate, [0, 0]).hasVoice;
  }

  lemma EndedSteps(r: Run)
    requires |r.state.buffer| % 2 == 0
    requires
      var s := r.state;
      && s.buffer == [0, 0] && !s.closed && !s.closing && s.gate.hasVoice
      && s.events == [] && s.active == None && s.segmentSeq == 0
    ensures
      var r' := RunStep(GATED, r, Partial("a"));
      && |r'.state.buffer| % 2 == 0
      && var s := RunStep(GATED, r', CallOver).state;
         s.closed && s.events == [PartialText("a", 1), Sentinel] && s.buffer == [0, 0]
  {
  }

  const UNGATED := Config(GateConfig(false, 0.5, 1, 0.0, 1, _ => 0.0), true, 0, 0.0, _ => 0.0)

  const LOSING_ACTIONS := [Partial("a"), Endpoint, Feed([0, 0], true), Endpoint]

  /**
   With the gate off, k2 reports a partial and an endpoint before any audio has been buffered, then
   silence: the partial's id is spent on the silence, and no segment with it will come.
   */
  lemma UngatedPartialIsLost()
    ensures UNGATED.Valid()
    ensures
      var s := RunAll(UNGATED, LOSING_ACTIONS).state;
      s.events == [PartialText("a", 1)] && s.segmentSeq == 1 && s.active == None
  {
    hide RunStep, RunAll, Balanced;
    var acts := LOSING_ACTIONS;
    NoStep(UNGATED, acts);
    var r1, r2, r3, r4 := LosingSteps(Run(Begin(UNGATED), [], []));
    OneStep(UNGATED, acts, 0);
    OneStep(UNGATED, acts, 1);
    OneStep(UNGATED, acts, 2);
    OneStep(UNGATED, acts, 3);
    assert acts[..4] == acts;
  }

  lemma LosingSteps(r0: Run) returns (r1: Run, r2: Run, r3: Run, r4: Run)
    requires r0 == Run(Begin(UNGATED), [], [])
    ensures r0.state.buffer == r1.state.buffer == r2.state.buffer == [] && |r3.state.buffer| == 2
    ensures r1 == RunStep(UNGATED, r0, LOSING_ACTIONS[0]) && r2 == RunStep(UNGATED, r1, LOSING_ACTIONS[1])
    ensures r3 == RunStep(UNGATED, r2, LOSING_ACTIONS[2]) && r4 == RunStep(UNGATED, r3, LOSING_ACTIONS[3])
    ensures r4.state.events == [PartialText("a", 1)] && r4.state.segmentSeq == 1 && r4.state.active == None
  {
    var gate := Gate([], None, 0, true, []);
    r1 := RunStep(UNGATED, r0, LOSING_ACTIONS[0]);
    assert r1.state == State([], 0, 0, true, 1, Some(1), false, gate, false, false, [PartialText("a", 1)]);
    r2 := RunStep(UNGATED, r1, LOSING_ACTIONS[1]);
    assert r2.state == r1.state.(sawPartial := false);
    r3 := RunStep(UNGATED, r2, LOSING_ACTIONS[2]);
    SilentFeed(r2);
    r4 := RunStep(UNGATED, r3, LOSING_ACTIONS[3]);
  }

  /** Two bytes of silence are buffered, and neither trimmed nor cut. */
  lemma SilentFeed(r: Run)
    requires !r.state.closing && !r.state.closed && r.state.buffer == [] && r.state.active.Some?
    requires !r.state.sawPartial && !r.state.idleSeenSpeech && r.state.gate.hasVoice
    ensures
      var s' := RunStep(UNGATED, r, Feed([0, 0], true)).state;
      && s'.buffer == [0, 0] && !s'.sawPartial && s'.active == r.state.active && s'.segmentSeq == r.state.segmentSeq
      && s'.events == r.state.events && !s'.closed && !s'.closing
  {
    assert Accepted(r.state, [0, 0]) == [0, 0];
    TakeShape(UNGATED, r.state, [0, 0]);
    TrimKeepsEnd(UNGATED, Take(UNGATED, r.state, [0, 0]));
  }

  // ----- The buffer is bounded

  /** After a feed that succeeds the buffer is below the force-cut cap and, while idle, within the idle keep. */
  lemma FeedIsBounded(cfg: Config, s: State, bytes: seq<Byte>)
    requires cfg.Valid() && |s.buffer| % 2 == 0 && Accepted(s, bytes) != []
    ensures
      var s' := FeedBytes(cfg, s, bytes, true);
      && (cfg.MaxSamples() > 0 ==> |s'.buffer| / 2 < cfg.MaxSamples())
      && (cfg.KeepSamples() > 0 && !s'.sawPartial && !s'.idleSeenSpeech ==> |s'.buffer| / 2 <= cfg.KeepSamples())
  {
    hide FeedGate, TrimIdle, Take;
    var a := Take(cfg, s, Accepted(s, bytes));
    TakeShape(cfg, s, Accepted(s, bytes));
    TrimKeepsEnd(cfg, a);
  }
}
