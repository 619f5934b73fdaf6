/**
 When the offline replay cuts by force (backend/asr/transcribe.py, segment_pcm_offline): it waits for the
 cap, and at a chunk boundary it does not wait any longer.
 */
module ForceCut {
  import opened Basics
  import opened AudioStream
  import opened Timeline
  import opened Seams
  import opened Transcribe
  import opened OfflineRuns

  /** What the loop does behind a chunk. */
  function BehindChunk(cfg: Config, cap: nat, a: Run): Run {
    if Overfull(cfg, cap, a.stream) then RunFlush(cfg, a, true) else a
  }

  /** The recorded replay up to the last chunk, without the final flush. */
  function OfflineLoop(cfg: Config, cap: nat, r: Run, bytes: seq<Byte>): Run
    requires cfg.hop > 0 && |bytes| % 2 == 0
    decreases |bytes|
  {
    if bytes == [] then r
    else
      var chunk := FirstChunk(bytes);
      var a := RunFeed(cfg, r, DecodePcm(chunk), 0.0);
      OfflineLoop(cfg, cap, BehindChunk(cfg, cap, a), bytes[|chunk|..])
  }

  lemma {:induction false} LoopThenFlush(cfg: Config, cap: nat, r: Run, bytes: seq<Byte>)
    requires cfg.hop > 0 && |bytes| % 2 == 0
    ensures OfflineRun(cfg, cap, r, bytes) == RunFlush(cfg, OfflineLoop(cfg, cap, r, bytes), true)
    decreases |bytes|
  {
    hide RunFeed, RunFlush, Overfull;
    if bytes != [] {
      var chunk := FirstChunk(bytes);
      var a := RunFeed(cfg, r, DecodePcm(chunk), 0.0);
      LoopThenFlush(cfg, cap, BehindChunk(cfg, cap, a), bytes[|chunk|..]);
    }
  }

  // ----- Feeding closes by silence only

  lemma FrameClosesBySilence(cfg: Config, r: Run, frame: Frame)
    ensures forall u <- RunFrame(cfg, r, frame).utterances :: u in r.utterances || u.closing == BySilence
  {
  }

  lemma {:induction false} DrainClosesBySilence(cfg: Config, r: Run, pcm: seq<Sample>)
    requires cfg.hop > 0
    ensures forall u <- RunDrain(cfg, r, pcm).utterances :: u in r.utterances || u.closing == BySilence
    decreases |pcm|
  {
    hide RunFrame;
    if |pcm| >= cfg.hop {
      FrameClosesBySilence(cfg, r, pcm[..cfg.hop]);
      DrainClosesBySilence(cfg, RunFrame(cfg, r, pcm[..cfg.hop]), pcm[cfg.hop..]);
    }
  }

  lemma FeedClosesBySilence(cfg: Config, r: Run, pcm: seq<Sample>, now: real)
    requires cfg.hop > 0
    ensures forall u <- RunFeed(cfg, r, pcm, now).utterances :: u in r.utterances || u.closing == BySilence
  {
    DrainClosesBySilence(cfg, r.(stream := r.stream.(carry := [])), r.stream.carry + pcm);
  }

  // ----- A forced flush closes the whole buffer

  /** The utterance a forced flush closes: all frames buffered, up to the last one processed. */
  ghost predicate ClosesBuffer(r: Run, u: Utterance) {
    && u.closing == ByFlush(true) && u.cutAt == u.last == |r.stream.heard|
    && u.last - u.first == |r.stream.vad.audio| && u.segment.Some?
  }

  lemma FlushCloses(cfg: Config, r: Run)
    requires cfg.Valid() && StateInv(cfg, r)
    ensures
      var after := RunFlush(cfg, r, true);
      if r.stream.vad.speaking then
        |after.utterances| == |r.utterances| + 1
        && after.utterances[..|r.utterances|] == r.utterances && ClosesBuffer(r, after.utterances[|r.utterances|])
      else after.utterances == r.utterances
  {
    hide At, Sound, TimedSegment, Flatten;
    FlushUtterance(cfg, r, true);
    var n := |r.stream.heard|;
    var added := Closed(r, FlushStream(cfg, r.stream, true), n, n, ByFlush(true));
    if r.stream.vad.speaking {
      assert |added| == 1 && added[0] in added;
      SoundShape(cfg, added[0], r.stream.heard, r.flags);
      assert LongEnough(cfg, added[0].last - added[0].first, ByFlush(true));
    } else {
      assert r.utterances + [] == r.utterances;
    }
  }

  // ----- The cut waits for the cap

  /** An utterance that was cut by force holds at least a positive cap. */
  ghost predicate Waited(cfg: Config, cap: nat, utterances: seq<Utterance>) {
    forall u <- utterances :: u.closing.ByFlush? ==> cap > 0 && u.last >= u.first && At(u.last - u.first, cfg.hop) >= cap
  }

  /** The open utterance has not reached a positive cap. */
  predicate BelowCap(cfg: Config, cap: nat, r: Run) {
    cap > 0 && r.stream.vad.speaking ==> At(|r.stream.vad.audio|, cfg.hop) < cap
  }

  /** What becomes of the state behind a chunk: an open utterance that has reached a positive cap is closed whole. */
  ghost predicate CutsAtCap(cfg: Config, cap: nat, a: Run, b: Run) {
    if cap > 0 && a.stream.vad.speaking && At(|a.stream.vad.audio|, cfg.hop) >= cap then
      && |b.utterances| == |a.utterances| + 1 && b.utterances[..|a.utterances|] == a.utterances
      && ClosesBuffer(a, b.utterances[|a.utterances|]) && !b.stream.vad.speaking
    else b == a
  }

  lemma ChunkCuts(cfg: Config, cap: nat, a: Run)
    requires cfg.Valid() && RunInv(cfg, a)
    ensures RunInv(cfg, BehindChunk(cfg, cap, a)) && CutsAtCap(cfg, cap, a, BehindChunk(cfg, cap, a))
  {
    hide RunFlush, ClosesBuffer, StateInv, LogInv;
    RunFlushKeeps(cfg, a, true);
    FlushCloses(cfg, a);
  }

  lemma {:induction false} LoopWaits(cfg: Config, cap: nat, r: Run, bytes: seq<Byte>)
    requires cfg.Valid() && |bytes| % 2 == 0 && RunInv(cfg, r) && Waited(cfg, cap, r.utterances) && BelowCap(cfg, cap, r)
    ensures
      var loop := OfflineLoop(cfg, cap, r, bytes);
      RunInv(cfg, loop) && Waited(cfg, cap, loop.utterances) && BelowCap(cfg, cap, loop)
    decreases |bytes|
  {
    hide RunFeed, BehindChunk, RunInv, CutsAtCap, Waited, BelowCap;
    if bytes != [] {
      var chunk := FirstChunk(bytes);
      var a := RunFeed(cfg, r, DecodePcm(chunk), 0.0);
      var b := BehindChunk(cfg, cap, a);
      RunFeedKeeps(cfg, r, DecodePcm(chunk), 0.0);
      ChunkCuts(cfg, cap, a);
      FeedClosesBySilence(cfg, r, DecodePcm(chunk), 0.0);
      CutWaits(cfg, cap, r, a, b);
      LoopWaits(cfg, cap, b, bytes[|chunk|..]);
    }
  }

  lemma CutWaits(cfg: Config, cap: nat, r: Run, a: Run, b: Run)
    requires Waited(cfg, cap, r.utterances) && CutsAtCap(cfg, cap, a, b)
    requires forall u <- a.utterances :: u in r.utterances || u.closing == BySilence
    ensures Waited(cfg, cap, b.utterances) && BelowCap(cfg, cap, b)
  {
    hide At;
    forall u <- b.utterances | u.closing.ByFlush?
      ensures cap > 0 && u.last >= u.first && At(u.last - u.first, cfg.hop) >= cap
    {
      var i :| 0 <= i < |b.utterances| && b.utterances[i] == u;
      if i < |a.utterances| {
        assert a.utterances[i] == u;
      }
    }
  }

  /**
   The replay of a recording cuts by force exactly at the cap: every utterance closed by a flush before the
   final one holds at least a positive cap, behind no chunk is an open utterance that has reached it, and
   only the final flush closes what is then still open. Without a cap there is no other flush.
   */
  lemma ForceCutsAtCap(cfg: Config, cap: nat, bytes: seq<Byte>)
    requires cfg.Valid() && |bytes| % 2 == 0
    ensures
      var loop, r := OfflineLoop(cfg, cap, START, bytes), OfflineRun(cfg, cap, START, bytes);
      && (forall u <- loop.utterances | u.closing.ByFlush? :: cap > 0 && At(u.last - u.first, cfg.hop) >= cap)
      && (cap > 0 && loop.stream.vad.speaking ==> At(|loop.stream.vad.audio|, cfg.hop) < cap)
      && (if loop.stream.vad.speaking then
            |r.utterances| == |loop.utterances| + 1 && r.utterances[..|loop.utterances|] == loop.utterances
            && ClosesBuffer(loop, r.utterances[|loop.utterances|])
          else r.utterances == loop.utterances)
  {
    StartInv(cfg);
    assert Waited(cfg, cap, START.utterances) && BelowCap(cfg, cap, START);
    hide OfflineLoop, OfflineRun, StateInv, LogInv, RunFlush, ClosesBuffer;
    LoopWaits(cfg, cap, START, bytes);
    LoopThenFlush(cfg, cap, START, bytes);
    FlushCloses(cfg, OfflineLoop(cfg, cap, START, bytes));
  }
}
