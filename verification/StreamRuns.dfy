/** How a stream of audio is cut into feeds does not matter to VadSegmentedStream. */
module StreamRuns {
  import opened Basics
  import opened Events
  import opened AudioStream

  // ----- Chunking

  datatype Chunk = Chunk(bytes: seq<Byte>, now: real)

  ghost predicate Even(chunks: seq<Chunk>) {
    forall c <- chunks :: |c.bytes| % 2 == 0
  }

  function FeedAll(cfg: Config, s: Stream, chunks: seq<Chunk>): Output
    requires cfg.hop > 0 && Even(chunks)
    decreases |chunks|
  {
    if chunks == [] then Output(s, [])
    else
      var a := FeedPcm(cfg, s, DecodePcm(chunks[0].bytes), chunks[0].now);
      var b := FeedAll(cfg, a.next, chunks[1..]);
      Output(b.next, a.events + b.events)
  }

  /** All the samples of the chunks, in order. */
  function PcmOf(chunks: seq<Chunk>): seq<Sample>
    requires Even(chunks)
  {
    if chunks == [] then [] else DecodePcm(chunks[0].bytes) + PcmOf(chunks[1..])
  }

  function BytesOf(chunks: seq<Chunk>): seq<Byte> {
    if chunks == [] then [] else chunks[0].bytes + BytesOf(chunks[1..])
  }

  lemma {:induction false} PcmOfBytes(chunks: seq<Chunk>)
    requires Even(chunks)
    ensures |BytesOf(chunks)| % 2 == 0 && DecodePcm(BytesOf(chunks)) == PcmOf(chunks)
  {
    if chunks != [] {
      PcmOfBytes(chunks[1..]);
      DecodePcmAppend(chunks[0].bytes, BytesOf(chunks[1..]));
    }
  }

  /** Events other than the throttled snapshots. */
  function Essential(events: seq<StreamEvent>): seq<StreamEvent> {
    if events == [] then []
    else (if events[0].PartialSnapshot? then [] else [events[0]]) + Essential(events[1..])
  }

  lemma {:induction false} EssentialAppend(a: seq<StreamEvent>, b: seq<StreamEvent>)
    ensures Essential(a + b) == Essential(a) + Essential(b)
  {
    if a == [] {
      assert a + b == b;
    } else {
      assert (a + b)[1..] == a[1..] + b;
      EssentialAppend(a[1..], b);
      var head := if a[0].PartialSnapshot? then [] else [a[0]];
      assert Essential(a) == head + Essential(a[1..]);
      assert Essential(a + b) == head + (Essential(a[1..]) + Essential(b));
    }
  }

  /** The state without the time of the last snapshot, which only throttles snapshots. */
  function Timeless(s: Stream): Stream { s.(lastPartial := 0.0) }

  function TimelessOutput(o: Output): Output { Output(Timeless(o.next), Essential(o.events)) }

  lemma FrameStepTimeless(cfg: Config, s: Stream, frame: Frame)
    ensures TimelessOutput(FrameStep(cfg, s, frame)) == FrameStep(cfg, Timeless(s), frame)
  {
    var o := FrameStep(cfg, s, frame);
    assert |o.events| <= 1 && (forall e <- o.events :: !e.PartialSnapshot?);
    assert Essential(o.events) == o.events;
  }

  lemma {:induction false} DrainTimeless(cfg: Config, s: Stream, pcm: seq<Sample>)
    requires cfg.hop > 0
    ensures TimelessOutput(Drain(cfg, s, pcm)) == Drain(cfg, Timeless(s), pcm)
    decreases |pcm|
  {
    if |pcm| >= cfg.hop {
      var a := FrameStep(cfg, s, pcm[..cfg.hop]);
      var rest := pcm[cfg.hop..];
      FrameStepTimeless(cfg, s, pcm[..cfg.hop]);
      DrainTimeless(cfg, a.next, rest);
      EssentialAppend(a.events, Drain(cfg, a.next, rest).events);
    }
  }

  /** Cutting a buffer anywhere, even inside a frame, changes nothing: the carry makes up for it. */
  lemma {:induction false} DrainAppend(cfg: Config, s: Stream, x: seq<Sample>, y: seq<Sample>)
    requires cfg.hop > 0
    ensures
      var a := Drain(cfg, s, x);
      var b := Drain(cfg, a.next.(carry := []), a.next.carry + y);
      |a.next.carry| < cfg.hop && Drain(cfg, s.(carry := []), x + y) == Output(b.next, a.events + b.events)
    decreases |x|
  {
    hide FrameStep;
    FrameIgnoresCarry(cfg, s, []);
    if |x| >= cfg.hop {
      var frame, rest := x[..cfg.hop], x[cfg.hop..];
      var step := FrameStep(cfg, s, frame);
      assert (x + y)[..cfg.hop] == frame && (x + y)[cfg.hop..] == rest + y;
      DrainAppend(cfg, step.next, rest, y);
      var a := Drain(cfg, step.next, rest);
      var b := Drain(cfg, a.next.(carry := []), a.next.carry + y);
      assert step.events + (a.events + b.events) == (step.events + a.events) + b.events;
    } else {
      var b := Drain(cfg, s.(carry := []), x + y);
      assert [] + b.events == b.events;
    }
  }

  lemma FrameIgnoresCarry(cfg: Config, s: Stream, carry: seq<Sample>)
    ensures forall frame ::
      FrameStep(cfg, s.(carry := carry), frame).events == FrameStep(cfg, s, frame).events
      && FrameStep(cfg, s.(carry := carry), frame).next == FrameStep(cfg, s, frame).next.(carry := carry)
  {
  }

  /** A feed without its snapshot: the carry and the new samples are drained together. */
  function Absorb(cfg: Config, s: Stream, pcm: seq<Sample>): Output
    requires cfg.hop > 0
  {
    Drain(cfg, s.(carry := []), s.carry + pcm)
  }

  lemma AbsorbAppend(cfg: Config, s: Stream, p: seq<Sample>, q: seq<Sample>)
    requires cfg.hop > 0
    ensures
      var a := Absorb(cfg, s, p);
      var b := Absorb(cfg, a.next, q);
      |a.next.carry| < cfg.hop && Absorb(cfg, s, p + q) == Output(b.next, a.events + b.events)
  {
    assert s.carry + (p + q) == (s.carry + p) + q;
    DrainAppend(cfg, s.(carry := []), s.carry + p, q);
  }

  lemma FeedTimeless(cfg: Config, s: Stream, pcm: seq<Sample>, now: real)
    requires cfg.hop > 0
    ensures TimelessOutput(FeedPcm(cfg, s, pcm, now)) == Absorb(cfg, Timeless(s), pcm)
    ensures !cfg.enablePartial ==> FeedPcm(cfg, s, pcm, now) == Absorb(cfg, s, pcm)
  {
    var a := Absorb(cfg, s, pcm);
    var b := PartialStep(cfg, a.next, now);
    DrainTimeless(cfg, s.(carry := []), s.carry + pcm);
    EssentialAppend(a.events, b.events);
    assert Essential(b.events) == [];
    assert Essential(a.events) + [] == Essential(a.events) && a.events + [] == a.events;
  }

  lemma {:induction false} FeedAllIsAbsorb(cfg: Config, s: Stream, chunks: seq<Chunk>)
    requires cfg.hop > 0 && |s.carry| < cfg.hop && Even(chunks)
    ensures TimelessOutput(FeedAll(cfg, s, chunks)) == Absorb(cfg, Timeless(s), PcmOf(chunks))
    ensures !cfg.enablePartial ==> FeedAll(cfg, s, chunks) == Absorb(cfg, s, PcmOf(chunks))
    decreases |chunks|
  {
    if chunks == [] {
      assert s.carry + [] == s.carry;
    } else {
      var head, tail := DecodePcm(chunks[0].bytes), chunks[1..];
      var a := FeedPcm(cfg, s, head, chunks[0].now);
      FeedTimeless(cfg, s, head, chunks[0].now);
      AbsorbAppend(cfg, s, head, PcmOf(tail));
      AbsorbAppend(cfg, Timeless(s), head, PcmOf(tail));
      FeedAllIsAbsorb(cfg, a.next, tail);
      EssentialAppend(a.events, FeedAll(cfg, a.next, tail).events);
    }
  }

  /**
   Chunking invariance. However the bytes are cut into even chunks, and whenever they arrive,
   the stream ends in the state, and has emitted the events, of a single feed of all of them;
   only snapshots, and the time of the last one, may differ.
   */
  lemma ChunkingInvariance(cfg: Config, s: Stream, chunks: seq<Chunk>, now: real)
    requires cfg.hop > 0 && |s.carry| < cfg.hop && Even(chunks)
    ensures |BytesOf(chunks)| % 2 == 0
    ensures
      var once := FeedPcm(cfg, s, DecodePcm(BytesOf(chunks)), now);
      && TimelessOutput(FeedAll(cfg, s, chunks)) == TimelessOutput(once)
      && (!cfg.enablePartial ==> FeedAll(cfg, s, chunks) == once)
  {
    PcmOfBytes(chunks);
    FeedAllIsAbsorb(cfg, s, chunks);
    FeedTimeless(cfg, s, PcmOf(chunks), now);
  }
}
