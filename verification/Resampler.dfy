/**
 The streaming 48 kHz to 16 kHz resampler (backend/audio/utils.py, class Resampler48to16):
 an FIR filter by overlap-save, then decimation by three. Taps and samples are exact reals;
 the design of the kernel plays no part.
 */
module Resampler {
  import opened Basics

  const RATIO: nat := 3

  /** How many of n samples fill whole triples. */
  function Triples(n: nat): (w: nat)
    ensures w <= n < w + RATIO
  {
    n / RATIO * RATIO
  }

  /** Sum of h[j] * x[at - j] over the first n taps. */
  function Dot(h: seq<real>, x: seq<real>, at: nat, n: nat): real
    requires n <= |h| && n <= at + 1 <= |x|
  {
    if n == 0 then 0.0 else Dot(h, x, at, n - 1) + h[n - 1] * x[at - (n - 1)]
  }

  /** `np.convolve(x, h, "valid")` for x at least as long as h. */
  function Convolve(x: seq<real>, h: seq<real>): (y: seq<real>)
    requires 0 < |h| <= |x|
    ensures |y| == |x| - |h| + 1
  {
    seq(|x| - |h| + 1, m requires 0 <= m < |x| - |h| + 1 => Dot(h, x, m + |h| - 1, |h|))
  }

  /** `y[::3]` */
  function Decimate(y: seq<real>): (d: seq<real>)
    ensures |d| == (|y| + 2) / 3
  {
    seq((|y| + 2) / 3, k requires 0 <= k < (|y| + 2) / 3 => y[3 * k])
  }

  /** `x[-n:]`; for n = 0 that is all of x. */
  function Last(x: seq<real>, n: nat): seq<real> {
    if n == 0 || n >= |x| then x else x[|x| - n..]
  }

  function Zeros(n: nat): (z: seq<real>)
    ensures |z| == n && forall i :: 0 <= i < n ==> z[i] == 0.0
  {
    seq(n, i => 0.0)
  }

  datatype State = State(overlap: seq<real>, tail: seq<real>)

  function Begin(h: seq<real>): State
    requires |h| > 0
  {
    State(Zeros(|h| - 1), [])
  }

  datatype Output = Output(next: State, pcm: seq<real>)

  function ProcessChunk(h: seq<real>, s: State, chunk: seq<real>): Output
    requires 0 < |h| <= |s.overlap| + 1
  {
    var buf := s.tail + chunk;
    var usable := Triples(|buf|);
    if usable == 0 then Output(State(s.overlap, buf), [])
    else
      var ext := s.overlap + buf[..usable];
      Output(State(Last(ext, |h| - 1), buf[usable..]), Decimate(Convolve(ext, h)))
  }

  class Resampler48to16 {
    const kernel: seq<real>
    var overlap: seq<real>
    var tail: seq<real>

    ghost predicate Valid()
      reads this
    {
      0 < |kernel| <= |overlap| + 1
    }

    function Contents(): State
      reads this
    {
      State(overlap, tail)
    }

    constructor (kernel: seq<real>)
      requires |kernel| > 0
      ensures Valid() && this.kernel == kernel && Contents() == Begin(kernel)
    {
      this.kernel := kernel;
      overlap, tail := Zeros(|kernel| - 1), [];
    }

    method Process(pcm48k: seq<real>) returns (pcm16k: seq<real>)
      requires Valid()
      modifies this
      ensures Valid() && Output(Contents(), pcm16k) == ProcessChunk(kernel, old(Contents()), pcm48k)
    {
      var buf := if |tail| > 0 then tail + pcm48k else pcm48k;
      assert buf == tail + pcm48k;
      var usable := |buf| / RATIO * RATIO;
      if usable == 0 {
        tail := buf;
        return [];
      }
      tail := buf[usable..];
      var seg := buf[..usable];
      var ext := overlap + seg;
      var flt := Convolve(ext, kernel);
      overlap := Last(ext, |kernel| - 1);
      return Decimate(flt);
    }
  }

  // ----- Streaming refines the one-shot filter

  /** Filter output at sample n of the whole signal: sum of h[j] * x[n - j], where x is zero before its start. */
  function Sum(h: seq<real>, x: seq<real>, n: nat, taps: nat): real
    requires taps <= |h| && n < |x|
  {
    if taps == 0 then 0.0
    else Sum(h, x, n, taps - 1) + h[taps - 1] * (if n >= taps - 1 then x[n - (taps - 1)] else 0.0)
  }

  /** One-shot convolution and decimation of a whole signal. */
  function Batch(h: seq<real>, x: seq<real>): (y: seq<real>)
    requires |h| > 0
    ensures |y| == |x| / RATIO
  {
    seq(|x| / RATIO, k requires 0 <= k < |x| / RATIO => Sum(h, x, RATIO * k, |h|))
  }

  ghost predicate Sized(h: seq<real>, s: State) { 0 < |h| <= |s.overlap| + 1 }

  lemma ProcessSized(h: seq<real>, s: State, chunk: seq<real>)
    requires Sized(h, s)
    ensures Sized(h, ProcessChunk(h, s, chunk).next)
  {
  }

  /** The outputs of a stream of chunks, laid end to end. */
  function ProcessAll(h: seq<real>, s: State, chunks: seq<seq<real>>): Output
    requires Sized(h, s)
    decreases |chunks|
  {
    if chunks == [] then Output(s, [])
    else
      var a := ProcessChunk(h, s, chunks[0]);
      ProcessSized(h, s, chunks[0]);
      var b := ProcessAll(h, a.next, chunks[1..]);
      Output(b.next, a.pcm + b.pcm)
  }

  /** The state after signal x: the samples of the unfinished triple, and the newest taps before them. */
  function After(h: seq<real>, x: seq<real>): State
    requires |h| > 0
  {
    var done := Triples(|x|);
    State((Zeros(|h| - 1) + x)[done..done + |h| - 1], x[done..])
  }

  /** A filter output only looks at the samples under its taps. */
  lemma {:induction false} DotIsLocal(h: seq<real>, y: seq<real>, from: nat, to: nat, i: nat, n: nat)
    requires from <= to <= |y| && n <= |h| && n <= i + 1 <= to - from
    ensures Dot(h, y[from..to], i, n) == Dot(h, y, from + i, n)
  {
    if n > 0 {
      DotIsLocal(h, y, from, to, i, n - 1);
    }
  }

  lemma {:induction false} DotIsSum(h: seq<real>, x: seq<real>, n: nat, taps: nat)
    requires 0 < |h| && taps <= |h| && n < |x|
    ensures Dot(h, Zeros(|h| - 1) + x, n + |h| - 1, taps) == Sum(h, x, n, taps)
  {
    if taps > 0 {
      DotIsSum(h, x, n, taps - 1);
      assert (Zeros(|h| - 1) + x)[n + |h| - 1 - (taps - 1)] == if n >= taps - 1 then x[n - (taps - 1)] else 0.0;
    }
  }

  lemma {:induction false} SumIgnoresFuture(h: seq<real>, x: seq<real>, z: seq<real>, n: nat, taps: nat)
    requires taps <= |h| && n < |x|
    ensures Sum(h, x + z, n, taps) == Sum(h, x, n, taps)
  {
    if taps > 0 {
      SumIgnoresFuture(h, x, z, n, taps - 1);
    }
  }

  /** What one chunk after signal x is filtered from: a window of the padded signal. */
  lemma ChunkWindow(h: seq<real>, x: seq<real>, chunk: seq<real>)
    requires |h| >= 2
    ensures
      var K, done, done' := |h| - 1, Triples(|x|), Triples(|x + chunk|);
      var padded, s := Zeros(|h| - 1) + (x + chunk), After(h, x);
      var buf := s.tail + chunk;
      && |s.overlap| == K && done' - done == Triples(|buf|) && buf == (x + chunk)[done..]
      && s.overlap + buf[..done' - done] == padded[done..done' + K]
  {
    hide Triples;
    var done, done' := Triples(|x|), Triples(|x + chunk|);
    WholeTriples(|x|, |chunk|);
    Window(Zeros(|h| - 1), x, chunk, done, done');
  }

  /** What one chunk completes of the pending samples. */
  lemma WholeTriples(n: nat, m: nat)
    ensures Triples(n) <= Triples(n + m)
    ensures Triples(n + m) - Triples(n) == Triples(n - Triples(n) + m)
  {
  }

  /** Behind a history z, what is pending at d and a chunk make up the signal up to any later d'. */
  lemma Window(z: seq<real>, x: seq<real>, chunk: seq<real>, d: nat, d': nat)
    requires d <= |x| && d <= d' <= |x + chunk|
    ensures x[d..] + chunk == (x + chunk)[d..]
    ensures (z + x)[d..d + |z|] + (x[d..] + chunk)[..d' - d] == (z + (x + chunk))[d..d' + |z|]
  {
    assert (z + x)[d..d + |z|] == (z + (x + chunk))[d..d + |z|];
    assert (x[d..] + chunk)[..d' - d] == (z + (x + chunk))[d + |z|..d' + |z|];
  }

  /** Taking the last K samples of a window moves it on. */
  lemma WindowMoves(y: seq<real>, from: nat, to: nat, K: nat)
    requires from <= to && to + K <= |y| && K > 0
    ensures Last(y[from..to + K], K) == y[to..to + K]
  {
  }

  /** The state after the chunk is the state after the longer signal. */
  lemma ChunkState(h: seq<real>, x: seq<real>, chunk: seq<real>)
    requires |h| >= 2
    ensures Sized(h, After(h, x)) && ProcessChunk(h, After(h, x), chunk).next == After(h, x + chunk)
  {
    hide Convolve, Decimate, Last, Zeros, Triples;
    var K, done, done' := |h| - 1, Triples(|x|), Triples(|x + chunk|);
    var padded := Zeros(K) + (x + chunk);
    ChunkWindow(h, x, chunk);
    assert (x + chunk)[done..][done' - done..] == (x + chunk)[done'..];
    if done' > done {
      WindowMoves(padded, done, done', K);
    } else {
      assert padded[done..done' + K] == After(h, x).overlap;
    }
  }

  /** The k-th output of the chunk is the batch filter's output three times as far behind the done part. */
  lemma ChunkOutput(h: seq<real>, x: seq<real>, chunk: seq<real>, k: nat)
    requires |h| >= 2 && Triples(|x + chunk|) > Triples(|x|)
    requires k < |x + chunk| / RATIO - |x| / RATIO
    ensures
      var o := ProcessChunk(h, After(h, x), chunk);
      |o.pcm| == |x + chunk| / RATIO - |x| / RATIO && o.pcm[k] == Batch(h, x + chunk)[|x| / RATIO + k]
  {
    hide Dot, Sum, After;
    var K, done, done' := |h| - 1, Triples(|x|), Triples(|x + chunk|);
    ChunkWindow(h, x, chunk);
    DotIsLocal(h, Zeros(K) + (x + chunk), done, done' + K, 3 * k + K, |h|);
    DotIsSum(h, x + chunk, done + 3 * k, |h|);
  }

  /** One chunk after signal x: the new outputs are the next ones of the batch filter. */
  lemma ChunkIsBatch(h: seq<real>, x: seq<real>, chunk: seq<real>)
    requires |h| >= 2
    ensures Sized(h, After(h, x)) && ProcessChunk(h, After(h, x), chunk).next == After(h, x + chunk)
    ensures Batch(h, x + chunk) == Batch(h, x) + ProcessChunk(h, After(h, x), chunk).pcm
  {
    hide Sum, After, ProcessChunk;
    ChunkState(h, x, chunk);
    ChunkWindow(h, x, chunk);
    var out, all := ProcessChunk(h, After(h, x), chunk).pcm, Batch(h, x + chunk);
    ChunkLength(h, x, chunk);
    forall k | 0 <= k < |out| ensures out[k] == all[|x| / RATIO + k] {
      ChunkOutput(h, x, chunk, k);
    }
    forall k | 0 <= k < |x| / RATIO ensures all[k] == Batch(h, x)[k] {
      SumIgnoresFuture(h, x, chunk, RATIO * k, |h|);
    }
  }

  lemma ChunkLength(h: seq<real>, x: seq<real>, chunk: seq<real>)
    requires |h| >= 2
    ensures Sized(h, After(h, x))
    ensures |ProcessChunk(h, After(h, x), chunk).pcm| == |x + chunk| / RATIO - |x| / RATIO
  {
    ChunkWindow(h, x, chunk);
  }

  lemma {:induction false} StreamFrom(h: seq<real>, x: seq<real>, chunks: seq<seq<real>>)
    requires |h| >= 2
    ensures Sized(h, After(h, x))
    ensures
      var o := ProcessAll(h, After(h, x), chunks);
      o.next == After(h, x + Flatten(chunks)) && Batch(h, x + Flatten(chunks)) == Batch(h, x) + o.pcm
    decreases |chunks|
  {
    hide ProcessChunk, After, Batch;
    ChunkState(h, x, []);
    if chunks == [] {
      assert x + Flatten(chunks) == x;
      assert Batch(h, x) + [] == Batch(h, x);
    } else {
      ChunkIsBatch(h, x, chunks[0]);
      StreamFrom(h, x + chunks[0], chunks[1..]);
      assert (x + chunks[0]) + Flatten(chunks[1..]) == x + Flatten(chunks);
      var a := ProcessChunk(h, After(h, x), chunks[0]);
      var b := ProcessAll(h, a.next, chunks[1..]);
      assert Batch(h, x) + (a.pcm + b.pcm) == (Batch(h, x) + a.pcm) + b.pcm;
    }
  }

  /** Cut into these chunks, a signal comes out as its one-shot filtering, and less than a triple is kept back. */
  ghost predicate StreamIsBatch(h: seq<real>, chunks: seq<seq<real>>)
    requires |h| > 0
  {
    var o := ProcessAll(h, Begin(h), chunks);
    o.pcm == Batch(h, Flatten(chunks)) && |o.next.tail| < RATIO
  }

  lemma EveryStream(h: seq<real>, chunks: seq<seq<real>>)
    requires |h| >= 2
    ensures StreamIsBatch(h, chunks)
  {
    hide ProcessAll;
    StreamFrom(h, [], chunks);
    assert After(h, []) == Begin(h);
    assert [] + Flatten(chunks) == Flatten(chunks);
    assert Batch(h, []) + ProcessAll(h, Begin(h), chunks).pcm == ProcessAll(h, Begin(h), chunks).pcm;
  }

  /**
   Seamlessness, and where it ends: with two taps or more every chunking agrees with the one-shot
   filter; with a single tap the overlap is never dropped, and some chunking does not.
   */
  lemma StreamRefinesBatch(h: seq<real>)
    requires |h| > 0
    ensures (forall chunks: seq<seq<real>> :: StreamIsBatch(h, chunks)) <==> |h| >= 2
  {
    hide StreamIsBatch;
    if |h| >= 2 {
      forall chunks: seq<seq<real>> ensures StreamIsBatch(h, chunks) {
        EveryStream(h, chunks);
      }
    } else {
      OneTapRepeats(h);
    }
  }

  lemma OneTapRepeats(h: seq<real>)
    requires |h| == 1
    ensures !StreamIsBatch(h, [[0.0, 0.0, 0.0], [0.0, 0.0, 0.0]])
  {
    var c := [0.0, 0.0, 0.0];
    var a := ProcessChunk(h, Begin(h), c);
    assert Begin(h).overlap == [] && [] + c == c && c[..3] == c;
    assert a.next.overlap == c && a.next.tail == [] && |a.pcm| == 1;
    var b := ProcessChunk(h, a.next, c);
    assert |b.pcm| == 2;
    assert [c, c][1..] == [c];
    assert ProcessAll(h, a.next, [c]).pcm == b.pcm + [];
    assert Flatten([c, c]) == c + Flatten([c]) == c + (c + Flatten([]));
    assert |Batch(h, Flatten([c, c]))| == 2;
  }
}
