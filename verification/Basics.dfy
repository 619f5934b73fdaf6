/** Vocabulary shared by the other modules: bytes, PCM samples and small arithmetic. */
module Basics {
  datatype Option<+T> = None | Some(value: T)

  type Byte = b: int | 0 <= b < 256

  type Int16 = v: int | -32768 <= v < 32768

  /** A float32 PCM sample; rounding is not modelled, so a sample is an exact real. */
  type Sample = real

  /** A slice of PCM handed to a VAD backend in one call. */
  type Frame = seq<Sample>

  const SAMPLE_RATE: nat := 16000
  const BYTES_PER_SAMPLE: nat := 2

  function Min(a: int, b: int): int { if a <= b then a else b }

  function Max(a: int, b: int): int { if a >= b then a else b }

  function Abs(a: int): nat { if a < 0 then -a else a }

  /** Some element of a set, whichever comes first. */
  method AnyOf<T(==)>(s: set<T>) returns (x: T)
    requires s != {}
    ensures x in s
  {
    x :| x in s;
  }

  ghost function Element<T>(s: set<T>): (x: T)
    requires s != {}
    ensures x in s
  {
    var x :| x in s;
    x
  }

  lemma Distribute(a: int, b: int, h: int)
    ensures (a + b) * h == a * h + b * h
  {
  }

  /** How many samples so many frames hold. */
  function At(frames: int, hop: nat): int { frames * hop }

  lemma NextFrame(n: nat, hop: nat)
    ensures At(n + 1, hop) == At(n, hop) + hop
  {
    Distribute(n, 1, hop);
  }

  lemma AtMonotone(a: nat, b: nat, hop: nat)
    requires a <= b
    ensures At(a, hop) <= At(b, hop)
  {
    Distribute(a, b - a, hop);
  }

  /** Python's `round` on a float: to the nearest integer, ties to the even one. */
  function Round(x: real): (r: int)
    ensures -0.5 <= r as real - x <= 0.5
    ensures r as real - x == 0.5 || r as real - x == -0.5 ==> r % 2 == 0
  {
    var f := x.Floor;
    var d := x - f as real;
    if d < 0.5 || (d == 0.5 && f % 2 == 0) then f else f + 1
  }

  lemma RoundOfInteger(n: int)
    ensures Round(n as real) == n
  {
    assert (n as real).Floor == n;
  }

  /** Python's `math.ceil`. */
  function Ceil(x: real): (r: int)
    ensures r as real - 1.0 < x <= r as real
  {
    if x.Floor as real == x then x.Floor else x.Floor + 1
  }

  /** Little-endian int16 bytes decoded to floats in [-1, 1). */
  function SampleOf(lo: Byte, hi: Byte): (x: Sample)
    ensures -1.0 <= x < 1.0
  {
    var u := lo + 256 * hi;
    (if u < 32768 then u else u - 65536) as real / 32768.0
  }

  /** The two bytes of an int16, the low one first. */
  function BytesOfInt16(v: Int16): (Byte, Byte) { (v % 256, (v / 256) % 256) }

  /** A decoded int16 is that number in units of 1 / 32768. */
  lemma SampleOfInt16(v: Int16)
    ensures SampleOf(BytesOfInt16(v).0, BytesOfInt16(v).1) == v as real / 32768.0
  {
    var lo, hi := v % 256, (v / 256) % 256;
    assert lo + 256 * hi == if v < 0 then v + 65536 else v;
  }

  /** `np.frombuffer(.., int16) / 32768`; NumPy refuses a buffer of odd length. */
  function DecodePcm(bytes: seq<Byte>): (pcm: seq<Sample>)
    requires |bytes| % 2 == 0
    ensures |pcm| == |bytes| / 2
  {
    seq(|bytes| / 2, i requires 0 <= i < |bytes| / 2 => SampleOf(bytes[2 * i], bytes[2 * i + 1]))
  }

  /** int16 samples as they come over the wire. */
  function EncodePcm(values: seq<Int16>): (bytes: seq<Byte>)
    ensures |bytes| == 2 * |values|
  {
    if values == [] then []
    else
      var last := BytesOfInt16(values[|values| - 1]);
      EncodePcm(values[..|values| - 1]) + [last.0, last.1]
  }

  /** Decoding gives back every sample that was encoded, in its place. */
  lemma {:induction false} DecodeOfEncode(values: seq<Int16>)
    ensures
      var pcm := DecodePcm(EncodePcm(values));
      |pcm| == |values| && forall i :: 0 <= i < |values| ==> pcm[i] == values[i] as real / 32768.0
  {
    if values != [] {
      var init, last := values[..|values| - 1], values[|values| - 1];
      DecodeOfEncode(init);
      var pair := [BytesOfInt16(last).0, BytesOfInt16(last).1];
      DecodePcmAppend(EncodePcm(init), pair);
      SampleOfInt16(last);
      assert DecodePcm(pair) == [last as real / 32768.0];
    }
  }

  lemma DecodePcmAppend(a: seq<Byte>, b: seq<Byte>)
    requires |a| % 2 == 0 && |b| % 2 == 0
    ensures DecodePcm(a + b) == DecodePcm(a) + DecodePcm(b)
  {
    var l, r := DecodePcm(a + b), DecodePcm(a) + DecodePcm(b);
    assert |l| == |r|;
    forall i | 0 <= i < |l| ensures l[i] == r[i] {
      if i >= |a| / 2 {
        var k := i - |a| / 2;
        assert (a + b)[2 * i] == b[2 * k] && (a + b)[2 * i + 1] == b[2 * k + 1];
      }
    }
  }

  /** `np.concatenate`, `"".join`: the pieces laid end to end. */
  function Flatten<T>(pieces: seq<seq<T>>): seq<T> {
    if pieces == [] then [] else pieces[0] + Flatten(pieces[1..])
  }

  lemma {:induction false} FlattenAppend<T>(a: seq<seq<T>>, b: seq<seq<T>>)
    ensures Flatten(a + b) == Flatten(a) + Flatten(b)
  {
    if a == [] {
      assert a + b == b;
    } else {
      assert (a + b)[1..] == a[1..] + b;
      FlattenAppend(a[1..], b);
      assert a[0] + (Flatten(a[1..]) + Flatten(b)) == (a[0] + Flatten(a[1..])) + Flatten(b);
    }
  }

  lemma FlattenSnoc<T>(a: seq<seq<T>>, x: seq<T>)
    ensures Flatten(a + [x]) == Flatten(a) + x
  {
    FlattenAppend(a, [x]);
    assert Flatten([x]) == x;
  }

  /** Frames of one hop each hold hop samples per frame. */
  lemma {:induction false} FlattenLength<T>(pieces: seq<seq<T>>, hop: nat)
    requires forall p <- pieces :: |p| == hop
    ensures |Flatten(pieces)| == |pieces| * hop
  {
    if pieces != [] {
      FlattenLength(pieces[1..], hop);
      Distribute(|pieces| - 1, 1, hop);
    }
  }

  lemma FlattenedFrames<T>(pieces: seq<seq<T>>, hop: nat)
    requires forall p <- pieces :: |p| == hop
    ensures |Flatten(pieces)| == At(|pieces|, hop)
  {
    FlattenLength(pieces, hop);
  }

  lemma AtSum(a: nat, b: nat, hop: nat)
    ensures At(a + b, hop) == At(a, hop) + At(b, hop)
  {
    Distribute(a, b, hop);
  }

  /** The samples of frames a up to b, told by sample numbers. */
  lemma FlattenSlice<T>(pieces: seq<seq<T>>, hop: nat, a: nat, b: nat)
    requires a <= b <= |pieces| && forall p <- pieces :: |p| == hop
    ensures 0 <= At(a, hop) <= At(b, hop) <= |Flatten(pieces)|
    ensures Flatten(pieces[a..b]) == Flatten(pieces)[At(a, hop)..At(b, hop)]
  {
    hide At, Flatten;
    var x, y, z := pieces[..a], pieces[a..b], pieces[b..];
    assert pieces == x + (y + z);
    FlattenAppend(x, y + z);
    FlattenAppend(y, z);
    FlattenedFrames(x, hop);
    FlattenedFrames(y, hop);
    AtSum(a, b - a, hop);
    Middle(Flatten(x), Flatten(y), Flatten(z));
  }

  lemma Middle<T>(x: seq<T>, y: seq<T>, z: seq<T>)
    ensures (x + (y + z))[|x|..|x| + |y|] == y
  {
  }

  /** How many of n samples fill whole hops. */
  function Whole(n: nat, hop: nat): (w: nat)
    requires hop > 0
    ensures w <= n < w + hop
  {
    if n < hop then 0 else hop + Whole(n - hop, hop)
  }

  lemma {:induction false} WholeOfMultiple(q: nat, r: nat, hop: nat)
    requires r < hop
    ensures Whole(q * hop + r, hop) == q * hop
  {
    if q > 0 {
      assert q * hop == (q - 1) * hop + hop;
      WholeOfMultiple(q - 1, r, hop);
    }
  }

  method UsableSamples(n: nat, hop: nat) returns (used: nat)
    requires hop > 0
    ensures used == Whole(n, hop)
  {
    var q, r := n / hop, n % hop;
    assert n == q * hop + r;
    used := q * hop;
    WholeOfMultiple(q, r, hop);
  }
}
