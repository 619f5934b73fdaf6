/**
 Texts that come out of all the passes with a unit many times in a row
 (backend/asr/client.py, detect_and_fix_repetitions): what no earlier pass touches, the pass for a
 longer unit can join, and no later pass looks at the shorter unit again.
 */
module JoinedText {
  import opened Basics
  import opened Repetition
  import opened RepetitionBounds

  // ----- Where a pass finds nothing

  lemma {:induction false} CopiesRepeat(s: string, u: string, j: nat, n: nat)
    requires u != [] && 0 < n <= Copies(s, u, j)
    ensures j + At(n, |u|) <= |s|
    ensures forall k :: j <= k < j + At(n - 1, |u|) ==> s[k] == s[k + |u|]
    decreases n
  {
    assert s[j..j + |u|] == u;
    NextFrame(n - 1, |u|);
    if n > 1 {
      NextFrame(n - 2, |u|);
      var next := j + |u|;
      CopiesRepeat(s, u, next, n - 1);
      assert s[next..next + |u|] == u;
      hide Copies, At;
      forall k | j <= k < j + At(n - 1, |u|) ensures s[k] == s[k + |u|] {
        if k < next {
          assert s[k] == s[j..next][k - j] == u[k - j] == s[next..next + |u|][k - j] == s[k + |u|];
        }
      }
    }
  }

  /** One place where the text differs from itself a unit later is enough to keep a unit. */
  lemma MismatchKeeps(s: string, L: nat, t: nat, i: nat, k: nat)
    requires L > 0 && i <= k < i + At(t, L) && k + L < |s| && s[k] != s[k + L]
    ensures !Collapses(s, L, t, i)
  {
    hide Copies, At;
    if Collapses(s, L, t, i) {
      CopiesRepeat(s, s[i..i + L], i, t + 1);
    }
  }

  lemma CollapseFits(s: string, L: nat, t: nat, i: nat)
    requires L > 0 && Collapses(s, L, t, i)
    ensures i + At(t + 1, L) <= |s|
  {
    hide Copies, At;
    CopiesRepeat(s, s[i..i + L], i, t + 1);
  }

  /** Passes that find nothing do nothing. */
  lemma {:induction false} PassesSkip(s: string, t: nat, l: nat, L: nat, maxUnit: nat)
    requires 0 < l <= L <= maxUnit + 1 && t >= 1 && forall k: nat :: l <= k < L ==> !Loops(s, k, t)
    ensures Passes(s, t, l, maxUnit) == Passes(s, t, L, maxUnit)
    decreases L - l
  {
    hide Pass, Collapses;
    if l < L {
      assert !Loops(s, l, t);
      PassLength(s, l, t, 0);
      assert s[0..] == s;
      PassesSkip(s, t, l + 1, L, maxUnit);
    }
  }

  lemma EnoughForUnit(n: nat, t: nat, L: nat)
    requires 1 <= L <= 16 && At(t + 1, L) <= n
    ensures n > t && L <= MaxUnit(n, t) <= 16
  {
    Distribute(1, L - 1, t + 1);
    QuotientBound(n, t + 1, L);
  }

  // ----- Remainders

  lemma RemainderIs(x: nat, q: nat, k: nat, r: nat)
    requires x == At(k, q) + r && r < q
    ensures x % q == r
  {
    var d := x / q;
    assert x == At(d, q) + x % q;
    if d > k {
      AtMonotone(k + 1, d, q);
      NextFrame(k, q);
    } else if d < k {
      AtMonotone(d + 1, k, q);
      NextFrame(d, q);
    }
  }

  lemma SameRemainder(x: nat, l: nat, q: nat)
    requires q > 0
    ensures (x + l) % q == x % q <==> l % q == 0
  {
    var a, e, c := x / q, l / q, (x + l) / q;
    assert x == At(a, q) + x % q && l == At(e, q) + l % q && x + l == At(c, q) + (x + l) % q;
    if l % q == 0 {
      AtSum(a, e, q);
      RemainderIs(x + l, q, a + e, x % q);
    } else if (x + l) % q == x % q {
      if c >= a {
        AtSum(a, c - a, q);
        RemainderIs(l, q, c - a, 0);
      }
    }
  }

  /** The x-th of a few letters. */
  function Letter(x: nat): char
    requires x < 20
  {
    (97 + x) as char
  }

  // ----- Units of two to sixteen characters: threshold + 1 copies are left, for every threshold

  /** The place a letter has in the unit; the two letters a unit can begin with have the same. */
  function Place(c: char): int { if c == 'x' then 0 else c as int - 97 }

  ghost predicate InPlace(s: string, L: nat)
    requires L > 0
  {
    forall k :: 0 <= k < |s| ==> Place(s[k]) == k % L
  }

  lemma InPlaceJoins(x: string, y: string, L: nat, n: nat)
    requires L > 0 && InPlace(x, L) && InPlace(y, L) && |x| == At(n, L)
    ensures InPlace(x + y, L)
  {
    hide Place, At;
    forall k | 0 <= k < |x + y| ensures Place((x + y)[k]) == k % L {
      if k >= |x| {
        RemainderIs(|x|, L, n, 0);
        SameRemainder(k - |x|, |x|, L);
        assert (x + y)[k] == y[k - |x|];
      }
    }
  }

  lemma {:induction false} InPlaceTimes(u: string, n: nat)
    requires u != [] && InPlace(u, |u|)
    ensures InPlace(Times(u, n), |u|)
  {
    if n > 0 {
      InPlaceTimes(u, n - 1);
      InPlaceJoins(u, Times(u, n - 1), |u|, 1);
    }
  }

  function Letters(L: nat): (u: string)
    requires 1 <= L <= 16
    ensures |u| == L - 1
  {
    seq(L - 1, k requires 0 <= k < L - 1 => Letter(k + 1))
  }

  lemma UnitInPlace(first: char, L: nat)
    requires 1 <= L <= 16 && Place(first) == 0
    ensures InPlace([first] + Letters(L), L)
  {
    forall k | 0 <= k < L ensures Place(([first] + Letters(L))[k]) == k % L {
      RemainderIs(k, L, 0, k);
      if k > 0 {
        assert ([first] + Letters(L))[k] == Letters(L)[k - 1] == Letter(k);
      }
    }
  }

  lemma EndInPlace(L: nat)
    requires L > 0
    ensures InPlace("x", L)
  {
    RemainderIs(0, L, 0, 0);
  }

  lemma WitnessInPlace(L: nat, t: nat)
    requires 1 <= L <= 16
    ensures InPlace(Witness(Letters(L), t), L)
    ensures |Witness(Letters(L), t)| == At(t + 1, L) + At(t, L) + 1
  {
    hide InPlace, Times, At, Letters;
    var a, x := "a" + Letters(L), "x" + Letters(L);
    UnitInPlace('a', L);
    UnitInPlace('x', L);
    InPlaceTimes(a, t + 1);
    InPlaceTimes(x, t);
    TimesLength(a, t + 1);
    TimesLength(x, t);
    EndInPlace(L);
    InPlaceJoins(Times(x, t), "x", L, t);
    InPlaceJoins(Times(a, t + 1), Tail(Letters(L), t), L, t + 1);
  }

  lemma InPlaceDiffers(s: string, L: nat, l: nat, k: nat)
    requires L > 0 && InPlace(s, L) && 0 < l < L && k + l < |s|
    ensures s[k] != s[k + l]
  {
    SameRemainder(k, l, L);
    RemainderIs(l, L, 0, l);
  }

  lemma InPlaceKeeps(s: string, L: nat, t: nat, l: nat)
    requires L > 0 && t >= 1 && InPlace(s, L) && 0 < l < L
    ensures !Loops(s, l, t)
  {
    hide Copies, At, InPlace, Collapses;
    forall i: nat | Collapses(s, l, t, i) ensures false {
      CollapseFits(s, l, t, i);
      AtMonotone(1, t, l);
      NextFrame(t, l);
      NextFrame(0, l);
      ZeroFrames(l);
      InPlaceDiffers(s, L, l, i);
      MismatchKeeps(s, l, t, i, i);
    }
  }

  lemma ZeroFrames(hop: nat)
    ensures At(0, hop) == 0
  {
  }

  lemma ShortKeeps(s: string, l: nat, t: nat)
    requires l > 0 && |s| < At(t + 1, l)
    ensures !Loops(s, l, t)
  {
    hide Collapses, At;
    forall i: nat | Collapses(s, l, t, i) ensures false {
      CollapseFits(s, l, t, i);
    }
  }

  /** The passes up to L - 1 leave the witness alone, the pass for L cuts it, and the later ones leave what it made. */
  lemma WitnessFinished(L: nat, t: nat)
    requires 2 <= L <= 16 && t >= 1
    ensures Fixed(Witness(Letters(L), t), t) == Leftover(Letters(L), t)
  {
    hide Witness, Leftover, Letters, At, Pass, InPlace, MaxUnit, Loops;
    var s, out := Witness(Letters(L), t), Leftover(Letters(L), t);
    WitnessInPlace(L, t);
    AtMonotone(0, t, L);
    ZeroFrames(L);
    EnoughForUnit(|s|, t, L);
    var maxUnit := MaxUnit(|s|, t);
    forall l: nat | 1 <= l < L ensures !Loops(s, l, t) {
      InPlaceKeeps(s, L, t, l);
    }
    PassesSkip(s, t, 1, L, maxUnit);
    WitnessPass(Letters(L), t);
    LeftoverLength(L, t);
    forall l: nat | L + 1 <= l < maxUnit + 1 ensures !Loops(out, l, t) {
      LongerUnits(t, L, l);
      ShortKeeps(out, l, t);
    }
    PassesSkip(out, t, L + 1, maxUnit + 1, maxUnit);
  }

  lemma LeftoverLength(L: nat, t: nat)
    requires 2 <= L <= 16
    ensures |Leftover(Letters(L), t)| == At(t + 1, L) + 1
  {
    hide At, Times;
    TimesLength("x" + Letters(L), t);
    NextFrame(t, L);
  }

  lemma LongerUnits(t: nat, L: nat, l: nat)
    requires L < l && t >= 1
    ensures At(t + 1, L) + 1 < At(t + 1, l)
  {
    Distribute(L, l - L, t + 1);
    Distribute(1, l - L - 1, t + 1);
  }

  // ----- Units of more than sixteen characters: no pass looks at them

  function LongUnit(L: nat): (u: string)
    requires L > 0
    ensures |u| == L
  {
    "x" + seq(L - 1, k requires 0 <= k < L - 1 => Letter(k % 17))
  }

  /** In copies of a long unit, no two stretches of up to sixteen characters that meet are the same. */
  lemma {:induction false} NoSquare(s: string, L: nat, l: nat, i: nat) returns (k: nat)
    requires L > 16 && 0 < l <= 16 && i + 2 * l <= |s|
    requires |s| >= L && s[..L] == LongUnit(L) && Periodic(s, L, |s|)
    ensures i <= k < i + l && s[k] != s[k + l]
    decreases i
  {
    hide LongUnit;
    if i >= L {
      k := NoSquare(s, L, l, i - L);
      assert s[k] == s[k + L] && s[k + l] == s[k + l + L];
      k := k + L;
    } else if i + l < L {
      LongUnitAt(s, L, i);
      LongUnitAt(s, L, i + l);
      k := i;
    } else {
      k := NoSquareAtSeam(s, L, l, i);
    }
  }

  lemma NoSquareAtSeam(s: string, L: nat, l: nat, i: nat) returns (k: nat)
    requires L > 16 && 0 < l <= 16 && i < L <= i + l && i + 2 * l <= |s|
    requires |s| >= L && s[..L] == LongUnit(L) && Periodic(s, L, |s|)
    ensures i <= k < i + l && s[k] != s[k + l]
  {
    hide LongUnit;
    LongUnitAt(s, L, 0);
    assert s[L] == s[0];
    if i + l == L {
      LongUnitAt(s, L, i);
      k := i;
    } else {
      LongUnitAt(s, L, l);
      assert s[l + L] == s[l];
      k := L;
    }
  }

  lemma LongUnitAt(s: string, L: nat, k: nat)
    requires L > 16 && |s| >= L && s[..L] == LongUnit(L) && k < L
    ensures s[k] == if k == 0 then 'x' else Letter((k - 1) % 17)
  {
    assert s[k] == s[..L][k];
  }

  lemma LongLength(L: nat, n: nat)
    requires L > 0
    ensures |Times(LongUnit(L), n)| == n * L
  {
    TimesLength(LongUnit(L), n);
  }

  lemma LongFinished(L: nat, t: nat, n: nat)
    requires L > 16 && t >= 1 && n > 0
    ensures Fixed(Times(LongUnit(L), n), t) == Times(LongUnit(L), n)
  {
    hide LongUnit, Times, Periodic, Collapses, At;
    var s := Times(LongUnit(L), n);
    TimesStart(LongUnit(L), n);
    TimesIsPeriodic(LongUnit(L), n);
    LongLength(L, n);
    forall l: nat, i: nat | 1 <= l <= 16 && Collapses(s, l, t, i) ensures false {
      CollapseFits(s, l, t, i);
      AtMonotone(1, t, l);
      NextFrame(t, l);
      ZeroFrames(l);
      NextFrame(0, l);
      var k := NoSquare(s, L, l, i);
      MismatchKeeps(s, l, t, i, k);
    }
    FixedUnchanged(s, t);
  }

  // ----- Units that the pass for sixteen characters joins

  /** Sixteen characters of a text of period q, from character 16 * b of it on. */
  function Piece(q: nat, b: nat): (u: string)
    requires 0 < q < 16
    ensures |u| == 16
  {
    seq(16, m requires 0 <= m < 16 => Letter((16 * b + m) % q))
  }

  /** n pieces, each of them threshold + 1 times, and an end. */
  function Apart(q: nat, t: nat, b: nat, n: nat): string
    requires 0 < q < 16
    decreases n
  {
    if n == 0 then "x" else Times(Piece(q, b), t + 1) + Apart(q, t, b + 1, n - 1)
  }

  /** The same pieces, each of them once: they fit together. */
  function Joined(q: nat, b: nat, n: nat): string
    requires 0 < q < 16
    decreases n
  {
    if n == 0 then "x" else Piece(q, b) + Joined(q, b + 1, n - 1)
  }

  /** Which piece the n-th copy is of. */
  function PieceOf(n: nat, t: nat): nat { if n <= t then 0 else 1 + PieceOf(n - (t + 1), t) }

  /** Of three copies in a row, two neighbours are of one piece. */
  lemma {:induction false} SeamsAreApart(n: nat, t: nat)
    requires t >= 1
    ensures PieceOf(n + 1, t) == PieceOf(n, t) || PieceOf(n + 2, t) == PieceOf(n + 1, t)
  {
    if n > t {
      SeamsAreApart(n - (t + 1), t);
    }
  }

  lemma {:induction false} TimesAt(u: string, n: nat, c: nat, m: nat)
    requires |u| == 16 && c < n && m < 16
    ensures |Times(u, n)| == 16 * n && Times(u, n)[16 * c + m] == u[m]
    decreases n
  {
    TimesLength(u, n);
    if c > 0 {
      TimesAt(u, n - 1, c - 1, m);
      assert Times(u, n)[16 * c + m] == Times(u, n - 1)[16 * (c - 1) + m];
    }
  }

  lemma {:induction false} ApartLength(q: nat, t: nat, b: nat, n: nat)
    requires 0 < q < 16
    ensures |Apart(q, t, b, n)| == 16 * At(n, t + 1) + 1
    decreases n
  {
    if n > 0 {
      ApartLength(q, t, b + 1, n - 1);
      TimesLength(Piece(q, b), t + 1);
      NextFrame(n - 1, t + 1);
    }
  }

  /** The text before the passes, character by character: character m of the c-th copy. */
  lemma {:induction false} ApartAt(q: nat, t: nat, b: nat, n: nat, c: nat, m: nat)
    requires 0 < q < 16 && c < At(n, t + 1) && m < 16
    ensures |Apart(q, t, b, n)| == 16 * At(n, t + 1) + 1
    ensures Apart(q, t, b, n)[16 * c + m] == Letter((16 * (b + PieceOf(c, t)) + m) % q)
    decreases n
  {
    hide Times, At, Letter;
    ApartLength(q, t, b, n);
    ZeroFrames(t + 1);
    if n > 0 {
      var head, rest := Times(Piece(q, b), t + 1), Apart(q, t, b + 1, n - 1);
      TimesAt(Piece(q, b), t + 1, Min(c, t), m);
      if c > t {
        NextFrame(n - 1, t + 1);
        ApartAt(q, t, b + 1, n - 1, c - (t + 1), m);
        assert (head + rest)[16 * c + m] == rest[16 * (c - (t + 1)) + m];
      }
    }
  }

  lemma {:induction false} ApartEnd(q: nat, t: nat, b: nat, n: nat)
    requires 0 < q < 16
    ensures |Apart(q, t, b, n)| == 16 * At(n, t + 1) + 1
    ensures Apart(q, t, b, n)[16 * At(n, t + 1)] == 'x'
    decreases n
  {
    ApartLength(q, t, b, n);
    if n > 0 {
      ApartEnd(q, t, b + 1, n - 1);
      TimesLength(Piece(q, b), t + 1);
      NextFrame(n - 1, t + 1);
    }
  }

  /** Inside a copy a distance that is no multiple of q shows. */
  lemma InsideDiffers(q: nat, t: nat, n: nat, c: nat, m: nat, l: nat)
    requires 0 < q < 16 && l % q != 0 && m + l < 16 && c < At(n, t + 1)
    ensures 16 * c + m + l < |Apart(q, t, 0, n)|
    ensures Apart(q, t, 0, n)[16 * c + m] != Apart(q, t, 0, n)[16 * c + m + l]
  {
    hide At, Apart, PieceOf;
    ApartAt(q, t, 0, n, c, m);
    ApartAt(q, t, 0, n, c, m + l);
    SameRemainder(16 * PieceOf(c, t) + m, l, q);
  }

  /** Between two copies of one piece a distance that is a multiple of q shows. */
  lemma BetweenDiffers(q: nat, t: nat, n: nat, c: nat, m: nat, l: nat)
    requires 0 < q < 16 && l % q == 0 && 16 % q != 0 && m < 16 <= m + l && 0 < l < 16
    requires c + 1 < At(n, t + 1) && PieceOf(c + 1, t) == PieceOf(c, t)
    ensures 16 * c + m + l < |Apart(q, t, 0, n)|
    ensures Apart(q, t, 0, n)[16 * c + m] != Apart(q, t, 0, n)[16 * c + m + l]
  {
    hide At, Apart, PieceOf;
    ApartAt(q, t, 0, n, c, m);
    ApartAt(q, t, 0, n, c + 1, m + l - 16);
    assert 16 * (c + 1) + (m + l - 16) == 16 * c + m + l;
    SameRemainder(16 * PieceOf(c, t) + (m + l - 16), 16 - l, q);
    SameRemainder(16 - l, l, q);
  }

  lemma InsideBreaks(q: nat, t: nat, n: nat, l: nat, i: nat) returns (k: nat)
    requires 0 < q < 16 && 0 < l < 16 && l % q != 0
    requires i + 3 * l <= |Apart(q, t, 0, n)|
    ensures i <= k <= i + l && k + l < |Apart(q, t, 0, n)|
    ensures Apart(q, t, 0, n)[k] != Apart(q, t, 0, n)[k + l]
  {
    hide Apart, At, PieceOf;
    ApartEnd(q, t, 0, n);
    if i % 16 + l < 16 {
      InsideDiffers(q, t, n, i / 16, i % 16, l);
      k := i;
    } else {
      InsideDiffers(q, t, n, i / 16 + 1, 0, l);
      k := 16 * (i / 16 + 1);
    }
  }

  lemma BetweenBreaks(q: nat, t: nat, n: nat, l: nat, i: nat) returns (k: nat)
    requires 0 < q < 16 && 16 % q != 0 && t >= 1 && 0 < l < 16 && l % q == 0
    requires i + 33 <= |Apart(q, t, 0, n)|
    ensures i <= k <= i + 32 - l && k + l < |Apart(q, t, 0, n)|
    ensures Apart(q, t, 0, n)[k] != Apart(q, t, 0, n)[k + l]
  {
    hide Apart, At;
    var c := i / 16;
    SeamsAreApart(c, t);
    hide PieceOf;
    ApartEnd(q, t, 0, n);
    if PieceOf(c + 1, t) == PieceOf(c, t) {
      var m := Max(i % 16, 16 - l);
      BetweenDiffers(q, t, n, c, m, l);
      k := 16 * c + m;
    } else {
      k := 16 * (c + 1) + 16 - l;
      if c + 2 < At(n, t + 1) {
        BetweenDiffers(q, t, n, c + 1, 16 - l, l);
      } else {
        ApartAt(q, t, 0, n, c + 1, 16 - l);
      }
    }
  }

  /** No distance of up to fifteen goes unbroken for longer than thirty-two characters. */
  lemma ApartBreaks(q: nat, t: nat, n: nat, l: nat, i: nat) returns (k: nat)
    requires 0 < q < 16 && 16 % q != 0 && t >= 1 && At(t + 1, q) > 32 && 0 < l < 16
    requires i + At(t + 1, l) <= |Apart(q, t, 0, n)|
    ensures i <= k < i + At(t, l) && k + l < |Apart(q, t, 0, n)|
    ensures Apart(q, t, 0, n)[k] != Apart(q, t, 0, n)[k + l]
  {
    NextFrame(t, l);
    if l % q != 0 {
      AtLeastTwice(q, t, l);
      hide Apart, At;
      k := InsideBreaks(q, t, n, l, i);
    } else {
      LongStretch(q, t, l);
      hide Apart, At;
      k := BetweenBreaks(q, t, n, l, i);
    }
  }

  lemma AtLeastTwice(q: nat, t: nat, l: nat)
    requires q < 16 && t >= 1 && At(t + 1, q) > 32
    ensures At(t, l) >= 2 * l
  {
    if t >= 2 {
      Distribute(2, t - 2, l);
    }
  }

  lemma LongStretch(q: nat, t: nat, l: nat)
    requires q > 0 && At(t + 1, q) > 32 && l > 0 && l % q == 0
    ensures At(t + 1, l) > 32
  {
    var e := l / q;
    assert l == At(e, q);
    AtMonotone(1, e, q);
    Distribute(q, l - q, t + 1);
  }

  lemma ApartKeeps(q: nat, t: nat, n: nat, l: nat)
    requires 0 < q < 16 && 16 % q != 0 && t >= 1 && At(t + 1, q) > 32 && 0 < l < 16
    ensures !Loops(Apart(q, t, 0, n), l, t)
  {
    hide Apart, At, Collapses;
    var s := Apart(q, t, 0, n);
    forall i: nat | Collapses(s, l, t, i) ensures false {
      CollapseFits(s, l, t, i);
      var k := ApartBreaks(q, t, n, l, i);
      MismatchKeeps(s, l, t, i, k);
    }
  }

  // ----- The pass for sixteen characters

  lemma {:induction false} CopiesBehind(x: string, s: string, u: string, j: nat)
    requires u != [] && j <= |s|
    ensures Copies(x + s, u, |x| + j) == Copies(s, u, j) && RunEnd(x + s, u, |x| + j) == |x| + RunEnd(s, u, j)
    decreases |s| - j
  {
    assert Occurs(x + s, u, |x| + j) <==> Occurs(s, u, j) by {
      if j + |u| <= |s| {
        assert (x + s)[|x| + j..|x| + j + |u|] == s[j..j + |u|];
      }
    }
    if Occurs(s, u, j) {
      CopiesBehind(x, s, u, j + |u|);
      assert |x| + (j + |u|) == |x| + j + |u|;
    }
  }

  lemma CollapsesBehind(x: string, s: string, L: nat, t: nat, i: nat)
    requires L > 0 && i + L <= |s|
    ensures (x + s)[|x| + i..|x| + i + L] == s[i..i + L]
    ensures Collapses(x + s, L, t, |x| + i) <==> Collapses(s, L, t, i)
    ensures RunEnd(x + s, s[i..i + L], |x| + i) == |x| + RunEnd(s, s[i..i + L], i)
  {
    hide Copies, RunEnd;
    CopiesBehind(x, s, s[i..i + L], i);
    assert (x + s)[|x| + i..|x| + i + L] == s[i..i + L];
  }

  lemma EndBehind(x: string, s: string, L: nat, t: nat, i: nat)
    requires L > 0 && i <= |s| < i + L
    ensures Pass(x + s, L, t, |x| + i) == Pass(s, L, t, i)
  {
    assert (x + s)[|x| + i..] == s[i..];
  }

  /** A pass works on from any place as it would at the start. */
  lemma {:induction false} PassBehind(x: string, s: string, L: nat, t: nat, i: nat)
    requires L > 0 && i <= |s|
    ensures Pass(x + s, L, t, |x| + i) == Pass(s, L, t, i)
    decreases |s| - i
  {
    hide Pass, Collapses, RunEnd;
    var z, k := x + s, |x| + i;
    if i + L > |s| {
      EndBehind(x, s, L, t, i);
    } else {
      PassCases(s, L, t, i);
      PassCases(z, L, t, k);
      CollapsesBehind(x, s, L, t, i);
      if Collapses(s, L, t, i) {
        var j := RunEnd(s, s[i..i + L], i);
        PassBehind(x, s, L, t, j);
        assert Pass(z, L, t, k) == s[i..i + L] + Pass(z, L, t, |x| + j);
      } else {
        PassBehind(x, s, L, t, i + 1);
        assert k + 1 == |x| + (i + 1) && z[k] == s[i];
        assert Pass(z, L, t, k) == [s[i]] + Pass(z, L, t, k + 1);
      }
    }
  }

  lemma NextPieceDiffers(q: nat, t: nat, b: nat, n: nat)
    requires 0 < q < 16 && 16 % q != 0
    ensures Apart(q, t, b + 1, n) != [] && Apart(q, t, b + 1, n)[0] != Piece(q, b)[0]
  {
    hide Times;
    SameRemainder(16 * b, 16, q);
    assert 16 * (b + 1) == 16 * b + 16;
    assert Piece(q, b)[0] == Letter((16 * b + 0) % q) && Piece(q, b + 1)[0] == Letter((16 * (b + 1) + 0) % q);
    if n > 0 {
      TimesStart(Piece(q, b + 1), t + 1);
      assert Times(Piece(q, b + 1), t + 1)[..16][0] == Piece(q, b + 1)[0];
    }
  }

  lemma {:induction false} PassJoins(q: nat, t: nat, b: nat, n: nat)
    requires 0 < q < 16 && 16 % q != 0
    ensures Pass(Apart(q, t, b, n), 16, t, 0) == Joined(q, b, n)
    decreases n
  {
    hide Piece, Times, Copies, RunEnd;
    if n > 0 {
      var copies, rest := Times(Piece(q, b), t + 1), Apart(q, t, b + 1, n - 1);
      NextPieceDiffers(q, t, b, n - 1);
      hide Pass;
      HeadCollapses(Piece(q, b), t, rest);
      PassBehind(copies, rest, 16, t, 0);
      PassJoins(q, t, b + 1, n - 1);
    }
  }

  lemma {:induction false} JoinedAt(q: nat, b: nat, n: nat, k: nat)
    requires 0 < q < 16 && k < 16 * n
    ensures k < |Joined(q, b, n)| && Joined(q, b, n)[k] == Letter((16 * b + k) % q)
    decreases n
  {
    if k >= 16 {
      JoinedAt(q, b + 1, n - 1, k - 16);
      assert (Piece(q, b) + Joined(q, b + 1, n - 1))[k] == Joined(q, b + 1, n - 1)[k - 16];
    }
  }

  lemma JoinedRepeats(q: nat, n: nat)
    requires 0 < q < 16
    ensures Repeats(Joined(q, 0, n), 0, q, n)
  {
    hide Joined, Piece, Letter;
    Distribute(q, 16 - q, n);
    var s := Joined(q, 0, n);
    assert s[0..] == s;
    if n > 0 {
      JoinedAt(q, 0, n, 16 * n - 1);
    }
    forall k | 0 <= k < n * q - q ensures s[k] == s[k + q] {
      JoinedAt(q, 0, n, k);
      JoinedAt(q, 0, n, k + q);
      SameRemainder(k, q, q);
      RemainderIs(q, q, 1, 0);
    }
  }

  /** No pass up to fifteen finds anything, and the one for sixteen joins all pieces to one stretch of period q. */
  lemma ApartFinished(q: nat, t: nat, n: nat)
    requires 0 < q < 16 && 16 % q != 0 && t >= 1 && At(t + 1, q) > 32 && n > 0
    ensures Fixed(Apart(q, t, 0, n), t) == Joined(q, 0, n)
  {
    hide Apart, Joined, At, Pass, Loops, MaxUnit;
    var s := Apart(q, t, 0, n);
    ApartEnd(q, t, 0, n);
    AtMonotone(1, n, t + 1);
    OneFrame(t + 1);
    EnoughForUnit(|s|, t, 16);
    forall l: nat | 1 <= l < 16 ensures !Loops(s, l, t) {
      ApartKeeps(q, t, n, l);
    }
    PassesSkip(s, t, 1, 16, 16);
    PassJoins(q, t, 0, n);
  }

  lemma OneFrame(hop: nat)
    ensures At(1, hop) == hop && At(hop, 16) == 16 * hop
  {
  }
}
