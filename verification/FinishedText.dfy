/**
 How many copies in a row the finished text can hold, after the passes for all unit lengths
 (backend/asr/client.py, detect_and_fix_repetitions). A later pass may join what an earlier one has
 left apart, so only some units keep a bound: a single character keeps the threshold, and units whose
 length divides the longest one tried keep the bound of its pass.
 */
module FinishedText {
  import opened Basics
  import opened JoinedText
  import opened Repetition
  import opened RepetitionBounds

  /** The finished text holds a unit of length L `times` times in a row at position p. */
  ghost predicate FixedRepeats(text: string, t: nat, L: nat, p: nat, times: nat) { Repeats(Fixed(text, t), p, L, times) }

  // ----- Single characters: no pass lengthens a run

  /** From position p on, n times the same character. */
  ghost predicate Same(x: string, p: nat, n: nat) {
    p + n <= |x| && forall k :: p <= k < p + n ==> x[k] == x[p]
  }

  lemma {:induction false} SameIsRepeats(x: string, p: nat, n: nat)
    requires Repeats(x, p, 1, n)
    ensures Same(x, p, n)
  {
    if n > 1 {
      assert Repeats(x, p, 1, n - 1);
      SameIsRepeats(x, p, n - 1);
      assert x[p..][n - 2] == x[p..][n - 1];
    }
  }

  lemma RepeatsIsSame(x: string, p: nat, n: nat)
    requires Same(x, p, n)
    ensures Repeats(x, p, 1, n)
  {
    forall k | 0 <= k < n - 1 ensures x[p..][k] == x[p..][k + 1] {
      assert x[p..][k] == x[p + k] && x[p..][k + 1] == x[p + k + 1];
    }
  }

  lemma SameBehind(x: string, y: string, p: nat, n: nat)
    requires p >= |x| && Same(x + y, p, n)
    ensures Same(y, p - |x|, n)
  {
    forall k | p - |x| <= k < p - |x| + n ensures y[k] == y[p - |x|] {
      assert (x + y)[k + |x|] == y[k];
    }
  }

  lemma SameInside(x: string, y: string, p: nat, n: nat)
    requires p + n <= |x| && Same(x + y, p, n)
    ensures Same(x, p, n)
  {
    forall k | p <= k < p + n ensures x[k] == x[p] {
      assert (x + y)[k] == x[k];
    }
  }

  lemma SameAcross(x: string, y: string, p: nat, n: nat)
    requires p < |x| < p + n && Same(x + y, p, n)
    ensures Same(x, p, |x| - p) && Same(y, 0, p + n - |x|) && y[0] == x[p]
  {
    forall k | p <= k < |x| ensures x[k] == x[p] {
      assert (x + y)[k] == x[k];
    }
    forall k | 0 <= k < p + n - |x| ensures y[k] == x[p] {
      assert (x + y)[k + |x|] == y[k];
    }
  }

  lemma SameJoins(s: string, q: nat, a: nat, b: nat)
    requires Same(s, q, a) && Same(s, q + a, b) && a > 0 && b > 0 && s[q + a] == s[q]
    ensures Same(s, q, a + b)
  {
  }

  lemma SliceIsSame(s: string, i: nat, j: nat, p: nat, n: nat)
    requires i <= j <= |s| && Same(s[i..j], p, n)
    ensures Same(s, i + p, n)
  {
    forall k | i + p <= k < i + p + n ensures s[k] == s[i + p] {
      assert s[i..j][k - i] == s[k];
    }
  }

  /** Copies of a unit of one character are a run of it. */
  lemma {:induction false} ConstantRun(s: string, unit: string, j: nat)
    requires unit != [] && j <= |s| && Occurs(s, unit, j) && Same(unit, 0, |unit|)
    ensures Same(s, j, RunEnd(s, unit, j) - j)
    decreases |s| - j
  {
    var next := j + |unit|;
    SliceIsSame(s, j, next, 0, |unit|);
    if Occurs(s, unit, next) {
      ConstantRun(s, unit, next);
      assert s[next..next + |unit|][0] == s[next] == s[j..next][0];
      SameJoins(s, j, |unit|, RunEnd(s, unit, next) - next);
    }
  }

  /** The copies end with a copy. */
  lemma {:induction false} LastCopy(s: string, unit: string, j: nat)
    requires unit != [] && j <= |s| && Occurs(s, unit, j)
    ensures var e := RunEnd(s, unit, j); e >= j + |unit| && s[e - |unit|..e] == unit
    decreases |s| - j
  {
    if Occurs(s, unit, j + |unit|) {
      LastCopy(s, unit, j + |unit|);
    }
  }

  lemma FirstCharacter(s: string, L: nat, t: nat, i: nat)
    requires L > 0 && i <= |s| && Pass(s, L, t, i) != []
    ensures i < |s| && Pass(s, L, t, i)[0] == s[i]
  {
    PassPrefix(s, L, t, i);
  }

  /** A run at the start of a pass's output is there at the start of its input. */
  lemma {:induction false} LeadIsCopied(s: string, L: nat, t: nat, i: nat, m: nat)
    requires L > 0 && i <= |s| && Same(Pass(s, L, t, i), 0, m)
    ensures Same(s, i, m)
    decreases |s| - i
  {
    if i + L > |s| {
      SliceIsSame(s, i, |s|, 0, m);
    } else {
      PassCases(s, L, t, i);
      hide Pass, Copies, RunEnd, Same;
      if !Collapses(s, L, t, i) {
        LeadBehindOne(s, L, t, i, m);
      } else {
        LeadBehindUnit(s, L, t, i, m);
      }
    }
  }

  lemma LeadBehindOne(s: string, L: nat, t: nat, i: nat, m: nat)
    requires L > 0 && i < |s| && Same([s[i]] + Pass(s, L, t, i + 1), 0, m)
    ensures Same(s, i, m)
    decreases |s| - i, 0
  {
    hide Pass;
    if m > 1 {
      SameAcross([s[i]], Pass(s, L, t, i + 1), 0, m);
      LeadIsCopied(s, L, t, i + 1, m - 1);
      FirstCharacter(s, L, t, i + 1);
      SameJoins(s, i, 1, m - 1);
    }
  }

  lemma LeadBehindUnit(s: string, L: nat, t: nat, i: nat, m: nat)
    requires L > 0 && Collapses(s, L, t, i)
    requires
      var unit := s[i..i + L];
      var j := RunEnd(s, unit, i);
      Occurs(s, unit, i) && i + L <= j && Same(unit + Pass(s, L, t, j), 0, m)
    ensures Same(s, i, m)
    decreases |s| - i, 0
  {
    hide Pass, Copies, RunEnd;
    var unit := s[i..i + L];
    var j := RunEnd(s, unit, i);
    var rest := Pass(s, L, t, j);
    if m <= L {
      SameInside(unit, rest, 0, m);
      SliceIsSame(s, i, i + L, 0, m);
    } else {
      SameAcross(unit, rest, 0, m);
      LeadIsCopied(s, L, t, j, m - L);
      FirstCharacter(s, L, t, j);
      ConstantRun(s, unit, i);
      SameJoins(s, i, j - i, m - L);
    }
  }

  /** A run anywhere in a pass's output is somewhere in its input. */
  lemma {:induction false} RunComesFrom(s: string, L: nat, t: nat, i: nat, p: nat, n: nat) returns (q: nat)
    requires L > 0 && i <= |s| && n > 0 && Same(Pass(s, L, t, i), p, n)
    ensures Same(s, q, n)
    decreases |s| - i
  {
    hide Pass, Collapses, Occurs, Copies, RunEnd, Same;
    if p == 0 {
      LeadIsCopied(s, L, t, i, n);
      q := i;
    } else if i + L > |s| {
      PassPrefix(s, L, t, i);
      assert s[i..] == s[i..|s|];
      SliceIsSame(s, i, |s|, p, n);
      q := i + p;
    } else {
      PassCases(s, L, t, i);
      if !Collapses(s, L, t, i) {
        SameBehind([s[i]], Pass(s, L, t, i + 1), p, n);
        q := RunComesFrom(s, L, t, i + 1, p - 1, n);
      } else if p >= L {
        var j := RunEnd(s, s[i..i + L], i);
        SameBehind(s[i..i + L], Pass(s, L, t, j), p, n);
        q := RunComesFrom(s, L, t, j, p - L, n);
      } else {
        q := RunFromUnit(s, L, t, i, p, n);
      }
    }
  }

  lemma RunFromUnit(s: string, L: nat, t: nat, i: nat, p: nat, n: nat) returns (q: nat)
    requires L > 0 && Collapses(s, L, t, i) && p < L && n > 0
    requires
      var unit := s[i..i + L];
      var j := RunEnd(s, unit, i);
      Occurs(s, unit, i) && Same(unit + Pass(s, L, t, j), p, n)
    ensures Same(s, q, n)
  {
    hide Pass, Copies, RunEnd, Same;
    var unit := s[i..i + L];
    if p + n <= L {
      SameInside(unit, Pass(s, L, t, RunEnd(s, unit, i)), p, n);
      SliceIsSame(s, i, i + L, p, n);
      q := i + p;
    } else {
      q := RunAcrossUnit(s, L, t, i, p, n);
    }
  }

  /** A run that begins inside a collapsed unit begins in its last copy. */
  lemma RunAcrossUnit(s: string, L: nat, t: nat, i: nat, p: nat, n: nat) returns (q: nat)
    requires L > 0 && Collapses(s, L, t, i) && p < L < p + n
    requires
      var unit := s[i..i + L];
      var j := RunEnd(s, unit, i);
      Occurs(s, unit, i) && Same(unit + Pass(s, L, t, j), p, n)
    ensures Same(s, q, n)
  {
    hide Pass, Copies, RunEnd;
    var unit := s[i..i + L];
    var j := RunEnd(s, unit, i);
    LastCopy(s, unit, i);
    SameAcross(unit, Pass(s, L, t, j), p, n);
    LeadIsCopied(s, L, t, j, n - (L - p));
    FirstCharacter(s, L, t, j);
    SliceIsSame(s, j - L, j, p, L - p);
    q := j - L + p;
    assert s[q] == s[j - L..j][p];
    SameJoins(s, q, L - p, n - (L - p));
  }

  lemma {:induction false} RunComesThrough(s: string, t: nat, L: nat, maxUnit: nat, p: nat, n: nat) returns (q: nat)
    requires L > 0 && n > 0 && Same(Passes(s, t, L, maxUnit), p, n)
    ensures Same(s, q, n)
    decreases maxUnit + 1 - L
  {
    hide Pass, Same;
    q := p;
    if L <= maxUnit {
      q := RunComesThrough(Pass(s, L, t, 0), t, L + 1, maxUnit, p, n);
      q := RunComesFrom(s, L, t, 0, q, n);
    }
  }

  /** The finished text holds no character more than threshold times in a row. */
  lemma OneCharacterFinished(text: string, t: nat, p: nat)
    requires t >= 1
    ensures !Repeats(Fixed(text, t), p, 1, t + 1)
  {
    hide Pass, Periodic;
    var fixed := Fixed(text, t);
    if Repeats(fixed, p, 1, t + 1) {
      SameIsRepeats(fixed, p, t + 1);
      var first := Pass(text, 1, t, 0);
      var q := RunComesThrough(first, t, 2, MaxUnit(|text|, t), p, t + 1);
      RepeatsIsSame(first, q, t + 1);
      OneCharacterBound(text, t, 0, q);
    }
  }

  // ----- Units that keep no bound

  /** No finished text holds a unit of length L that many times in a row. */
  ghost predicate Bounded(t: nat, L: nat, n: nat) {
    forall text: string, p: nat :: !FixedRepeats(text, t, L, p, n)
  }

  lemma LongUnitUnbounded(L: nat, t: nat, n: nat)
    requires L > 16 && t >= 1
    ensures !Bounded(t, L, n)
  {
    hide Fixed, Times, LongUnit, Periodic;
    var text := Times(LongUnit(L), n + 1);
    LongFinished(L, t, n + 1);
    TimesIsPeriodic(LongUnit(L), n + 1);
    Distribute(n, 1, L);
    Shorter(text, L, (n + 1) * L, n * L);
    assert text[0..] == text;
    assert FixedRepeats(text, t, L, 0, n);
  }

  /** A unit that sixteen is no multiple of: pieces of sixteen characters are joined to any length. */
  lemma JoinedUnbounded(L: nat, t: nat, n: nat)
    requires 0 < L < 16 && 16 % L != 0 && t >= 1 && At(t + 1, L) > 32
    ensures !Bounded(t, L, n)
  {
    hide Fixed, Apart, Joined, At, Periodic;
    ApartFinished(L, t, n + 1);
    JoinedRepeats(L, n + 1);
    FewerRepeats(Joined(L, 0, n + 1), 0, L, n + 1, n);
    assert FixedRepeats(Apart(L, t, 0, n + 1), t, L, 0, n);
  }

  lemma FewerRepeats(x: string, p: nat, L: nat, more: nat, fewer: nat)
    requires Repeats(x, p, L, more) && fewer <= more
    ensures Repeats(x, p, L, fewer)
  {
    Distribute(fewer, more - fewer, L);
    Shorter(x[p..], L, more * L, fewer * L);
  }

  lemma {:induction false} PeriodOfMultiple(x: string, L: nat, e: nat, m: nat)
    requires e >= 1 && Periodic(x, L, m)
    ensures Periodic(x, e * L, m)
  {
    if e > 1 {
      Distribute(e - 1, 1, L);
      PeriodOfMultiple(x, L, e - 1, m);
      var d := (e - 1) * L;
      forall k | 0 <= k < m - (d + L) ensures x[k] == x[k + (d + L)] {
        assert x[k] == x[k + d] == x[k + d + L];
      }
    }
  }

  /** The bound the pass for sixteen characters leaves the units that it is a multiple of. */
  function Bound(t: nat, L: nat): nat
    requires L >= 1
  {
    (t + 2) * (16 / L)
  }

  /** For those units, at every threshold, no finished text holds more. */
  lemma DividingUnitsBounded(text: string, t: nat, L: nat, p: nat)
    requires t >= 1 && L >= 1 && 16 % L == 0
    ensures !FixedRepeats(text, t, L, p, Bound(t, L))
  {
    hide Passes, Periodic;
    var e := 16 / L;
    assert e * L == 16;
    var fixed := Fixed(text, t);
    if Repeats(fixed, p, L, Bound(t, L)) {
      SixteenRepeats(fixed, p, L, e, t + 2);
      if |text| > t {
        PassesLength(text, t, 1, MaxUnit(|text|, t));
      }
      RepeatsFit(fixed, p, 16, t + 2);
      EnoughForUnit(|text|, t, 16);
      FixedBound(text, t, p);
    }
  }

  lemma RepeatsFit(x: string, p: nat, L: nat, times: nat)
    requires Repeats(x, p, L, times)
    ensures times * L <= |x|
  {
  }

  lemma SixteenRepeats(x: string, p: nat, L: nat, e: nat, n: nat)
    requires e >= 1 && e * L == 16 && Repeats(x, p, L, n * e)
    ensures Repeats(x, p, 16, n)
  {
    assert n * e * L == n * 16 by {
      assert n * (e * L) == n * e * L;
    }
    PeriodOfMultiple(x[p..], L, e, n * 16);
  }

  // ----- The exact conditions

  /**
   No finished text holds a unit of length L more than threshold times in a row exactly if the unit
   is a single character.
   */
  lemma ThresholdKept(L: nat, t: nat)
    requires L >= 1 && t >= 1
    ensures Bounded(t, L, t + 1) <==> L == 1
  {
    hide Fixed, Repeats, Witness, Leftover, Letters;
    if L == 1 {
      var times := t + 1;
      forall text: string, p: nat ensures !FixedRepeats(text, t, 1, p, times) {
        OneCharacterFinished(text, t, p);
      }
    } else if L <= 16 {
      WitnessFinished(L, t);
      LeftoverRepeats(Letters(L), t);
      assert FixedRepeats(Witness(Letters(L), t), t, L, 1, t + 1);
    } else {
      LongUnitUnbounded(L, t, t + 1);
    }
  }

  /**
   There is a number of copies that no finished text holds exactly if the length divides sixteen, the
   longest unit tried. Left open are the short units at the smallest thresholds, where threshold + 1
   copies fit into two pieces of sixteen characters.
   */
  lemma BoundedExactly(t: nat, L: nat)
    requires t >= 1 && L >= 1 && (16 % L == 0 || At(t + 1, L) > 32)
    ensures (exists n: nat :: Bounded(t, L, n)) <==> 16 % L == 0
  {
    hide FixedRepeats;
    if 16 % L == 0 {
      forall text: string, p: nat ensures !FixedRepeats(text, t, L, p, Bound(t, L)) {
        DividingUnitsBounded(text, t, L, p);
      }
      assert Bounded(t, L, Bound(t, L));
    } else {
      forall n: nat ensures !Bounded(t, L, n) {
        if L < 16 {
          JoinedUnbounded(L, t, n);
        } else {
          LongUnitUnbounded(L, t, n);
        }
      }
    }
  }

  /** From a threshold of ten on no unit is left open. */
  lemma BoundedFromTen(t: nat, L: nat)
    requires t >= 10 && L >= 1
    ensures (exists n: nat :: Bounded(t, L, n)) <==> L == 1 || L == 2 || L == 4 || L == 8 || L == 16
  {
    hide Bounded;
    DivisorsOfSixteen(L);
    if L >= 3 {
      AtMonotone(11, t + 1, L);
    }
    BoundedExactly(t, L);
  }

  lemma DivisorsOfSixteen(L: nat)
    requires L >= 1
    ensures 16 % L == 0 <==> L == 1 || L == 2 || L == 4 || L == 8 || L == 16
  {
    if L > 16 {
      RemainderIs(16, L, 0, 16);
    }
  }

  /** The threshold transcripts are cleaned with. */
  const CALLED_THRESHOLD: nat := 20

  /** A transcript can keep three characters any number of times in a row. */
  lemma CalledThresholdUnbounded(n: nat)
    ensures exists text: string, p: nat :: FixedRepeats(text, CALLED_THRESHOLD, 3, p, n)
  {
    hide FixedRepeats;
    JoinedUnbounded(3, CALLED_THRESHOLD, n);
  }
}
