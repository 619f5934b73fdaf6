/**
 How many copies in a row one pass can leave of the units of its length
 (backend/asr/client.py, detect_and_fix_repetitions): exactly, for every threshold.
 */
module RepetitionBounds {
  import opened Basics
  import opened Repetition

  // ----- Units of one character keep the threshold

  lemma {:induction false} OneCharacterBound(s: string, t: nat, i: nat, p: nat)
    requires t >= 1 && i <= |s|
    ensures !Repeats(Pass(s, 1, t, i), p, 1, t + 1)
    decreases |s| - i
  {
    hide Collapses, RunEnd, Copies, Periodic;
    var out := Pass(s, 1, t, i);
    if p == 0 {
      assert out[0..] == out;
      NoLongStart(s, 1, t, i);
    } else if i + 1 > |s| {
      NoRoom(out, p, 1, t);
    } else if !Collapses(s, 1, t, i) {
      AfterFirst([s[i]], Pass(s, 1, t, i + 1), p, 1, t + 1);
      OneCharacterBound(s, t, i + 1, p - 1);
    } else {
      var j := RunEnd(s, s[i..i + 1], i);
      RunAdvances(s, 1, t, i);
      AfterFirst(s[i..i + 1], Pass(s, 1, t, j), p, 1, t + 1);
      OneCharacterBound(s, t, j, p - 1);
    }
  }

  lemma NoRoom(x: string, p: nat, L: nat, t: nat)
    requires L > 0 && |x| < L
    ensures !Repeats(x, p, L, t + 1)
  {
    Distribute(t, 1, L);
  }

  lemma AfterFirst(c: string, x: string, p: nat, L: nat, times: nat)
    requires |c| == 1 && p > 0
    ensures Repeats(c + x, p, L, times) <==> Repeats(x, p - 1, L, times)
  {
    if p <= |c + x| {
      assert (c + x)[p..] == x[p - 1..];
    }
  }

  /** One turn of a pass. */
  lemma PassCases(s: string, L: nat, t: nat, i: nat)
    requires L > 0 && i + L <= |s|
    ensures
      if Collapses(s, L, t, i) then
        var unit := s[i..i + L];
        var j := RunEnd(s, unit, i);
        Occurs(s, unit, i) && i + L <= j && Pass(s, L, t, i) == unit + Pass(s, L, t, j)
      else Pass(s, L, t, i) == [s[i]] + Pass(s, L, t, i + 1)
  {
    if Collapses(s, L, t, i) {
      RunAdvances(s, L, t, i);
    }
  }

  // ----- Longer units can exceed it by one

  function Times(u: string, n: nat): string { if n == 0 then "" else u + Times(u, n - 1) }

  lemma {:induction false} TimesLength(u: string, n: nat)
    ensures |Times(u, n)| == At(n, |u|)
  {
    if n > 0 {
      TimesLength(u, n - 1);
      NextFrame(n - 1, |u|);
    }
  }

  /** threshold + 1 copies of one unit, and behind them a second one that shares all but its first character. */
  function Witness(filler: string, t: nat): string { Times("a" + filler, t + 1) + Tail(filler, t) }

  function Tail(filler: string, t: nat): string { Times("x" + filler, t) + "x" }

  /** What a pass makes of it. */
  function Leftover(filler: string, t: nat): string { ("a" + filler) + Tail(filler, t) }

  lemma {:induction false} CopiesOfTimes(s: string, pre: string, u: string, n: nat, rest: string)
    requires u != [] && s == pre + (Times(u, n) + rest) && !Occurs(s, u, |pre| + |Times(u, n)|)
    ensures Copies(s, u, |pre|) == n && RunEnd(s, u, |pre|) == |pre| + |Times(u, n)|
    decreases n
  {
    if n > 0 {
      var pre' := pre + u;
      assert s == pre' + (Times(u, n - 1) + rest);
      assert |pre'| + |Times(u, n - 1)| == |pre| + |Times(u, n)|;
      CopiesOfTimes(s, pre', u, n - 1, rest);
      assert s[|pre|..|pre| + |u|] == u;
    }
  }

  /** A text that starts with t + 1 copies of u and goes on otherwise: they collapse. */
  lemma HeadCollapses(u: string, t: nat, rest: string)
    requires u != [] && rest != [] && rest[0] != u[0]
    ensures
      var s, j := Times(u, t + 1) + rest, |Times(u, t + 1)|;
      Pass(s, |u|, t, 0) == u + Pass(s, |u|, t, j)
  {
    hide Times, Copies, RunEnd;
    var s, j := Times(u, t + 1) + rest, |Times(u, t + 1)|;
    TimesStart(u, t + 1);
    assert s == "" + (Times(u, t + 1) + rest);
    assert s[j] == rest[0];
    CopiesOfTimes(s, "", u, t + 1, rest);
    assert s[..|u|] == u;
  }

  /** A rest that is too short for t + 1 units is copied. */
  lemma RestIsCopied(s: string, L: nat, t: nat, j: nat)
    requires L > 0 && t >= 1 && j <= |s| && |s| - j < At(t + 1, L)
    ensures Pass(s, L, t, j) == s[j..]
  {
    hide Copies, RunEnd, At;
    forall k: nat | k >= j ensures !Collapses(s, L, t, k) {
      TooFewLeft(s, L, t, k, |s| - j);
    }
    PassLength(s, L, t, j);
  }

  lemma WitnessPass(filler: string, t: nat)
    requires filler != [] && t >= 1
    ensures Pass(Witness(filler, t), |filler| + 1, t, 0) == Leftover(filler, t)
  {
    hide Times, Pass, At;
    var u, rest, L := "a" + filler, Tail(filler, t), |filler| + 1;
    var s, j := Times(u, t + 1) + rest, |Times(u, t + 1)|;
    TailStart(filler, t);
    HeadCollapses(u, t, rest);
    NextFrame(t, L);
    RestIsCopied(s, L, t, j);
    assert s[j..] == rest;
  }

  lemma TailStart(filler: string, t: nat)
    requires t >= 1
    ensures |Tail(filler, t)| == At(t, |filler| + 1) + 1 && Tail(filler, t)[0] == 'x'
  {
    hide At;
    TimesLength("x" + filler, t);
  }

  lemma TimesStart(u: string, n: nat)
    requires n > 0 && u != []
    ensures |Times(u, n)| >= |u| && Times(u, n)[..|u|] == u
  {
  }

  /** Where fewer characters than t + 1 units are left, nothing collapses. */
  lemma TooFewLeft(s: string, L: nat, t: nat, k: nat, left: nat)
    requires L > 0 && k + left >= |s| && left < At(t + 1, L)
    ensures !Collapses(s, L, t, k)
  {
    hide Copies;
    if k + L <= |s| {
      var unit := s[k..k + L];
      CopiesFit(s, unit, k);
      var copies := Copies(s, unit, k);
      AtMonotone(if copies > t then t + 1 else 0, copies, L);
    }
  }

  /** Seen from its second character on, the leftover is t + 1 copies of one unit. */
  lemma {:induction false} Rotate(b: string, t: nat)
    ensures b + (Times("x" + b, t) + "x") == Times(b + "x", t + 1)
    decreases t
  {
    var u, w := "x" + b, b + "x";
    if t == 0 {
      assert Times(w, 0) == "" && Times(u, 0) == "";
      assert Times(w, 1) == w + Times(w, 0);
      assert b + ("" + "x") == w + "";
    } else {
      Rotate(b, t - 1);
      assert Times(u, t) == u + Times(u, t - 1);
      assert b + ((u + Times(u, t - 1)) + "x") == w + (b + (Times(u, t - 1) + "x"));
    }
  }

  lemma {:induction false} TimesIsPeriodic(w: string, n: nat)
    requires w != []
    ensures Periodic(Times(w, n), |w|, n * |w|)
  {
    TimesLength(w, n);
    if n > 0 {
      var x, y := Times(w, n), Times(w, n - 1);
      TimesIsPeriodic(w, n - 1);
      TimesLength(w, n - 1);
      NextFrame(n - 1, |w|);
      forall k | 0 <= k < n * |w| - |w| ensures x[k] == x[k + |w|] {
        assert x[k + |w|] == y[k];
        if k < |w| {
          TimesStart(w, n - 1);
          assert y[k] == y[..|w|][k];
        } else {
          assert x[k] == y[k - |w|];
        }
      }
    }
  }

  /** So t + 1 copies in a row are left, for every length of two or more and every threshold. */
  lemma LeftoverRepeats(filler: string, t: nat)
    ensures Repeats(Leftover(filler, t), 1, |filler| + 1, t + 1)
  {
    Rotate(filler, t);
    TimesIsPeriodic(filler + "x", t + 1);
    hide Times, Periodic;
    assert Leftover(filler, t)[1..] == filler + Tail(filler, t);
  }

  /** The pass for units of length L leaves one of them more than t times in a row at position p. */
  ghost predicate PassExceeds(s: string, L: nat, t: nat, p: nat)
    requires L > 0
  {
    Repeats(Pass(s, L, t, 0), p, L, t + 1)
  }

  /**
   The obvious bound, that a pass leaves no unit of its length more than threshold times in a row,
   holds for every text exactly if the unit is a single character.
   */
  lemma ObviousBound(L: nat, t: nat)
    requires L > 0 && t >= 1
    ensures (forall s: string, p: nat :: !PassExceeds(s, L, t, p)) <==> L == 1
  {
    hide Pass, Repeats, Witness, Leftover;
    if L == 1 {
      forall s: string, p: nat ensures !PassExceeds(s, L, t, p) {
        OneCharacterBound(s, t, 0, p);
      }
    } else {
      var filler := seq(L - 1, _ => 'b');
      WitnessPass(filler, t);
      LeftoverRepeats(filler, t);
      assert PassExceeds(Witness(filler, t), L, t, 1);
    }
  }
}
