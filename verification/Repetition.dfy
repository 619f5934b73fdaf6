/**
 Collapsing decode loops in a transcript (backend/asr/client.py, detect_and_fix_repetitions).

 One pass per unit length L scans the text; a unit that occurs more than `threshold` times in a
 row is kept once, anything else is copied character by character.
 */
module Repetition {
  import opened Basics

  predicate Occurs(s: string, unit: string, j: nat) {
    j + |unit| <= |s| && s[j..j + |unit|] == unit
  }

  /** How many copies of `unit` stand one after the other from position j on. */
  function Copies(s: string, unit: string, j: nat): nat
    requires unit != []
    decreases |s| - j
  {
    if Occurs(s, unit, j) then 1 + Copies(s, unit, j + |unit|) else 0
  }

  /** Where those copies end. */
  function RunEnd(s: string, unit: string, j: nat): (e: nat)
    requires unit != [] && j <= |s|
    ensures j <= e <= |s|
    ensures Copies(s, unit, j) > 0 ==> e >= j + |unit|
    ensures Copies(s, unit, j) > 1 ==> e >= j + 2 * |unit|
    ensures !Occurs(s, unit, e)
    decreases |s| - j
  {
    if Occurs(s, unit, j) then RunEnd(s, unit, j + |unit|) else j
  }

  predicate Collapses(s: string, L: nat, t: nat, i: nat)
    requires L > 0
  {
    i + L <= |s| && Copies(s, s[i..i + L], i) > t
  }

  /** The output of one pass from position i on. */
  function Pass(s: string, L: nat, t: nat, i: nat): string
    requires L > 0 && i <= |s|
    decreases |s| - i
  {
    if i + L > |s| then s[i..]
    else if Collapses(s, L, t, i) then s[i..i + L] + Pass(s, L, t, RunEnd(s, s[i..i + L], i))
    else [s[i]] + Pass(s, L, t, i + 1)
  }

  /** The passes for the unit lengths from L to maxUnit. */
  function Passes(s: string, t: nat, L: nat, maxUnit: nat): string
    requires L > 0
    decreases maxUnit + 1 - L
  {
    if L > maxUnit then s else Passes(Pass(s, L, t, 0), t, L + 1, maxUnit)
  }

  function MaxUnit(n: nat, t: nat): nat { Min(16, Max(1, n / (t + 1))) }

  function Fixed(text: string, t: nat): string {
    if |text| <= t then text else Passes(text, t, 1, MaxUnit(|text|, t))
  }

  method DetectAndFixRepetitions(text: string, threshold: nat) returns (fixed: string)
    ensures fixed == Fixed(text, threshold)
  {
    fixed := text;
    if |fixed| <= threshold {
      return;
    }
    var maxUnit := MaxUnit(|fixed|, threshold);
    var unitLen := 1;
    while unitLen < maxUnit + 1
      invariant 1 <= unitLen <= maxUnit + 1
      invariant Passes(fixed, threshold, unitLen, maxUnit) == Fixed(text, threshold)
    {
      fixed := OnePass(fixed, unitLen, threshold);
      unitLen := unitLen + 1;
    }
  }

  /** The body of the loop over unit lengths. */
  method OnePass(text: string, unitLen: nat, threshold: nat) returns (fixed: string)
    requires unitLen > 0
    ensures fixed == Pass(text, unitLen, threshold, 0)
  {
    hide Pass, RunEnd, Copies;
    var out: seq<string> := [];
    var i := 0;
    var changed := false;
    while i < |text|
      invariant i <= |text|
      invariant Flatten(out) + Pass(text, unitLen, threshold, i) == Pass(text, unitLen, threshold, 0)
      invariant !changed ==> Flatten(out) == text[..i]
    {
      PassStep(text, unitLen, threshold, i, Flatten(out));
      if |text| - i < unitLen {
        FlattenSnoc(out, text[i..]);
        out := out + [text[i..]];
        i := |text|;
        break;
      }
      var unit := text[i..i + unitLen];
      var count, j := CountCopies(text, unit, i);
      if count > threshold {
        FlattenSnoc(out, unit);
        out := out + [unit];
        i := j;
        changed := true;
      } else {
        FlattenSnoc(out, [text[i]]);
        out := out + [[text[i]]];
        i := i + 1;
      }
    }
    PassEnd(text, unitLen, threshold, Flatten(out));
    fixed := text;
    if changed {
      fixed := Flatten(out);
    }
  }

  /** One turn of the scan, with the output so far in front. */
  lemma PassStep(s: string, L: nat, t: nat, i: nat, before: string)
    requires L > 0 && i < |s|
    ensures i + L > |s| ==> before + Pass(s, L, t, i) == (before + s[i..]) + Pass(s, L, t, |s|)
    ensures i + L <= |s| ==>
      var unit := s[i..i + L];
      before + Pass(s, L, t, i)
      == if Copies(s, unit, i) > t then (before + unit) + Pass(s, L, t, RunEnd(s, unit, i))
         else (before + [s[i]]) + Pass(s, L, t, i + 1)
  {
    hide Copies, RunEnd;
    if i + L <= |s| {
      var unit := s[i..i + L];
      var a, b := Pass(s, L, t, RunEnd(s, unit, i)), Pass(s, L, t, i + 1);
      assert before + (unit + a) == (before + unit) + a;
      assert before + ([s[i]] + b) == (before + [s[i]]) + b;
    }
  }

  lemma PassEnd(s: string, L: nat, t: nat, before: string)
    requires L > 0
    ensures before + Pass(s, L, t, |s|) == before && s[..|s|] == s
  {
  }

  /** The inner loop: a unit is there once, and again for every copy that follows. */
  method CountCopies(text: string, unit: string, i: nat) returns (count: nat, j: nat)
    requires unit != [] && Occurs(text, unit, i)
    ensures count == Copies(text, unit, i) && j == RunEnd(text, unit, i)
  {
    count := 1;
    j := i + |unit|;
    while Occurs(text, unit, j)
      invariant j <= |text|
      decreases |text| - j
      invariant count + Copies(text, unit, j) == Copies(text, unit, i)
      invariant RunEnd(text, unit, j) == RunEnd(text, unit, i)
    {
      count := count + 1;
      j := j + |unit|;
    }
  }

  // ----- What one pass leaves behind

  /** The first m characters of x repeat with period L. */
  ghost predicate Periodic(x: string, L: nat, m: nat) {
    m <= |x| && forall k :: 0 <= k < m - L ==> x[k] == x[k + L]
  }

  /** A unit of length L occurs `times` times in a row at position p of x. */
  ghost predicate Repeats(x: string, p: nat, L: nat, times: nat) {
    p <= |x| && Periodic(x[p..], L, times * L)
  }

  /** The output of a pass starts like its input, for one unit at least. */
  lemma {:induction false} PassPrefix(s: string, L: nat, t: nat, i: nat)
    requires L > 0 && i <= |s|
    ensures i + L > |s| ==> Pass(s, L, t, i) == s[i..]
    ensures i + L <= |s| ==> |Pass(s, L, t, i)| >= L && forall k :: 0 <= k < L ==> Pass(s, L, t, i)[k] == s[i + k]
    decreases |s| - i
  {
    hide Collapses, RunEnd;
    if i + L <= |s| && !Collapses(s, L, t, i) {
      PassPrefix(s, L, t, i + 1);
      var out, rest := Pass(s, L, t, i), Pass(s, L, t, i + 1);
      forall k | 0 <= k < L && k < |out| ensures out[k] == s[i + k] {
        if k > 0 {
          assert out[k] == rest[k - 1];
        }
      }
    }
  }

  /** After a collapsed loop the same unit does not follow. */
  lemma CollapseBreaksPeriod(s: string, L: nat, t: nat, i: nat)
    requires L > 0 && i + L <= |s| && Collapses(s, L, t, i)
    ensures !Periodic(Pass(s, L, t, i), L, 2 * L)
  {
    hide Collapses;
    var unit := s[i..i + L];
    var j := RunEnd(s, unit, i);
    var out, rest := Pass(s, L, t, i), Pass(s, L, t, j);
    PassPrefix(s, L, t, j);
    assert out == unit + rest;
    if j + L <= |s| {
      assert s[j..j + L] != unit;
      var k :| 0 <= k < L && s[j..j + L][k] != unit[k];
      assert out[k] == unit[k] && out[k + L] == rest[k] == s[j + k];
    }
  }

  lemma Shorter(x: string, L: nat, m: nat, n: nat)
    requires Periodic(x, L, m) && n <= m
    ensures Periodic(x, L, n)
  {
  }

  /** A periodic start of the output is a start of the input. */
  lemma {:induction false} PeriodicIsCopied(s: string, L: nat, t: nat, i: nat, m: nat)
    requires L > 0 && t >= 1 && i <= |s| && Periodic(Pass(s, L, t, i), L, m)
    ensures i + m <= |s| && forall k :: 0 <= k < m ==> Pass(s, L, t, i)[k] == s[i + k]
    decreases |s| - i
  {
    hide Collapses, Periodic, RunEnd, Copies;
    PassPrefix(s, L, t, i);
    PeriodicFits(s, L, t, i, m);
    if i + L <= |s| && m > L {
      if Collapses(s, L, t, i) {
        CopiedCollapse(s, L, t, i, m);
      } else {
        PeriodicTail(s[i], Pass(s, L, t, i + 1), L, m);
        PeriodicIsCopied(s, L, t, i + 1, m - 1);
        forall k | 0 <= k < m ensures Pass(s, L, t, i)[k] == s[i + k] {
          assert k > 0 ==> Pass(s, L, t, i)[k] == Pass(s, L, t, i + 1)[k - 1] == s[i + 1 + (k - 1)];
        }
      }
    }
  }

  lemma PeriodicFits(s: string, L: nat, t: nat, i: nat, m: nat)
    requires L > 0 && i <= |s| && Periodic(Pass(s, L, t, i), L, m)
    ensures m <= |Pass(s, L, t, i)|
  {
  }

  lemma PeriodicTail(c: char, x: string, L: nat, m: nat)
    requires m > 0 && Periodic([c] + x, L, m)
    ensures Periodic(x, L, m - 1)
  {
    assert forall k :: 0 <= k < |x| ==> x[k] == ([c] + x)[k + 1];
  }

  lemma CopiedCollapse(s: string, L: nat, t: nat, i: nat, m: nat)
    requires L > 0 && t >= 1 && i + L <= |s| && Collapses(s, L, t, i) && m > L
    requires Periodic(Pass(s, L, t, i), L, m)
    ensures i + m <= |s| && forall k :: 0 <= k < m ==> Pass(s, L, t, i)[k] == s[i + k]
  {
    hide Collapses, Pass;
    var out := Pass(s, L, t, i);
    PassPrefix(s, L, t, i);
    Shorter(out, L, m, Min(m, 2 * L));
    CollapseBreaksPeriod(s, L, t, i);
    SecondCopy(s, L, t, i);
    forall k | L <= k < m ensures out[k] == s[i + k] {
      assert out[k - L] == out[k - L + L] && out[k - L] == s[i + (k - L)];
      assert s[i + k] == s[i + k - L];
    }
  }

  /** A collapsed unit occurs at least twice. */
  lemma SecondCopy(s: string, L: nat, t: nat, i: nat)
    requires L > 0 && t >= 1 && Collapses(s, L, t, i)
    ensures i + 2 * L <= |s| && forall k :: i + L <= k < i + 2 * L ==> s[k] == s[k - L]
  {
    var unit := s[i..i + L];
    assert Copies(s, unit, i) == 1 + Copies(s, unit, i + L);
    assert Occurs(s, unit, i + L);
    forall k | i + L <= k < i + 2 * L ensures s[k] == s[k - L] {
      assert s[i + L..i + L + L][k - i - L] == unit[k - i - L];
    }
  }

  /** A periodic stretch of n units holds n copies of its first unit. */
  lemma {:induction false} PeriodicHasCopies(s: string, L: nat, i: nat, j: nat, n: nat)
    requires L > 0 && n > 0 && j + n * L <= |s| && i + L <= |s|
    requires s[j..j + L] == s[i..i + L]
    requires forall k :: j <= k < j + n * L - L ==> s[k] == s[k + L]
    ensures Copies(s, s[i..i + L], j) >= n
    decreases n
  {
    Distribute(n - 1, 1, L);
    if n > 1 {
      Distribute(n - 2, 1, L);
      assert s[j + L..j + L + L] == s[j..j + L];
      PeriodicHasCopies(s, L, i, j + L, n - 1);
    }
  }

  /** Where the output starts with threshold + 1 copies, the pass would have collapsed them. */
  lemma PeriodicCollapses(s: string, L: nat, t: nat, i: nat)
    requires L > 0 && t >= 1 && i <= |s| && Periodic(Pass(s, L, t, i), L, (t + 1) * L)
    ensures Collapses(s, L, t, i)
  {
    Distribute(t, 1, L);
    Distribute(t - 1, 1, L);
    var m := (t + 1) * L;
    PeriodicIsCopied(s, L, t, i, m);
    forall k | i <= k < i + m - L ensures s[k] == s[k + L] {
      assert Pass(s, L, t, i)[k - i] == s[k] && Pass(s, L, t, i)[k - i + L] == s[k + L];
    }
    PeriodicHasCopies(s, L, i, i, t + 1);
  }

  /** So the output nowhere starts with threshold + 1 copies: they would collapse, and then break off. */
  lemma NoLongStart(s: string, L: nat, t: nat, i: nat)
    requires L > 0 && t >= 1 && i <= |s|
    ensures !Periodic(Pass(s, L, t, i), L, (t + 1) * L)
  {
    hide Pass, Collapses, Periodic;
    Distribute(t - 1, 2, L);
    if Periodic(Pass(s, L, t, i), L, (t + 1) * L) {
      Shorter(Pass(s, L, t, i), L, (t + 1) * L, 2 * L);
      PeriodicCollapses(s, L, t, i);
      CollapseBreaksPeriod(s, L, t, i);
    }
  }

  /** A run that begins inside a collapsed unit leaves a shorter one at the start of what follows. */
  lemma RunBehindUnit(unit: string, rest: string, L: nat, n: nat, p: nat)
    requires |unit| == L && p < L && n >= 1 && Repeats(unit + rest, p, L, n + 1)
    ensures Periodic(rest, L, n * L)
  {
    Distribute(n, 1, L);
    var out, m := unit + rest, n * L;
    assert |rest| >= m;
    forall k | 0 <= k < m - L ensures rest[k] == rest[k + L] {
      assert rest[k] == out[p..][k + L - p] && rest[k + L] == out[p..][k + L - p + L];
    }
  }

  /** One pass leaves no unit of its length threshold + 2 times in a row, anywhere, whatever the text. */
  lemma {:induction false} PassBound(s: string, L: nat, t: nat, i: nat, p: nat)
    requires L > 0 && t >= 1 && i <= |s|
    ensures !Repeats(Pass(s, L, t, i), p, L, t + 2)
    decreases |s| - i
  {
    hide Collapses, RunEnd, Copies, Periodic;
    var out := Pass(s, L, t, i);
    if Repeats(out, p, L, t + 2) {
      if p == 0 {
        Distribute(t + 1, 1, L);
        assert out[0..] == out;
        Shorter(out, L, (t + 2) * L, (t + 1) * L);
        NoLongStart(s, L, t, i);
      } else if i + L > |s| {
        TooShort(out, p, L, t);
      } else if !Collapses(s, L, t, i) {
        assert out[p..] == Pass(s, L, t, i + 1)[p - 1..];
        PassBound(s, L, t, i + 1, p - 1);
      } else {
        var unit := s[i..i + L];
        var j := RunEnd(s, unit, i);
        RunAdvances(s, L, t, i);
        if p >= L {
          assert out[p..] == Pass(s, L, t, j)[p - L..];
          PassBound(s, L, t, j, p - L);
        } else {
          RunBehindUnit(unit, Pass(s, L, t, j), L, t + 1, p);
          NoLongStart(s, L, t, j);
        }
      }
    }
  }

  lemma TooShort(x: string, p: nat, L: nat, t: nat)
    requires L > 0 && |x| < L
    ensures !Repeats(x, p, L, t + 2)
  {
    Distribute(t + 1, 1, L);
  }

  lemma RunAdvances(s: string, L: nat, t: nat, i: nat)
    requires L > 0 && i + L <= |s| && Collapses(s, L, t, i)
    ensures i + L <= RunEnd(s, s[i..i + L], i)
    ensures t >= 1 ==> i + 2 * L <= RunEnd(s, s[i..i + L], i)
  {
  }

  /** The bound holds of the final text for the longest unit tried, whose pass runs last. */
  lemma {:induction false} FixedBound(text: string, t: nat, p: nat)
    requires t >= 1 && |text| > t
    ensures !Repeats(Fixed(text, t), p, MaxUnit(|text|, t), t + 2)
  {
    LastPassBound(text, t, 1, MaxUnit(|text|, t), p);
  }

  lemma {:induction false} LastPassBound(s: string, t: nat, L: nat, maxUnit: nat, p: nat)
    requires t >= 1 && 0 < L <= maxUnit
    ensures !Repeats(Passes(s, t, L, maxUnit), p, maxUnit, t + 2)
    decreases maxUnit - L
  {
    if L < maxUnit {
      LastPassBound(Pass(s, L, t, 0), t, L + 1, maxUnit, p);
    } else {
      PassBound(s, L, t, 0, p);
    }
  }

  // ----- Nothing is invented: the result is a subsequence of the text

  ghost predicate Subsequence(a: string, b: string) {
    if a == [] then true
    else if b == [] then false
    else (a[0] == b[0] && Subsequence(a[1..], b[1..])) || Subsequence(a, b[1..])
  }

  lemma {:induction false} SubsequenceSkip(a: string, x: string, b: string)
    requires Subsequence(a, b)
    ensures Subsequence(a, x + b)
  {
    if x == [] {
      assert x + b == b;
    } else {
      assert (x + b)[1..] == x[1..] + b;
      SubsequenceSkip(a, x[1..], b);
    }
  }

  lemma {:induction false} SubsequenceBehind(x: string, a: string, b: string)
    requires Subsequence(a, b)
    ensures Subsequence(x + a, x + b)
  {
    if x == [] {
      assert x + a == a && x + b == b;
    } else {
      assert (x + a)[1..] == x[1..] + a && (x + b)[1..] == x[1..] + b;
      SubsequenceBehind(x[1..], a, b);
    }
  }

  lemma {:induction false} SubsequenceTransitive(a: string, b: string, c: string)
    requires Subsequence(a, b) && Subsequence(b, c)
    ensures Subsequence(a, c)
    decreases |c|
  {
    if a != [] {
      if Subsequence(b, c[1..]) {
        SubsequenceTransitive(a, b, c[1..]);
      } else if a[0] == b[0] && Subsequence(a[1..], b[1..]) {
        SubsequenceTransitive(a[1..], b[1..], c[1..]);
      } else {
        SubsequenceTransitive(a, b[1..], c[1..]);
      }
    }
  }

  lemma {:induction false} PassIsSubsequence(s: string, L: nat, t: nat, i: nat)
    requires L > 0 && i <= |s|
    ensures Subsequence(Pass(s, L, t, i), s[i..])
    decreases |s| - i
  {
    hide RunEnd, Copies, Subsequence;
    if i + L > |s| {
      Reflexive(s[i..]);
    } else if Collapses(s, L, t, i) {
      var unit := s[i..i + L];
      var j := RunEnd(s, unit, i);
      RunAdvances(s, L, t, i);
      PassIsSubsequence(s, L, t, j);
      SubsequenceSkip(Pass(s, L, t, j), s[i + L..j], s[j..]);
      assert s[i + L..j] + s[j..] == s[i + L..] && unit + s[i + L..] == s[i..];
      SubsequenceBehind(unit, Pass(s, L, t, j), s[i + L..]);
    } else {
      PassIsSubsequence(s, L, t, i + 1);
      SubsequenceBehind([s[i]], Pass(s, L, t, i + 1), s[i + 1..]);
      assert [s[i]] + s[i + 1..] == s[i..];
    }
  }

  lemma {:induction false} Reflexive(s: string)
    ensures Subsequence(s, s)
  {
    if s != [] {
      Reflexive(s[1..]);
    }
  }

  lemma {:induction false} PassesAreSubsequence(s: string, t: nat, L: nat, maxUnit: nat)
    requires L > 0
    ensures Subsequence(Passes(s, t, L, maxUnit), s)
    decreases maxUnit + 1 - L
  {
    if L > maxUnit {
      Reflexive(s);
    } else {
      var out := Pass(s, L, t, 0);
      PassIsSubsequence(s, L, t, 0);
      assert s[0..] == s;
      PassesAreSubsequence(out, t, L + 1, maxUnit);
      SubsequenceTransitive(Passes(out, t, L + 1, maxUnit), out, s);
    }
  }

  lemma FixedIsSubsequence(text: string, t: nat)
    ensures Subsequence(Fixed(text, t), text)
  {
    if |text| <= t {
      Reflexive(text);
    } else {
      PassesAreSubsequence(text, t, 1, MaxUnit(|text|, t));
    }
  }

  // ----- Normal text is untouched, and only normal text is

  /** Some unit of length L occurs more than t times in a row. */
  ghost predicate Loops(s: string, L: nat, t: nat)
    requires L > 0
  {
    exists i: nat :: Collapses(s, L, t, i)
  }

  lemma {:induction false} PassLength(s: string, L: nat, t: nat, i: nat)
    requires L > 0 && t >= 1 && i <= |s|
    ensures |Pass(s, L, t, i)| <= |s| - i
    ensures (exists k: nat :: k >= i && Collapses(s, L, t, k)) ==> |Pass(s, L, t, i)| < |s| - i
    ensures (forall k: nat :: k >= i ==> !Collapses(s, L, t, k)) ==> Pass(s, L, t, i) == s[i..]
    decreases |s| - i
  {
    hide RunEnd, Copies;
    if i + L > |s| {
    } else if Collapses(s, L, t, i) {
      RunAdvances(s, L, t, i);
      PassLength(s, L, t, RunEnd(s, s[i..i + L], i));
    } else {
      PassLength(s, L, t, i + 1);
    }
  }

  lemma {:induction false} PassesLength(s: string, t: nat, L: nat, maxUnit: nat)
    requires L > 0 && t >= 1
    ensures |Passes(s, t, L, maxUnit)| <= |s|
    ensures Passes(s, t, L, maxUnit) == s <==> forall k: nat :: L <= k <= maxUnit ==> !Loops(s, k, t)
    decreases maxUnit + 1 - L
  {
    if L <= maxUnit {
      var out := Pass(s, L, t, 0);
      PassLength(s, L, t, 0);
      PassesLength(out, t, L + 1, maxUnit);
      assert s[0..] == s;
      if Loops(s, L, t) {
        assert |out| < |s|;
      } else {
        assert out == s;
      }
    }
  }

  /** A loop of more than t units of length L needs a text that MaxUnit allows for. */
  lemma LoopFits(s: string, L: nat, t: nat)
    requires L > 0 && Loops(s, L, t)
    ensures |s| > t && L <= |s| / (t + 1)
  {
    hide Copies;
    var i: nat :| Collapses(s, L, t, i);
    CopiesFit(s, s[i..i + L], i);
    EnoughRoom(|s|, Copies(s, s[i..i + L], i), t + 1, L);
    QuotientBound(|s|, t + 1, L);
  }

  lemma EnoughRoom(n: nat, copies: nat, needed: nat, L: nat)
    requires copies >= needed && copies * L <= n && L > 0
    ensures needed * L <= n && needed <= n
  {
    Distribute(needed, copies - needed, L);
    Distribute(1, L - 1, needed);
  }

  lemma {:induction false} CopiesFit(s: string, unit: string, j: nat)
    requires unit != [] && j <= |s|
    ensures j + Copies(s, unit, j) * |unit| <= |s|
    decreases |s| - j
  {
    if Occurs(s, unit, j) {
      CopiesFit(s, unit, j + |unit|);
      Distribute(1, Copies(s, unit, j + |unit|), |unit|);
    }
  }

  lemma QuotientBound(n: nat, d: nat, q: nat)
    requires d > 0 && (d * q <= n)
    ensures q <= n / d
  {
    var e := n / d;
    if q > e {
      assert n == e * d + n % d;
      Distribute(e + 1, q - (e + 1), d);
      Distribute(e, 1, d);
    }
  }

  /** The text comes back unchanged exactly when no unit of up to 16 characters loops. */
  lemma FixedUnchanged(text: string, t: nat)
    requires t >= 1
    ensures Fixed(text, t) == text <==> forall L: nat :: 1 <= L <= 16 ==> !Loops(text, L, t)
  {
    forall L: nat | 1 <= L <= 16 && Loops(text, L, t)
      ensures |text| > t && L <= MaxUnit(|text|, t)
    {
      LoopFits(text, L, t);
    }
    if |text| > t {
      PassesLength(text, t, 1, MaxUnit(|text|, t));
    }
  }
}
