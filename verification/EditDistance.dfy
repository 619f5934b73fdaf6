/**
 The character error rate's edit distance (scripts/bench_asr_vllm.py, _edit_distance): a
 dynamic programme over two rolling rows, proved to be the length of a shortest edit script.
 */
module EditDistance {
  import opened Basics

  // ----- The rolling rows

  /** Distance of two strings by their last characters: the recurrence behind the rows. */
  function Distance(a: string, b: string): nat
    decreases |a| + |b|
  {
    if a == [] then |b|
    else if b == [] then |a|
    else
      var a', b' := a[..|a| - 1], b[..|b| - 1];
      Min3(Distance(a, b') + 1, Distance(a', b) + 1, Distance(a', b') + if a[|a| - 1] == b[|b| - 1] then 0 else 1)
  }

  function Min3(x: nat, y: nat, z: nat): nat { if x <= y && x <= z then x else if y <= z then y else z }

  /** The row for a prefix of a: its distances to every prefix of b up to the n-th. */
  ghost predicate IsRow(row: seq<nat>, a: string, b: string, n: nat)
    requires n <= |b|
  {
    |row| == n + 1 && forall j :: 0 <= j <= n ==> row[j] == Distance(a, b[..j])
  }

  method ComputeDistance(a: string, b: string) returns (d: nat)
    ensures d == Distance(a, b)
  {
    if a == b {
      SameIsZero(a);
      return 0;
    }
    if |a| == 0 {
      return |b|;
    }
    if |b| == 0 {
      return |a|;
    }
    var prev: seq<nat> := seq(|b| + 1, j requires 0 <= j => j);
    var i := 0;
    while i < |a|
      invariant 0 <= i <= |a| && IsRow(prev, a[..i], b, |b|)
    {
      assert a[..i + 1] == a[..i] + [a[i]];
      prev := NextRow(prev, a[..i], a[i], b, i + 1);
      i := i + 1;
    }
    assert a[..i] == a && b[..|b|] == b;
    d := prev[|prev| - 1];
  }

  /** The inner loop: the row for one more character of a. */
  method NextRow(prev: seq<nat>, a: string, ca: char, b: string, i: nat) returns (cur: seq<nat>)
    requires IsRow(prev, a, b, |b|) && i == |a| + 1
    ensures IsRow(cur, a + [ca], b, |b|)
  {
    hide Distance;
    cur := [i];
    DistanceEmpty(a + [ca]);
    assert b[..0] == [];
    var j := 0;
    while j < |b|
      invariant 0 <= j <= |b| && IsRow(cur, a + [ca], b, j)
    {
      Steps(a, ca, b[..j], b[j]);
      assert b[..j + 1] == b[..j] + [b[j]];
      var cost := if ca == b[j] then 0 else 1;
      cur := cur + [Min3(prev[j + 1] + 1, cur[j] + 1, prev[j] + cost)];
      j := j + 1;
    }
  }

  lemma {:induction false} SameIsZero(a: string)
    ensures Distance(a, a) == 0
  {
    if a != [] {
      SameIsZero(a[..|a| - 1]);
    }
  }

  // ----- Edit scripts

  datatype Edit = Insert(at: nat, c: char) | Delete(at: nat) | Substitute(at: nat, c: char)

  function Apply(e: Edit, s: string): Option<string> {
    match e
    case Insert(at, c) => if at <= |s| then Some(s[..at] + [c] + s[at..]) else None
    case Delete(at) => if at < |s| then Some(s[..at] + s[at + 1..]) else None
    case Substitute(at, c) => if at < |s| then Some(s[at := c]) else None
  }

  /** A script's edits one after the other; an edit out of range spoils the script. */
  function Run(script: seq<Edit>, s: string): Option<string> {
    if script == [] then Some(s)
    else
      match Apply(script[0], s)
      case None => None
      case Some(t) => Run(script[1..], t)
  }

  lemma {:induction false} RunAppend(x: seq<Edit>, y: seq<Edit>, s: string)
    ensures Run(x + y, s) == match Run(x, s) case None => None case Some(t) => Run(y, t)
  {
    if x == [] {
      assert x + y == y;
    } else {
      assert (x + y)[1..] == x[1..] + y;
      match Apply(x[0], s) {
        case None =>
        case Some(t) => RunAppend(x[1..], y, t);
      }
    }
  }

  // ----- No script is shorter

  lemma DistanceEmpty(s: string)
    ensures Distance(s, []) == |s| && Distance([], s) == |s|
  {
  }

  /** The recurrence, read as three upper bounds. */
  lemma Steps(a: string, c: char, b: string, d: char)
    ensures Distance(a + [c], b + [d])
         == Min3(Distance(a + [c], b) + 1, Distance(a, b + [d]) + 1, Distance(a, b) + if c == d then 0 else 1)
    ensures Distance(a + [c], b) <= Distance(a, b) + 1 && Distance(a, b + [d]) <= Distance(a, b) + 1
  {
    assert (a + [c])[..|a|] == a && (b + [d])[..|b|] == b;
    DistanceEmpty(a);
    DistanceEmpty(b);
  }

  /** Whatever the goal, x is at most one edit further from it than y. */
  ghost predicate Near(x: string, y: string) {
    forall b :: Distance(x, b) <= Distance(y, b) + 1
  }

  lemma {:induction false} LongerIsNear(a: string, c: char, b: string)
    ensures Distance(a + [c], b) <= Distance(a, b) + 1
    ensures Distance(a, b) <= Distance(a + [c], b) + 1
    decreases |b|
  {
    hide Distance;
    if b == [] {
      DistanceEmpty(a);
      DistanceEmpty(a + [c]);
    } else {
      var b', d := b[..|b| - 1], b[|b| - 1];
      assert b == b' + [d];
      LongerIsNear(a, c, b');
      Steps(a, c, b', d);
      Steps(a, c, b, d);
    }
  }

  lemma {:induction false} OtherEndIsNear(a: string, c: char, c': char, b: string)
    ensures Distance(a + [c], b) <= Distance(a + [c'], b) + 1
    decreases |b|
  {
    hide Distance;
    if b == [] {
      DistanceEmpty(a + [c]);
      DistanceEmpty(a + [c']);
    } else {
      var b', d := b[..|b| - 1], b[|b| - 1];
      assert b == b' + [d];
      OtherEndIsNear(a, c, c', b');
      Steps(a, c, b', d);
      Steps(a, c', b', d);
    }
  }

  /** Nearness survives a common last character. */
  lemma {:induction false} NearExtends(x: string, y: string, c: char, b: string)
    requires Near(x, y)
    ensures Distance(x + [c], b) <= Distance(y + [c], b) + 1
    decreases |b|
  {
    hide Distance;
    if b == [] {
      assert Distance(x, b) <= Distance(y, b) + 1;
      DistanceEmpty(x);
      DistanceEmpty(y);
      DistanceEmpty(x + [c]);
      DistanceEmpty(y + [c]);
    } else {
      var b', d := b[..|b| - 1], b[|b| - 1];
      assert b == b' + [d];
      NearExtends(x, y, c, b');
      Steps(x, c, b', d);
      Steps(y, c, b', d);
      assert Distance(x, b) <= Distance(y, b) + 1 && Distance(x, b') <= Distance(y, b') + 1;
    }
  }

  lemma {:induction false} NearAppends(x: string, y: string, u: string)
    requires Near(x, y)
    ensures Near(x + u, y + u)
    decreases |u|
  {
    if u == [] {
      assert x + u == x && y + u == y;
    } else {
      var c, rest := u[0], u[1..];
      forall b ensures Distance(x + [c], b) <= Distance(y + [c], b) + 1 {
        NearExtends(x, y, c, b);
      }
      NearAppends(x + [c], y + [c], rest);
      assert x + u == (x + [c]) + rest && y + u == (y + [c]) + rest;
    }
  }

  /** One edit, anywhere in the string, brings any goal at most one closer. */
  lemma EditIsNear(e: Edit, s: string, t: string)
    requires Apply(e, s) == Some(t)
    ensures Near(s, t)
  {
    match e {
      case Insert(at, c) =>
        var p, q := s[..at], s[at..];
        forall b ensures Distance(p, b) <= Distance(p + [c], b) + 1 {
          LongerIsNear(p, c, b);
        }
        NearAppends(p, p + [c], q);
        assert s == p + q && t == (p + [c]) + q;
      case Delete(at) =>
        var p, q, c := s[..at], s[at + 1..], s[at];
        forall b ensures Distance(p + [c], b) <= Distance(p, b) + 1 {
          LongerIsNear(p, c, b);
        }
        NearAppends(p + [c], p, q);
        assert s == (p + [c]) + q && t == p + q;
      case Substitute(at, c') =>
        var p, q, c := s[..at], s[at + 1..], s[at];
        forall b ensures Distance(p + [c], b) <= Distance(p + [c'], b) + 1 {
          OtherEndIsNear(p, c, c', b);
        }
        NearAppends(p + [c], p + [c'], q);
        assert s == (p + [c]) + q && t == (p + [c']) + q;
    }
  }

  /** Every script from a to b has at least Distance(a, b) edits. */
  lemma {:induction false} NoScriptIsShorter(script: seq<Edit>, a: string, b: string)
    requires Run(script, a) == Some(b)
    ensures Distance(a, b) <= |script|
    decreases |script|
  {
    if script == [] {
      SameIsZero(a);
    } else {
      var t := Apply(script[0], a).value;
      EditIsNear(script[0], a, t);
      NoScriptIsShorter(script[1..], t, b);
    }
  }

  // ----- A script of that length

  /** A script that works on a string works in front of one more character. */
  lemma {:induction false} RunBeforeLast(script: seq<Edit>, s: string, t: string, c: char)
    requires Run(script, s) == Some(t)
    ensures Run(script, s + [c]) == Some(t + [c])
    decreases |script|
  {
    if script != [] {
      var u := Apply(script[0], s).value;
      ApplyBeforeLast(script[0], s, u, c);
      RunBeforeLast(script[1..], u, t, c);
    }
  }

  lemma ApplyBeforeLast(e: Edit, s: string, u: string, c: char)
    requires Apply(e, s) == Some(u)
    ensures Apply(e, s + [c]) == Some(u + [c])
  {
    if e.Insert? {
      assert (s + [c])[..e.at] + [e.c] + (s + [c])[e.at..] == u + [c];
    } else if e.Delete? {
      assert (s + [c])[..e.at] + (s + [c])[e.at + 1..] == u + [c];
    } else {
      assert (s + [c])[e.at := e.c] == u + [c];
    }
  }

  /** Some script from a to b has exactly Distance(a, b) edits. */
  lemma {:induction false} ShortestScript(a: string, b: string) returns (script: seq<Edit>)
    ensures Run(script, a) == Some(b) && |script| == Distance(a, b)
    decreases |a| + |b|
  {
    if a == [] && b == [] {
      return [];
    }
    if a != [] && (b == [] || Distance(a, b) == Distance(a[..|a| - 1], b) + 1) {
      var a', last := a[..|a| - 1], |a| - 1;
      var rest := ShortestScript(a', b);
      DistanceEmpty(a);
      DistanceEmpty(a');
      assert a[..last] + a[last + 1..] == a';
      assert ([Delete(last)] + rest)[1..] == rest;
      return [Delete(last)] + rest;
    }
    var b', d := b[..|b| - 1], b[|b| - 1];
    assert b == b' + [d];
    if a == [] || Distance(a, b) == Distance(a, b') + 1 {
      var init := ShortestScript(a, b');
      DistanceEmpty(b);
      DistanceEmpty(b');
      assert b'[..|b'|] + [d] + b'[|b'|..] == b;
      AppendEdit(init, Insert(|b'|, d), a, b', b);
      return init + [Insert(|b'|, d)];
    }
    var a', c := a[..|a| - 1], a[|a| - 1];
    assert a == a' + [c];
    script := ShortestScript(a', b');
    RunBeforeLast(script, a', b', c);
    if c != d {
      assert (b' + [c])[|b'| := d] == b;
      AppendEdit(script, Substitute(|b'|, d), a, b' + [c], b);
      script := script + [Substitute(|b'|, d)];
    }
  }

  lemma AppendEdit(script: seq<Edit>, e: Edit, a: string, t: string, b: string)
    requires Run(script, a) == Some(t) && Apply(e, t) == Some(b)
    ensures Run(script + [e], a) == Some(b)
  {
    RunAppend(script, [e], a);
    assert [e][1..] == [];
  }

  /** Distance(a, b) is the least number of insertions, deletions and substitutions that turn a into b. */
  lemma DistanceIsLeast(a: string, b: string)
    ensures exists script :: Run(script, a) == Some(b) && |script| == Distance(a, b)
    ensures forall script :: Run(script, a) == Some(b) ==> Distance(a, b) <= |script|
  {
    var shortest := ShortestScript(a, b);
    forall script | Run(script, a) == Some(b) ensures Distance(a, b) <= |script| {
      NoScriptIsShorter(script, a, b);
    }
  }

  // ----- A metric

  lemma {:induction false} Symmetric(a: string, b: string)
    ensures Distance(a, b) == Distance(b, a)
    decreases |a| + |b|
  {
    if a != [] && b != [] {
      Symmetric(a[..|a| - 1], b);
      Symmetric(a, b[..|b| - 1]);
      Symmetric(a[..|a| - 1], b[..|b| - 1]);
    }
  }

  lemma Triangle(a: string, b: string, c: string)
    ensures Distance(a, c) <= Distance(a, b) + Distance(b, c)
  {
    var x := ShortestScript(a, b);
    var y := ShortestScript(b, c);
    RunAppend(x, y, a);
    NoScriptIsShorter(x + y, a, c);
  }

  lemma ZeroOnlyForEqual(a: string, b: string)
    ensures Distance(a, b) == 0 <==> a == b
  {
    SameIsZero(a);
    var script := ShortestScript(a, b);
  }
}
