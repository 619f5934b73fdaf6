/**
 To whom an instant is attributed before absorption, and why the order in which the sidecar
 reports its turns does not matter (backend/diarization/turns.py).
 */
module TurnAttribution {
  import opened Basics
  import opened Turns
  import opened TurnProperties

  // ----- Attribution of an instant

  predicate Active(t: SpeakerTurn, now: int) { t.startMs <= now < t.endMs }

  /** How many of a speaker's turns are active at an instant. */
  function Multiplicity(turns: seq<SpeakerTurn>, speaker: int, now: int): nat {
    if turns == [] then 0
    else
      var last := turns[|turns| - 1];
      Multiplicity(turns[..|turns| - 1], speaker, now)
      + if last.speakerIndex == speaker && Active(last, now) then 1 else 0
  }

  predicate KnownSpeaker(speaker: int) { 0 <= speaker < MAX_SPEAKERS }

  ghost predicate SomeoneActive(turns: seq<SpeakerTurn>, now: int) {
    exists t :: t in turns && KnownSpeaker(t.speakerIndex) && Active(t, now)
  }

  /**
   Speaker p is active at the instant, with at least as many turns as anyone, on a tie with at
   least the occupancy, and on a further tie with the lowest index.
   */
  ghost predicate MostPresent(turns: seq<SpeakerTurn>, occupancy: map<int, int>, now: int, p: int) {
    && KnownSpeaker(p) && Multiplicity(turns, p, now) > 0
    && forall q | KnownSpeaker(q) :: q != p ==>
         var mp, mq := Multiplicity(turns, p, now), Multiplicity(turns, q, now);
         mp > mq || (mp == mq && (Get(occupancy, p) > Get(occupancy, q) || (Get(occupancy, p) == Get(occupancy, q) && p < q)))
  }

  lemma MultiplicitySnoc(turns: seq<SpeakerTurn>, t: SpeakerTurn, speaker: int, now: int)
    ensures Multiplicity(turns + [t], speaker, now)
         == Multiplicity(turns, speaker, now) + if t.speakerIndex == speaker && Active(t, now) then 1 else 0
  {
    assert (turns + [t])[..|turns|] == turns;
  }

  /** Within the segment, clipping does not change who is active. */
  lemma {:induction false} ClipKeepsActivity(turns: seq<SpeakerTurn>, segStart: int, segEnd: int, speaker: int, now: int)
    requires segStart <= now < segEnd
    ensures Multiplicity(Clip(turns, segStart, segEnd), speaker, now)
         == if KnownSpeaker(speaker) then Multiplicity(turns, speaker, now) else 0
  {
    if turns != [] {
      var init, last := turns[..|turns| - 1], turns[|turns| - 1];
      var clipped, c := Clip(init, segStart, segEnd), ClipTurn(last, segStart, segEnd);
      assert Clip(turns, segStart, segEnd) == clipped + if Relevant(last, segStart, segEnd) then [c] else [];
      assert Multiplicity(turns, speaker, now)
          == Multiplicity(init, speaker, now) + if last.speakerIndex == speaker && Active(last, now) then 1 else 0;
      hide Clip, Multiplicity;
      ClipKeepsActivity(init, segStart, segEnd, speaker, now);
      MultiplicitySnoc(clipped, c, speaker, now);
      assert clipped + [] == clipped;
    }
  }

  /** The turns a speaker is active in, added up over the instants of [lo, hi). */
  function Presence(turns: seq<SpeakerTurn>, speaker: int, lo: int, hi: int): nat
    requires lo <= hi
    decreases hi - lo
  {
    if lo == hi then 0 else Presence(turns, speaker, lo, hi - 1) + Multiplicity(turns, speaker, hi - 1)
  }

  lemma {:induction false} PresenceSnoc(turns: seq<SpeakerTurn>, t: SpeakerTurn, speaker: int, lo: int, hi: int)
    requires lo <= hi
    ensures Presence(turns + [t], speaker, lo, hi)
         == Presence(turns, speaker, lo, hi)
            + if t.speakerIndex == speaker then Overlap(t, lo, hi) else 0
    decreases hi - lo
  {
    if lo < hi {
      PresenceSnoc(turns, t, speaker, lo, hi - 1);
      MultiplicitySnoc(turns, t, speaker, hi - 1);
    }
  }

  lemma {:induction false} NobodyPresent(speaker: int, lo: int, hi: int)
    requires lo <= hi
    ensures Presence([], speaker, lo, hi) == 0
    decreases hi - lo
  {
    if lo < hi {
      NobodyPresent(speaker, lo, hi - 1);
    }
  }

  /** Occupancy is the time a speaker is present in the segment, counted by instants. */
  lemma {:induction false} OccupancyIsPresence(turns: seq<SpeakerTurn>, speaker: int, lo: int, hi: int)
    requires lo <= hi && forall t <- turns :: lo <= t.startMs <= t.endMs <= hi
    ensures Occupancy(turns, speaker) == Presence(turns, speaker, lo, hi)
  {
    if turns == [] {
      NobodyPresent(speaker, lo, hi);
    } else {
      var init, last := turns[..|turns| - 1], turns[|turns| - 1];
      assert turns == init + [last] && last in turns;
      OccupancyIsPresence(init, speaker, lo, hi);
      PresenceSnoc(init, last, speaker, lo, hi);
    }
  }

  /** No turn starts or ends strictly inside [a, b). */
  ghost predicate Elementary(turns: seq<SpeakerTurn>, a: int, b: int) {
    forall t <- turns :: (t.startMs <= a || b <= t.startMs) && (t.endMs <= a || b <= t.endMs)
  }

  /** On an interval without boundaries inside, overlap is multiplicity times length. */
  lemma {:induction false} OverlapIsMultiplicity(turns: seq<SpeakerTurn>, speaker: int, a: int, b: int, now: int)
    requires a <= now < b && Elementary(turns, a, b)
    ensures OverlapOf(turns, speaker, a, b) == Multiplicity(turns, speaker, now) * (b - a)
  {
    if turns != [] {
      var init, last := turns[..|turns| - 1], turns[|turns| - 1];
      assert last in turns;
      OverlapIsMultiplicity(init, speaker, a, b, now);
      assert Overlap(last, a, b) == if Active(last, now) then b - a else 0;
      Distribute(Multiplicity(init, speaker, now), 1, b - a);
    }
  }

  lemma {:induction false} MultiplicityHasTurn(turns: seq<SpeakerTurn>, speaker: int, now: int)
    ensures Multiplicity(turns, speaker, now) > 0 <==>
            exists t :: t in turns && t.speakerIndex == speaker && Active(t, now)
  {
    if turns != [] {
      var last := |turns| - 1;
      MultiplicityHasTurn(turns[..last], speaker, now);
      assert turns == turns[..last] + [turns[last]];
    }
  }

  lemma ScaleOrder(m: nat, n: nat, len: int)
    requires len > 0
    ensures m * len > n * len <==> m > n
    ensures m * len == n * len <==> m == n
  {
    if m > n {
      Distribute(n, m - n, len);
      Distribute(1, m - n - 1, len);
    } else if n > m {
      Distribute(m, n - m, len);
      Distribute(1, n - m - 1, len);
    }
  }

  /** The dominant speaker of a boundary interval is the most present one at each of its instants. */
  lemma DominantIsMostPresent(clipped: seq<SpeakerTurn>, occupancy: map<int, int>, a: int, b: int, now: int, p: int)
    requires a <= now < b && Elementary(clipped, a, b) && IsDominant(clipped, occupancy, a, b, p)
    requires forall t <- clipped :: KnownSpeaker(t.speakerIndex)
    ensures MostPresent(clipped, occupancy, now, p)
  {
    OverlapIsMultiplicity(clipped, p, a, b, now);
    MultiplicityHasTurn(clipped, p, now);
    ScaleOrder(Multiplicity(clipped, p, now), 0, b - a);
    forall q | KnownSpeaker(q) && q != p
      ensures
        var mp, mq := Multiplicity(clipped, p, now), Multiplicity(clipped, q, now);
        mp > mq || (mp == mq && (Get(occupancy, p) > Get(occupancy, q) || (Get(occupancy, p) == Get(occupancy, q) && p < q)))
    {
      OverlapIsMultiplicity(clipped, q, a, b, now);
      ScaleOrder(Multiplicity(clipped, p, now), Multiplicity(clipped, q, now), b - a);
      ScaleOrder(Multiplicity(clipped, q, now), 0, b - a);
    }
  }

  /** An instant lies in exactly one piece of a tiling, and belongs to its speaker. */
  lemma {:induction false} PieceAt(pieces: seq<SpeakerTurn>, lo: int, hi: int, now: int) returns (i: nat)
    requires Tiles(pieces, lo, hi) && lo <= now < hi
    ensures i < |pieces| && pieces[i].startMs <= now < pieces[i].endMs
    ensures SpeakerAt(pieces, now) == Some(pieces[i].speakerIndex)
    decreases |pieces|
  {
    i := |pieces| - 1;
    if now < pieces[i].startMs {
      i := PieceAt(pieces[..|pieces| - 1], lo, pieces[i].startMs, now);
    }
  }

  /** Consecutive boundaries have no boundary between them. */
  lemma BoundsAreElementary(clipped: seq<SpeakerTurn>, segStart: int, segEnd: int, i: nat)
    requires i + 1 < |Sorted(Boundaries(clipped, segStart, segEnd))|
    ensures
      var bounds := Sorted(Boundaries(clipped, segStart, segEnd));
      Elementary(clipped, bounds[i], bounds[i + 1])
  {
    hide Sorted;
    var bounds := Sorted(Boundaries(clipped, segStart, segEnd));
    forall t <- clipped
      ensures (t.startMs <= bounds[i] || bounds[i + 1] <= t.startMs) && (t.endMs <= bounds[i] || bounds[i + 1] <= t.endMs)
    {
      assert t.startMs in bounds && t.endMs in bounds;
    }
  }

  /**
   Before absorption, an instant of the segment at which somebody speaks is attributed to the most
   present speaker; any other to the speaker with the end of a turn nearest to the boundary interval around it.
   */
  lemma Attribution(turns: seq<SpeakerTurn>, segStart: int, segEnd: int, pieces: seq<SpeakerTurn>, now: int)
    requires segStart <= now < segEnd
    requires IsSweep(Clip(turns, segStart, segEnd), Sorted(Boundaries(Clip(turns, segStart, segEnd), segStart, segEnd)), pieces)
    ensures
      var clipped, who := Clip(turns, segStart, segEnd), SpeakerAt(Merged(pieces), now);
      && who.Some?
      && if SomeoneActive(turns, now) then MostPresent(turns, OccupancyMap(clipped), now, who.value)
         else exists p :: p in pieces && p.startMs <= now < p.endMs && HasClosestEnd(clipped, p.startMs, p.endMs, who.value)
  {
    hide IsDominant, IsNearest, HasClosestEnd, Sorted, Merged, MostPresent;
    var clipped := Clip(turns, segStart, segEnd);
    var bounds := Sorted(Boundaries(clipped, segStart, segEnd));
    BoundariesSpan(clipped, turns, segStart, segEnd);
    SweepShape(turns, segStart, segEnd, pieces);
    MergedKeeps(pieces, segStart, segEnd);
    var i := PieceAt(pieces, segStart, segEnd, now);
    var who := pieces[i].speakerIndex;
    BoundsAreElementary(clipped, segStart, segEnd, i);
    ClippedIsInside(turns, segStart, segEnd);
    CoveredWhenActive(turns, segStart, segEnd, bounds[i], bounds[i + 1], now);
    assert IsPiece(clipped, bounds[i], bounds[i + 1], pieces[i]);
    if SomeoneActive(turns, now) {
      DominantIsMostPresent(clipped, OccupancyMap(clipped), bounds[i], bounds[i + 1], now, who);
      MostPresentUnclipped(turns, segStart, segEnd, now, who);
    } else {
      NearestHasClosestEnd(clipped, bounds[i], bounds[i + 1], who);
      assert pieces[i] in pieces;
    }
  }

  /** A boundary interval shares time with a clipped turn exactly when a known speaker is active in it. */
  lemma CoveredWhenActive(turns: seq<SpeakerTurn>, segStart: int, segEnd: int, a: int, b: int, now: int)
    requires segStart <= now < segEnd && a <= now < b && Elementary(Clip(turns, segStart, segEnd), a, b)
    ensures Covered(Clip(turns, segStart, segEnd), a, b) <==> SomeoneActive(turns, now)
  {
    var clipped := Clip(turns, segStart, segEnd);
    ClippedIsInside(turns, segStart, segEnd);
    if Covered(clipped, a, b) {
      var t :| t in clipped && Overlap(t, a, b) > 0;
      MultiplicityHasTurn(clipped, t.speakerIndex, now);
      ClipKeepsActivity(turns, segStart, segEnd, t.speakerIndex, now);
      MultiplicityHasTurn(turns, t.speakerIndex, now);
    }
    if SomeoneActive(turns, now) {
      var t :| t in turns && KnownSpeaker(t.speakerIndex) && Active(t, now);
      MultiplicityHasTurn(turns, t.speakerIndex, now);
      ClipKeepsActivity(turns, segStart, segEnd, t.speakerIndex, now);
      MultiplicityHasTurn(clipped, t.speakerIndex, now);
    }
  }

  lemma MostPresentUnclipped(turns: seq<SpeakerTurn>, segStart: int, segEnd: int, now: int, p: int)
    requires segStart <= now < segEnd
    requires MostPresent(Clip(turns, segStart, segEnd), OccupancyMap(Clip(turns, segStart, segEnd)), now, p)
    ensures MostPresent(turns, OccupancyMap(Clip(turns, segStart, segEnd)), now, p)
  {
    forall q ensures Multiplicity(Clip(turns, segStart, segEnd), q, now)
                  == if KnownSpeaker(q) then Multiplicity(turns, q, now) else 0 {
      ClipKeepsActivity(turns, segStart, segEnd, q, now);
    }
  }

  // ----- The order of the turns does not matter

  function Without(turns: seq<SpeakerTurn>, i: nat): seq<SpeakerTurn>
    requires i < |turns|
  {
    turns[..i] + turns[i + 1..]
  }

  /** Taking out one turn takes out its share of every total. */
  lemma {:induction false} TotalsWithout(
    turns: seq<SpeakerTurn>, i: nat, s: int, a: int, b: int, segStart: int, segEnd: int)
    requires i < |turns|
    ensures OverlapOf(turns, s, a, b)
         == OverlapOf(Without(turns, i), s, a, b) + if turns[i].speakerIndex == s then Overlap(turns[i], a, b) else 0
    ensures Occupancy(turns, s)
         == Occupancy(Without(turns, i), s) + if turns[i].speakerIndex == s then turns[i].Duration() else 0
    ensures multiset(Clip(turns, segStart, segEnd))
         == multiset(Clip(Without(turns, i), segStart, segEnd)) + ClippedShare(turns[i], segStart, segEnd)
    decreases |turns|
  {
    hide OverlapOf, Occupancy, Clip, Overlap, ClippedShare;
    var n := |turns| - 1;
    var init, last := turns[..n], turns[n];
    assert turns == init + [last];
    TotalsSnoc(init, last, s, a, b, segStart, segEnd);
    if i == n {
      assert Without(turns, i) == init;
    } else {
      TotalsWithout(init, i, s, a, b, segStart, segEnd);
      assert init[i] == turns[i];
      assert Without(turns, i) == Without(init, i) + [last];
      TotalsSnoc(Without(init, i), last, s, a, b, segStart, segEnd);
    }
  }

  lemma TotalsSnoc(turns: seq<SpeakerTurn>, t: SpeakerTurn, s: int, a: int, b: int, segStart: int, segEnd: int)
    ensures OverlapOf(turns + [t], s, a, b)
         == OverlapOf(turns, s, a, b) + if t.speakerIndex == s then Overlap(t, a, b) else 0
    ensures Occupancy(turns + [t], s) == Occupancy(turns, s) + if t.speakerIndex == s then t.Duration() else 0
    ensures multiset(Clip(turns + [t], segStart, segEnd))
         == multiset(Clip(turns, segStart, segEnd)) + ClippedShare(t, segStart, segEnd)
  {
    assert (turns + [t])[..|turns|] == turns;
    hide Overlap, ClipTurn, Relevant;
  }

  ghost function ClippedShare(t: SpeakerTurn, segStart: int, segEnd: int): multiset<SpeakerTurn> {
    if Relevant(t, segStart, segEnd) then multiset{ClipTurn(t, segStart, segEnd)} else multiset{}
  }

  lemma {:induction false} PermutedTotals(
    x: seq<SpeakerTurn>, y: seq<SpeakerTurn>, s: int, a: int, b: int, segStart: int, segEnd: int)
    requires multiset(x) == multiset(y)
    ensures OverlapOf(x, s, a, b) == OverlapOf(y, s, a, b) && Occupancy(x, s) == Occupancy(y, s)
    ensures multiset(Clip(x, segStart, segEnd)) == multiset(Clip(y, segStart, segEnd))
    decreases |x|
  {
    if x == [] {
      assert |multiset(x)| == |multiset(y)|;
    } else {
      hide OverlapOf, Occupancy, Clip, ClippedShare, Overlap;
      var n := |x| - 1;
      var i := IndexIn(x[n], x, y);
      WithoutSame(x, y, n, i);
      PermutedTotals(Without(x, n), Without(y, i), s, a, b, segStart, segEnd);
      TotalsWithout(x, n, s, a, b, segStart, segEnd);
      TotalsWithout(y, i, s, a, b, segStart, segEnd);
    }
  }

  lemma IndexIn(t: SpeakerTurn, x: seq<SpeakerTurn>, y: seq<SpeakerTurn>) returns (i: nat)
    requires multiset(x) == multiset(y) && t in x
    ensures i < |y| && y[i] == t
  {
    assert t in multiset(y);
    i :| 0 <= i < |y| && y[i] == t;
  }

  lemma WithoutSame(x: seq<SpeakerTurn>, y: seq<SpeakerTurn>, n: nat, i: nat)
    requires multiset(x) == multiset(y) && n < |x| && i < |y| && x[n] == y[i]
    ensures multiset(Without(x, n)) == multiset(Without(y, i)) && |Without(x, n)| == |x| - 1
  {
    OneOut(x, n);
    OneOut(y, i);
    assert multiset(Without(x, n)) == multiset(x) - multiset{x[n]};
    assert multiset(Without(y, i)) == multiset(y) - multiset{y[i]};
  }

  lemma OneOut(turns: seq<SpeakerTurn>, i: nat)
    requires i < |turns|
    ensures multiset(turns) == multiset(Without(turns, i)) + multiset{turns[i]}
  {
    assert turns == turns[..i] + [turns[i]] + turns[i + 1..];
  }

  lemma SameMembers(x: seq<SpeakerTurn>, y: seq<SpeakerTurn>)
    requires multiset(x) == multiset(y)
    ensures forall t :: t in x <==> t in y
  {
    forall t ensures t in x <==> t in y {
      assert t in x <==> t in multiset(x);
      assert t in y <==> t in multiset(y);
    }
  }

  lemma SameChoice(x: seq<SpeakerTurn>, y: seq<SpeakerTurn>, a: int, b: int, piece: SpeakerTurn)
    requires multiset(x) == multiset(y) && IsPiece(x, a, b, piece)
    ensures IsPiece(y, a, b, piece)
  {
    forall s ensures OverlapOf(x, s, a, b) == OverlapOf(y, s, a, b) && Occupancy(x, s) == Occupancy(y, s) {
      PermutedTotals(x, y, s, a, b, 0, 0);
    }
    SameMembers(x, y);
    assert OccupancyMap(x) == OccupancyMap(y);
    assert Covered(x, a, b) == Covered(y, a, b);
    if Covered(x, a, b) {
      forall q | OverlapOf(y, q, a, b) > 0
        ensures Preferred(y, OccupancyMap(y), a, b, piece.speakerIndex, q)
      {
        assert OverlapOf(x, q, a, b) > 0;
        assert Preferred(x, OccupancyMap(x), a, b, piece.speakerIndex, q);
      }
    } else {
      var t :| t in x && t.speakerIndex == piece.speakerIndex && forall u <- x :: Nearer(t, u, a, b);
      assert t in y && forall u <- y :: Nearer(t, u, a, b);
    }
  }

  /** The same turns in any order are reconciled to the same list. */
  lemma OrderDoesNotMatter(
    x: seq<SpeakerTurn>, y: seq<SpeakerTurn>, segStart: int, segEnd: int, minDuration: int,
    r: seq<SpeakerTurn>, r': seq<SpeakerTurn>)
    requires multiset(x) == multiset(y)
    requires IsNormalized(x, segStart, segEnd, minDuration, r) && IsNormalized(y, segStart, segEnd, minDuration, r')
    ensures r == r'
  {
    hide Clip, Sorted, IsPiece, Merged, Absorbed;
    PermutedTotals(x, y, 0, 0, 0, segStart, segEnd);
    var c, c' := Clip(x, segStart, segEnd), Clip(y, segStart, segEnd);
    SameMembers(c, c');
    if c == [] || c' == [] {
      assert |multiset(c)| == |multiset(c')|;
    } else {
      assert Boundaries(c, segStart, segEnd) == Boundaries(c', segStart, segEnd);
      var bounds := Sorted(Boundaries(c, segStart, segEnd));
      var p :| IsSweep(c, bounds, p) && r == Merged(Absorbed(Merged(p), Max(0, minDuration)));
      var p' :| IsSweep(c', bounds, p') && r' == Merged(Absorbed(Merged(p'), Max(0, minDuration)));
      forall i | 0 <= i < |p| ensures p[i] == p'[i] {
        SameChoice(c, c', bounds[i], bounds[i + 1], p[i]);
        SamePiece(c', bounds[i], bounds[i + 1], p[i], p'[i]);
      }
      assert p == p';
    }
  }

  lemma SamePiece(turns: seq<SpeakerTurn>, a: int, b: int, p: SpeakerTurn, q: SpeakerTurn)
    requires IsPiece(turns, a, b, p) && IsPiece(turns, a, b, q)
    ensures p == q
  {
    ChosenIsUnique(turns, OccupancyMap(turns), a, b, p.speakerIndex, q.speakerIndex);
  }
}
