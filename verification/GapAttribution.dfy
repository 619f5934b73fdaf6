/**
 To whom a silent stretch of a segment goes (backend/diarization/turns.py, _normalize_turns), told by
 where the reported turns start and end.
 */
module GapAttribution {
  import opened Basics
  import opened Turns
  import opened TurnProperties
  import opened TurnAttribution

  ghost predicate WellFormed(turns: seq<SpeakerTurn>) { forall t <- turns :: t.startMs < t.endMs }

  /** A longest stretch of the segment in which no known speaker is active. */
  ghost predicate IsGap(turns: seq<SpeakerTurn>, segStart: int, segEnd: int, a: int, b: int) {
    && segStart <= a < b <= segEnd
    && (forall t <- turns | KnownSpeaker(t.speakerIndex) :: t.endMs <= a || b <= t.startMs)
    && (a == segStart || exists t :: t in turns && KnownSpeaker(t.speakerIndex) && t.endMs == a)
    && (b == segEnd || exists t :: t in turns && KnownSpeaker(t.speakerIndex) && t.startMs == b)
  }

  /** The speaker stops where the gap begins or starts where it ends, inside the segment. */
  ghost predicate Borders(turns: seq<SpeakerTurn>, segStart: int, segEnd: int, a: int, b: int, speaker: int) {
    KnownSpeaker(speaker)
    && exists t :: t in turns && t.speakerIndex == speaker
                   && ((t.endMs == a && segStart < a) || (t.startMs == b && b < segEnd))
  }

  // ----- Clipped turns and reported ones

  lemma {:induction false} ClipHas(turns: seq<SpeakerTurn>, segStart: int, segEnd: int, t: SpeakerTurn)
    requires t in turns && Relevant(t, segStart, segEnd)
    ensures ClipTurn(t, segStart, segEnd) in Clip(turns, segStart, segEnd)
  {
    var init, last := turns[..|turns| - 1], turns[|turns| - 1];
    if t in init {
      ClipHas(init, segStart, segEnd, t);
    } else {
      assert t == last;
    }
  }

  lemma {:induction false} ClipCameFrom(turns: seq<SpeakerTurn>, segStart: int, segEnd: int, c: SpeakerTurn)
    returns (t: SpeakerTurn)
    requires c in Clip(turns, segStart, segEnd)
    ensures t in turns && Relevant(t, segStart, segEnd) && c == ClipTurn(t, segStart, segEnd)
  {
    var init, last := turns[..|turns| - 1], turns[|turns| - 1];
    if c in Clip(init, segStart, segEnd) {
      t := ClipCameFrom(init, segStart, segEnd, c);
    } else {
      t := last;
    }
  }

  /** Around a gap every clipped turn ends at a or before, or starts at b or after. */
  lemma ClippedBesideGap(turns: seq<SpeakerTurn>, segStart: int, segEnd: int, a: int, b: int, c: SpeakerTurn)
    requires WellFormed(turns) && IsGap(turns, segStart, segEnd, a, b) && c in Clip(turns, segStart, segEnd)
    ensures c.startMs < c.endMs && (c.endMs <= a || b <= c.startMs)
    ensures c.endMs == a || c.startMs == b ==> Borders(turns, segStart, segEnd, a, b, c.speakerIndex)
  {
    var t := ClipCameFrom(turns, segStart, segEnd, c);
    hide Clip;
  }

  lemma BorderIsClipped(turns: seq<SpeakerTurn>, segStart: int, segEnd: int, a: int, b: int, speaker: int)
    requires WellFormed(turns) && IsGap(turns, segStart, segEnd, a, b)
    requires Borders(turns, segStart, segEnd, a, b, speaker)
    ensures EndsAt(Clip(turns, segStart, segEnd), speaker, a) || EndsAt(Clip(turns, segStart, segEnd), speaker, b)
  {
    var t :| t in turns && t.speakerIndex == speaker
             && ((t.endMs == a && segStart < a) || (t.startMs == b && b < segEnd));
    ClipHas(turns, segStart, segEnd, t);
    hide Clip;
    assert ClipTurn(t, segStart, segEnd).speakerIndex == speaker;
  }

  /** The ends of a gap are neighbouring boundaries. */
  lemma GapIsInterval(turns: seq<SpeakerTurn>, segStart: int, segEnd: int, a: int, b: int, i: nat, now: int)
    requires WellFormed(turns) && IsGap(turns, segStart, segEnd, a, b) && a <= now < b
    requires
      var bounds := Sorted(Boundaries(Clip(turns, segStart, segEnd), segStart, segEnd));
      i + 1 < |bounds| && bounds[i] <= now < bounds[i + 1]
    ensures
      var bounds := Sorted(Boundaries(Clip(turns, segStart, segEnd), segStart, segEnd));
      bounds[i] == a && bounds[i + 1] == b
  {
    hide Sorted, Clip;
    var clipped := Clip(turns, segStart, segEnd);
    var bounds := Sorted(Boundaries(clipped, segStart, segEnd));
    GapEndsAreBounds(turns, segStart, segEnd, a, b);
    var j :| 0 <= j < |bounds| && bounds[j] == a;
    var k :| 0 <= k < |bounds| && bounds[k] == b;
    NoBoundInside(turns, segStart, segEnd, a, b, bounds[i]);
    NoBoundInside(turns, segStart, segEnd, a, b, bounds[i + 1]);
    assert j <= i && i < k;
    assert bounds[i] in bounds && bounds[i + 1] in bounds;
  }

  lemma GapEndsAreBounds(turns: seq<SpeakerTurn>, segStart: int, segEnd: int, a: int, b: int)
    requires WellFormed(turns) && IsGap(turns, segStart, segEnd, a, b)
    ensures {a, b} <= Boundaries(Clip(turns, segStart, segEnd), segStart, segEnd)
  {
    if a != segStart {
      var t :| t in turns && KnownSpeaker(t.speakerIndex) && t.endMs == a;
      ClipHas(turns, segStart, segEnd, t);
      assert ClipTurn(t, segStart, segEnd).endMs == a;
    }
    if b != segEnd {
      var t :| t in turns && KnownSpeaker(t.speakerIndex) && t.startMs == b;
      ClipHas(turns, segStart, segEnd, t);
      assert ClipTurn(t, segStart, segEnd).startMs == b;
    }
  }

  lemma NoBoundInside(turns: seq<SpeakerTurn>, segStart: int, segEnd: int, a: int, b: int, x: int)
    requires WellFormed(turns) && IsGap(turns, segStart, segEnd, a, b)
    requires x in Boundaries(Clip(turns, segStart, segEnd), segStart, segEnd)
    ensures x <= a || b <= x
  {
    hide Clip;
    var clipped := Clip(turns, segStart, segEnd);
    if x != segStart && x != segEnd {
      var c :| c in clipped && (x == c.startMs || x == c.endMs);
      ClippedBesideGap(turns, segStart, segEnd, a, b, c);
    }
  }

  // ----- Whom the gap goes to

  lemma ClosestBorders(turns: seq<SpeakerTurn>, segStart: int, segEnd: int, a: int, b: int, who: int)
    requires WellFormed(turns) && IsGap(turns, segStart, segEnd, a, b)
    requires HasClosestEnd(Clip(turns, segStart, segEnd), a, b, who)
    ensures Borders(turns, segStart, segEnd, a, b, who)
    ensures forall q :: Borders(turns, segStart, segEnd, a, b, q) ==> who <= q
  {
    hide Clip, Borders;
    var clipped := Clip(turns, segStart, segEnd);
    var e :| EndsAt(clipped, who, e) && forall q, e' :: EndsAt(clipped, q, e') ==>
      Abs(a + b - 2 * e) < Abs(a + b - 2 * e') || (Abs(a + b - 2 * e) == Abs(a + b - 2 * e') && who <= q);
    var c :| c in clipped && c.speakerIndex == who && (e == c.startMs || e == c.endMs);
    ClippedBesideGap(turns, segStart, segEnd, a, b, c);
    var first := SomeoneBorders(turns, segStart, segEnd, a, b, c);
    BorderIsClipped(turns, segStart, segEnd, a, b, first);
    assert Abs(a + b - 2 * e) <= b - a;
    assert e == a || e == b;
    forall q | Borders(turns, segStart, segEnd, a, b, q) ensures who <= q {
      BorderIsClipped(turns, segStart, segEnd, a, b, q);
    }
  }

  lemma SomeoneBorders(turns: seq<SpeakerTurn>, segStart: int, segEnd: int, a: int, b: int, c: SpeakerTurn)
    returns (speaker: int)
    requires WellFormed(turns) && IsGap(turns, segStart, segEnd, a, b) && c in Clip(turns, segStart, segEnd)
    ensures Borders(turns, segStart, segEnd, a, b, speaker)
  {
    var from := ClipCameFrom(turns, segStart, segEnd, c);
    hide Clip;
    if a != segStart {
      var t :| t in turns && KnownSpeaker(t.speakerIndex) && t.endMs == a;
      speaker := t.speakerIndex;
    } else {
      var t :| t in turns && KnownSpeaker(t.speakerIndex) && t.startMs == b;
      speaker := t.speakerIndex;
    }
  }

  /**
   Before absorption a gap between well-formed turns goes, at each of its instants, to the lowest of the
   speakers who stop where it begins or start where it ends: at the start of the segment to those who
   start behind it, at the end to those who have just stopped.
   */
  lemma GapGoesToNeighbour(
    turns: seq<SpeakerTurn>, segStart: int, segEnd: int, pieces: seq<SpeakerTurn>, a: int, b: int, now: int)
    requires WellFormed(turns) && IsGap(turns, segStart, segEnd, a, b) && a <= now < b
    requires IsSweep(Clip(turns, segStart, segEnd), Sorted(Boundaries(Clip(turns, segStart, segEnd), segStart, segEnd)), pieces)
    ensures
      var who := SpeakerAt(Merged(pieces), now);
      && who.Some? && Borders(turns, segStart, segEnd, a, b, who.value)
      && forall q :: Borders(turns, segStart, segEnd, a, b, q) ==> who.value <= q
  {
    hide IsDominant, IsNearest, HasClosestEnd, Sorted, Merged, Clip, Borders;
    var clipped := Clip(turns, segStart, segEnd);
    var bounds := Sorted(Boundaries(clipped, segStart, segEnd));
    BoundariesSpan(clipped, turns, segStart, segEnd);
    SweepShape(turns, segStart, segEnd, pieces);
    MergedKeeps(pieces, segStart, segEnd);
    var i := PieceAt(pieces, segStart, segEnd, now);
    assert IsPiece(clipped, bounds[i], bounds[i + 1], pieces[i]);
    GapIsInterval(turns, segStart, segEnd, a, b, i, now);
    GapIsUncovered(turns, segStart, segEnd, a, b);
    NearestHasClosestEnd(clipped, a, b, pieces[i].speakerIndex);
    ClosestBorders(turns, segStart, segEnd, a, b, pieces[i].speakerIndex);
  }

  lemma GapIsUncovered(turns: seq<SpeakerTurn>, segStart: int, segEnd: int, a: int, b: int)
    requires WellFormed(turns) && IsGap(turns, segStart, segEnd, a, b)
    ensures !Covered(Clip(turns, segStart, segEnd), a, b)
  {
    hide Clip;
    forall c <- Clip(turns, segStart, segEnd) ensures Overlap(c, a, b) == 0 {
      ClippedBesideGap(turns, segStart, segEnd, a, b, c);
    }
  }

  // ----- The reconciled list itself

  /** With no minimum length nothing is absorbed, and the attribution of the sweep is that of the result. */
  lemma ResultAttribution(
    turns: seq<SpeakerTurn>, segStart: int, segEnd: int, minDuration: int, r: seq<SpeakerTurn>, now: int)
    requires IsNormalized(turns, segStart, segEnd, minDuration, r) && minDuration <= 0
    requires r != [] && segStart <= now < segEnd
    ensures
      var who := SpeakerAt(r, now);
      && who.Some?
      && (SomeoneActive(turns, now) ==> MostPresent(turns, OccupancyMap(Clip(turns, segStart, segEnd)), now, who.value))
      && (forall a, b | WellFormed(turns) && IsGap(turns, segStart, segEnd, a, b) && a <= now < b ::
            Borders(turns, segStart, segEnd, a, b, who.value)
            && forall q :: Borders(turns, segStart, segEnd, a, b, q) ==> who.value <= q)
  {
    hide IsSweep, Sorted, Merged, Clip, Borders, IsGap, MostPresent, WellFormed, SpeakerAt, SomeoneActive;
    var clipped := Clip(turns, segStart, segEnd);
    var pieces :| IsSweep(clipped, Sorted(Boundaries(clipped, segStart, segEnd)), pieces)
                  && r == Merged(Absorbed(Merged(pieces), Max(0, minDuration)));
    SweepShape(turns, segStart, segEnd, pieces);
    NothingAbsorbed(Merged(pieces), segStart, segEnd);
    MergedOfAlternating(Merged(pieces));
    Attribution(turns, segStart, segEnd, pieces, now);
    forall a, b | WellFormed(turns) && IsGap(turns, segStart, segEnd, a, b) && a <= now < b
      ensures
        var who := SpeakerAt(r, now).value;
        Borders(turns, segStart, segEnd, a, b, who) && forall q :: Borders(turns, segStart, segEnd, a, b, q) ==> who <= q
    {
      GapGoesToNeighbour(turns, segStart, segEnd, pieces, a, b, now);
    }
  }

  lemma NothingAbsorbed(pieces: seq<SpeakerTurn>, lo: int, hi: int)
    requires Tiles(pieces, lo, hi)
    ensures Absorbed(pieces, 0) == pieces
  {
    TilesBounds(pieces, lo, hi);
  }
}
