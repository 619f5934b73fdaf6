/**
 Reconciling speaker turns (backend/diarization/turns.py): overlapping turns reported for one
 segment become a gap-free, non-overlapping attribution. This module holds the operations; their
 properties are proved in TurnProperties.
 */
module Turns {
  import opened Basics

  const MAX_SPEAKERS: nat := 4

  datatype SpeakerTurn = SpeakerTurn(startMs: int, endMs: int, speakerIndex: int) {
    function Duration(): int { endMs - startMs }
  }

  // ----- Clipping and totals

  predicate Relevant(t: SpeakerTurn, segStart: int, segEnd: int) {
    0 <= t.speakerIndex < MAX_SPEAKERS && t.endMs > segStart && t.startMs < segEnd
  }

  function ClipTurn(t: SpeakerTurn, segStart: int, segEnd: int): SpeakerTurn {
    SpeakerTurn(Max(segStart, t.startMs), Min(segEnd, t.endMs), t.speakerIndex)
  }

  function Clip(turns: seq<SpeakerTurn>, segStart: int, segEnd: int): seq<SpeakerTurn> {
    if turns == [] then []
    else
      var last := turns[|turns| - 1];
      Clip(turns[..|turns| - 1], segStart, segEnd)
      + if Relevant(last, segStart, segEnd) then [ClipTurn(last, segStart, segEnd)] else []
  }

  function Overlap(t: SpeakerTurn, a: int, b: int): nat { Max(0, Min(b, t.endMs) - Max(a, t.startMs)) }

  /** Total time that a speaker's turns share with [a, b). */
  function OverlapOf(turns: seq<SpeakerTurn>, speaker: int, a: int, b: int): nat {
    if turns == [] then 0
    else
      var last := turns[|turns| - 1];
      OverlapOf(turns[..|turns| - 1], speaker, a, b) + if last.speakerIndex == speaker then Overlap(last, a, b) else 0
  }

  /** Total length of a speaker's turns; a turn that ends before it starts counts against it. */
  function Occupancy(turns: seq<SpeakerTurn>, speaker: int): int {
    if turns == [] then 0
    else
      var last := turns[|turns| - 1];
      Occupancy(turns[..|turns| - 1], speaker) + if last.speakerIndex == speaker then last.Duration() else 0
  }

  ghost function OccupancyMap(turns: seq<SpeakerTurn>): map<int, int> {
    map t <- turns :: t.speakerIndex := Occupancy(turns, t.speakerIndex)
  }

  function Get(m: map<int, int>, key: int): int { if key in m then m[key] else 0 }

  // ----- Whom an interval belongs to

  /** Speaker p is preferred to q: more overlap, then more occupancy, then the lower index. */
  predicate Preferred(turns: seq<SpeakerTurn>, occupancy: map<int, int>, a: int, b: int, p: int, q: int) {
    var op, oq := OverlapOf(turns, p, a, b), OverlapOf(turns, q, a, b);
    op > oq
    || (op == oq && (Get(occupancy, p) > Get(occupancy, q)
                     || (Get(occupancy, p) == Get(occupancy, q) && p <= q)))
  }

  ghost predicate IsDominant(turns: seq<SpeakerTurn>, occupancy: map<int, int>, a: int, b: int, speaker: int) {
    OverlapOf(turns, speaker, a, b) > 0
    && forall q :: OverlapOf(turns, q, a, b) > 0 ==> Preferred(turns, occupancy, a, b, speaker, q)
  }

  /** Twice the distance from the midpoint of [a, b) to the nearer end of a turn. */
  function Distance(t: SpeakerTurn, a: int, b: int): nat {
    Min(Abs(a + b - 2 * t.startMs), Abs(a + b - 2 * t.endMs))
  }

  predicate Nearer(t: SpeakerTurn, u: SpeakerTurn, a: int, b: int) {
    Distance(t, a, b) < Distance(u, a, b)
    || (Distance(t, a, b) == Distance(u, a, b) && t.speakerIndex <= u.speakerIndex)
  }

  ghost predicate IsNearest(turns: seq<SpeakerTurn>, a: int, b: int, speaker: int) {
    exists t :: t in turns && t.speakerIndex == speaker && forall u <- turns :: Nearer(t, u, a, b)
  }

  /** The speaker has a turn that starts or ends at e. */
  ghost predicate EndsAt(turns: seq<SpeakerTurn>, speaker: int, e: int) {
    exists t :: t in turns && t.speakerIndex == speaker && (e == t.startMs || e == t.endMs)
  }

  /** Of all ends of turns the speaker has one as near to the midpoint of [a, b) as any, and on a tie the lowest index. */
  ghost predicate HasClosestEnd(turns: seq<SpeakerTurn>, a: int, b: int, speaker: int) {
    exists e :: EndsAt(turns, speaker, e) && forall q, e' :: EndsAt(turns, q, e') ==>
      Abs(a + b - 2 * e) < Abs(a + b - 2 * e') || (Abs(a + b - 2 * e) == Abs(a + b - 2 * e') && speaker <= q)
  }

  lemma NearestHasClosestEnd(turns: seq<SpeakerTurn>, a: int, b: int, speaker: int)
    requires IsNearest(turns, a, b, speaker)
    ensures HasClosestEnd(turns, a, b, speaker)
  {
    var t :| t in turns && t.speakerIndex == speaker && forall u <- turns :: Nearer(t, u, a, b);
    var e := if Abs(a + b - 2 * t.startMs) <= Abs(a + b - 2 * t.endMs) then t.startMs else t.endMs;
    assert EndsAt(turns, speaker, e);
    forall q, e' | EndsAt(turns, q, e')
      ensures Abs(a + b - 2 * e) < Abs(a + b - 2 * e') || (Abs(a + b - 2 * e) == Abs(a + b - 2 * e') && speaker <= q)
    {
      var u :| u in turns && u.speakerIndex == q && (e' == u.startMs || e' == u.endMs);
      assert Nearer(t, u, a, b);
    }
  }

  /** Somebody speaks in [a, b). */
  ghost predicate Covered(turns: seq<SpeakerTurn>, a: int, b: int) {
    exists t :: t in turns && Overlap(t, a, b) > 0
  }

  /** The speaker of one boundary interval: the dominant one, or the nearest one in a gap. */
  ghost predicate IsChosen(turns: seq<SpeakerTurn>, occupancy: map<int, int>, a: int, b: int, speaker: int) {
    if Covered(turns, a, b) then IsDominant(turns, occupancy, a, b, speaker)
    else IsNearest(turns, a, b, speaker)
  }

  lemma ChosenIsUnique(turns: seq<SpeakerTurn>, occupancy: map<int, int>, a: int, b: int, p: int, q: int)
    requires IsChosen(turns, occupancy, a, b, p) && IsChosen(turns, occupancy, a, b, q)
    ensures p == q
  {
  }

  lemma {:induction false} OverlapHasTurn(turns: seq<SpeakerTurn>, speaker: int, a: int, b: int)
    ensures OverlapOf(turns, speaker, a, b) > 0 <==>
            exists t :: t in turns && t.speakerIndex == speaker && Overlap(t, a, b) > 0
  {
    if turns != [] {
      var last := |turns| - 1;
      OverlapHasTurn(turns[..last], speaker, a, b);
      assert turns == turns[..last] + [turns[last]];
    }
  }

  lemma CoveredHasSpeaker(turns: seq<SpeakerTurn>, a: int, b: int)
    ensures Covered(turns, a, b) <==> exists q :: OverlapOf(turns, q, a, b) > 0
  {
    if Covered(turns, a, b) {
      var t :| t in turns && Overlap(t, a, b) > 0;
      OverlapHasTurn(turns, t.speakerIndex, a, b);
    }
    if q :| OverlapOf(turns, q, a, b) > 0 {
      OverlapHasTurn(turns, q, a, b);
    }
  }

  /** _dominant_turn */
  method DominantTurn(turns: seq<SpeakerTurn>, a: int, b: int, occupancy: map<int, int>)
    returns (r: Option<SpeakerTurn>)
    ensures r == None <==> !Covered(turns, a, b)
    ensures r.Some? ==>
      r.value == SpeakerTurn(a, b, r.value.speakerIndex) && IsDominant(turns, occupancy, a, b, r.value.speakerIndex)
  {
    var overlapBySpeaker: map<int, int> := map[];
    var i := 0;
    while i < |turns|
      invariant 0 <= i <= |turns|
      invariant forall s :: s in overlapBySpeaker <==> OverlapOf(turns[..i], s, a, b) > 0
      invariant forall s :: s in overlapBySpeaker ==> overlapBySpeaker[s] == OverlapOf(turns[..i], s, a, b)
    {
      assert turns[..i + 1][..i] == turns[..i];
      var overlap := Overlap(turns[i], a, b);
      if overlap != 0 {
        var s := turns[i].speakerIndex;
        overlapBySpeaker := overlapBySpeaker[s := Get(overlapBySpeaker, s) + overlap];
      }
      i := i + 1;
    }
    assert turns[..i] == turns;
    CoveredHasSpeaker(turns, a, b);
    if overlapBySpeaker == map[] {
      return None;
    }
    var speaker := AnyOf(overlapBySpeaker.Keys);
    var rest := overlapBySpeaker.Keys - {speaker};
    while rest != {}
      invariant rest <= overlapBySpeaker.Keys && speaker in overlapBySpeaker
      invariant forall q :: q in overlapBySpeaker && q !in rest ==> Preferred(turns, occupancy, a, b, speaker, q)
      decreases rest
    {
      var q := AnyOf(rest);
      var smaller :=
        overlapBySpeaker[q] > overlapBySpeaker[speaker]
        || (overlapBySpeaker[q] == overlapBySpeaker[speaker]
            && (Get(occupancy, q) > Get(occupancy, speaker)
                || (Get(occupancy, q) == Get(occupancy, speaker) && q < speaker)));
      if smaller {
        speaker := q;
      }
      rest := rest - {q};
    }
    return Some(SpeakerTurn(a, b, speaker));
  }

  /** `min(clipped, key=...)`: the first turn with the smallest key. */
  method NearestTurn(turns: seq<SpeakerTurn>, a: int, b: int) returns (nearest: SpeakerTurn)
    requires turns != []
    ensures nearest in turns && forall u <- turns :: Nearer(nearest, u, a, b)
    ensures HasClosestEnd(turns, a, b, nearest.speakerIndex)
  {
    nearest := turns[0];
    var i := 1;
    while i < |turns|
      invariant 1 <= i <= |turns|
      invariant nearest in turns && forall k :: 0 <= k < i ==> Nearer(nearest, turns[k], a, b)
    {
      if !Nearer(nearest, turns[i], a, b) {
        nearest := turns[i];
      }
      i := i + 1;
    }
    NearestHasClosestEnd(turns, a, b, nearest.speakerIndex);
  }

  /** The choice for one boundary interval; gaps go to the closest existing role. */
  method ChoosePiece(clipped: seq<SpeakerTurn>, a: int, b: int, occupancy: map<int, int>)
    returns (chosen: SpeakerTurn)
    requires clipped != []
    requires occupancy == OccupancyMap(clipped)
    ensures IsPiece(clipped, a, b, chosen)
  {
    var found := DominantTurn(clipped, a, b, occupancy);
    if found == None {
      var nearest := NearestTurn(clipped, a, b);
      return SpeakerTurn(a, b, nearest.speakerIndex);
    }
    chosen := found.value;
  }

  // ----- Boundaries and intervals

  lemma {:induction false} HasMinimum(s: set<int>)
    requires s != {}
    ensures exists m :: m in s && forall k <- s :: m <= k
  {
    var x := Element(s);
    var rest := s - {x};
    if rest == {} {
      assert s == {x};
    } else {
      HasMinimum(rest);
      var m :| m in rest && forall k <- rest :: m <= k;
      assert forall k <- s :: k == x || k in rest;
      assert Min(m, x) in s && forall k <- s :: Min(m, x) <= k;
    }
  }

  lemma PrependSmallest(m: int, rest: seq<int>)
    requires forall k :: k in rest ==> m < k
    requires forall i, j :: 0 <= i < j < |rest| ==> rest[i] < rest[j]
    ensures forall i, j :: 0 <= i < j < |rest| + 1 ==> ([m] + rest)[i] < ([m] + rest)[j]
  {
    forall i, j | 0 <= i < j < |rest| + 1 ensures ([m] + rest)[i] < ([m] + rest)[j] {
      assert ([m] + rest)[j] == rest[j - 1] && rest[j - 1] in rest;
    }
  }

  /** `sorted` of a set. */
  function Sorted(s: set<int>): (r: seq<int>)
    ensures forall k :: k in r <==> k in s
    ensures forall i, j :: 0 <= i < j < |r| ==> r[i] < r[j]
  {
    if s == {} then []
    else
      HasMinimum(s);
      var m :| m in s && forall k <- s :: m <= k;
      PrependSmallest(m, Sorted(s - {m}));
      [m] + Sorted(s - {m})
  }

  function Boundaries(turns: seq<SpeakerTurn>, segStart: int, segEnd: int): set<int> {
    {segStart, segEnd} + (set t <- turns :: t.startMs) + (set t <- turns :: t.endMs)
  }

  /** The first boundary intervals, each with its speaker. */
  ghost predicate IsSweepPrefix(turns: seq<SpeakerTurn>, bounds: seq<int>, pieces: seq<SpeakerTurn>) {
    && |pieces| <= Max(0, |bounds| - 1)
    && forall i :: 0 <= i < |pieces| ==> IsPiece(turns, bounds[i], bounds[i + 1], pieces[i])
  }

  ghost predicate IsPiece(turns: seq<SpeakerTurn>, a: int, b: int, piece: SpeakerTurn) {
    piece == SpeakerTurn(a, b, piece.speakerIndex) && IsChosen(turns, OccupancyMap(turns), a, b, piece.speakerIndex)
  }

  /** All of them. */
  ghost predicate IsSweep(turns: seq<SpeakerTurn>, bounds: seq<int>, pieces: seq<SpeakerTurn>) {
    |pieces| == Max(0, |bounds| - 1) && IsSweepPrefix(turns, bounds, pieces)
  }

  /** Joining a piece to a list whose last speaker may be the same. */
  function JoinPiece(merged: seq<SpeakerTurn>, piece: SpeakerTurn): (r: seq<SpeakerTurn>)
    ensures r != []
  {
    if merged != [] && merged[|merged| - 1].speakerIndex == piece.speakerIndex then
      var previous := merged[|merged| - 1];
      merged[|merged| - 1 := SpeakerTurn(previous.startMs, piece.endMs, previous.speakerIndex)]
    else merged + [piece]
  }

  function Merged(pieces: seq<SpeakerTurn>): (r: seq<SpeakerTurn>)
    ensures |r| <= |pieces| && (r == [] <==> pieces == [])
  {
    if pieces == [] then []
    else JoinPiece(Merged(pieces[..|pieces| - 1]), pieces[|pieces| - 1])
  }

  /** _merge_adjacent */
  method MergeAdjacent(turns: seq<SpeakerTurn>) returns (merged: seq<SpeakerTurn>)
    ensures merged == Merged(turns)
  {
    merged := [];
    var i := 0;
    while i < |turns|
      invariant 0 <= i <= |turns| && merged == Merged(turns[..i])
    {
      var turn := turns[i];
      assert turns[..i + 1][..i] == turns[..i];
      if merged != [] && merged[|merged| - 1].speakerIndex == turn.speakerIndex {
        var previous := merged[|merged| - 1];
        merged := merged[|merged| - 1 := SpeakerTurn(previous.startMs, turn.endMs, previous.speakerIndex)];
      } else {
        merged := merged + [turn];
      }
      i := i + 1;
    }
    assert turns[..i] == turns;
  }

  // ----- Absorbing short pieces

  /** `next(...)`: the first piece shorter than the minimum. */
  function ShortIndex(pieces: seq<SpeakerTurn>, minimum: int, from: nat := 0): (r: Option<nat>)
    requires from <= |pieces|
    ensures r == None ==> forall k :: from <= k < |pieces| ==> pieces[k].Duration() >= minimum
    ensures r.Some? ==> from <= r.value < |pieces| && pieces[r.value].Duration() < minimum
    ensures r.Some? ==> forall k :: from <= k < r.value ==> pieces[k].Duration() >= minimum
    decreases |pieces| - from
  {
    if from == |pieces| then None
    else if pieces[from].Duration() < minimum then Some(from)
    else ShortIndex(pieces, minimum, from + 1)
  }

  /** The neighbour that takes a short piece over: the longer one, the left one on a tie. */
  function Target(pieces: seq<SpeakerTurn>, short: nat): (target: nat)
    requires short < |pieces| && |pieces| > 1
    ensures target < |pieces| && (target == short - 1 || target == short + 1)
  {
    if short == 0 then 1
    else if short == |pieces| - 1 then short - 1
    else if pieces[short - 1].Duration() >= pieces[short + 1].Duration() then short - 1
    else short + 1
  }

  function AbsorbStep(pieces: seq<SpeakerTurn>, short: nat): (r: seq<SpeakerTurn>)
    requires short < |pieces| && |pieces| > 1
    ensures |r| == |pieces| - 1
  {
    var target := Target(pieces, short);
    var low, high := Min(short, target), Max(short, target);
    pieces[..low]
    + [SpeakerTurn(Min(pieces[short].startMs, pieces[target].startMs),
                   Max(pieces[short].endMs, pieces[target].endMs),
                   pieces[target].speakerIndex)]
    + pieces[high + 1..]
  }

  function Absorbed(pieces: seq<SpeakerTurn>, minimum: int): seq<SpeakerTurn>
    decreases |pieces|
  {
    if |pieces| <= 1 then pieces
    else
      match ShortIndex(pieces, minimum)
      case None => pieces
      case Some(short) => Absorbed(Merged(AbsorbStep(pieces, short)), minimum)
  }

  /** What _normalize_turns returns. */
  ghost predicate IsNormalized(
    turns: seq<SpeakerTurn>, segStart: int, segEnd: int, minDuration: int, r: seq<SpeakerTurn>)
  {
    var clipped := Clip(turns, segStart, segEnd);
    if clipped == [] then r == []
    else
      exists pieces ::
        IsSweep(clipped, Sorted(Boundaries(clipped, segStart, segEnd)), pieces)
        && r == Merged(Absorbed(Merged(pieces), Max(0, minDuration)))
  }

  /** The clipped turns, their totals and their boundaries, as the first loops compute them. */
  method ClipAndTotal(turns: seq<SpeakerTurn>, segStart: int, segEnd: int)
    returns (clipped: seq<SpeakerTurn>, occupancy: map<int, int>, ordered: seq<int>)
    ensures clipped == Clip(turns, segStart, segEnd)
    ensures occupancy == OccupancyMap(clipped)
    ensures ordered == Sorted(Boundaries(clipped, segStart, segEnd))
  {
    hide Occupancy, OccupancyMap, Boundaries, Sorted, Clip;
    clipped := Clip(turns, segStart, segEnd);
    occupancy := map[];
    var boundaries := {segStart, segEnd};
    var i := 0;
    NoTotals(segStart, segEnd);
    assert clipped[..0] == [];
    while i < |clipped|
      invariant 0 <= i <= |clipped|
      invariant occupancy == OccupancyMap(clipped[..i])
      invariant boundaries == Boundaries(clipped[..i], segStart, segEnd)
    {
      var turn := clipped[i];
      assert clipped[..i + 1] == clipped[..i] + [turn];
      AddTotals(clipped[..i], turn, segStart, segEnd);
      occupancy := occupancy[turn.speakerIndex := Get(occupancy, turn.speakerIndex) + turn.endMs - turn.startMs];
      boundaries := boundaries + {turn.startMs} + {turn.endMs};
      i := i + 1;
    }
    assert clipped[..i] == clipped;
    ordered := Sorted(boundaries);
  }

  lemma NoTotals(segStart: int, segEnd: int)
    ensures OccupancyMap([]) == map[] && Boundaries([], segStart, segEnd) == {segStart, segEnd}
  {
  }

  lemma AddTotals(turns: seq<SpeakerTurn>, turn: SpeakerTurn, segStart: int, segEnd: int)
    ensures OccupancyMap(turns + [turn])
         == OccupancyMap(turns)[turn.speakerIndex := Get(OccupancyMap(turns), turn.speakerIndex) + turn.Duration()]
    ensures Boundaries(turns + [turn], segStart, segEnd)
         == Boundaries(turns, segStart, segEnd) + {turn.startMs} + {turn.endMs}
  {
    var longer, before := turns + [turn], OccupancyMap(turns);
    assert forall t :: t in longer <==> t in turns || t == turn;
    AddOccupancy(turns, turn);
    if turn.speakerIndex !in before {
      NotThere(turns, turn.speakerIndex);
    }
    hide Occupancy;
    var after := before[turn.speakerIndex := Get(before, turn.speakerIndex) + turn.Duration()];
    assert OccupancyMap(longer).Keys == after.Keys;
  }

  lemma AddOccupancy(turns: seq<SpeakerTurn>, turn: SpeakerTurn)
    ensures forall s ::
      Occupancy(turns + [turn], s) == Occupancy(turns, s) + if s == turn.speakerIndex then turn.Duration() else 0
  {
    assert (turns + [turn])[..|turns|] == turns;
  }

  lemma {:induction false} NotThere(turns: seq<SpeakerTurn>, speaker: int)
    requires forall t <- turns :: t.speakerIndex != speaker
    ensures Occupancy(turns, speaker) == 0
  {
    if turns != [] {
      NotThere(turns[..|turns| - 1], speaker);
    }
  }

  /** The sweep over the boundary intervals, joining neighbours of one speaker as it goes. */
  method SweepTurns(clipped: seq<SpeakerTurn>, occupancy: map<int, int>, ordered: seq<int>)
    returns (intervals: seq<SpeakerTurn>)
    requires clipped != [] && occupancy == OccupancyMap(clipped)
    requires forall i, j :: 0 <= i < j < |ordered| ==> ordered[i] < ordered[j]
    ensures exists pieces :: IsSweep(clipped, ordered, pieces) && intervals == Merged(pieces)
  {
    hide IsPiece, Merged;
    intervals := [];
    ghost var pieces: seq<SpeakerTurn> := [];
    MergedNothing();
    var i := 0;
    while i + 1 < |ordered|
      invariant i == |pieces| && IsSweepPrefix(clipped, ordered, pieces)
      invariant intervals == Merged(pieces)
    {
      var chosen := ChoosePiece(clipped, ordered[i], ordered[i + 1], occupancy);
      MergedSnoc(pieces, chosen);
      pieces := pieces + [chosen];
      if intervals != [] && intervals[|intervals| - 1].speakerIndex == chosen.speakerIndex {
        var prev := intervals[|intervals| - 1];
        intervals := intervals[|intervals| - 1 := SpeakerTurn(prev.startMs, chosen.endMs, prev.speakerIndex)];
      } else {
        intervals := intervals + [chosen];
      }
      i := i + 1;
    }
  }

  lemma MergedNothing()
    ensures Merged([]) == []
  {
  }

  lemma MergedSnoc(pieces: seq<SpeakerTurn>, piece: SpeakerTurn)
    ensures Merged(pieces + [piece]) == JoinPiece(Merged(pieces), piece)
  {
    assert (pieces + [piece])[..|pieces|] == pieces;
  }

  /** The loop that rewrites the list until no short piece is left. */
  method AbsorbShort(pieces: seq<SpeakerTurn>, minimum: int) returns (intervals: seq<SpeakerTurn>)
    ensures intervals == Absorbed(pieces, minimum)
  {
    intervals := pieces;
    while |intervals| > 1
      invariant Absorbed(intervals, minimum) == Absorbed(pieces, minimum)
      decreases |intervals|
    {
      var found := ShortIndex(intervals, minimum);
      if found == None {
        break;
      }
      var shortIndex := found.value;
      var target: nat;
      if shortIndex == 0 {
        target := 1;
      } else if shortIndex == |intervals| - 1 {
        target := shortIndex - 1;
      } else {
        var left, right := intervals[shortIndex - 1], intervals[shortIndex + 1];
        target := if left.endMs - left.startMs >= right.endMs - right.startMs then shortIndex - 1 else shortIndex + 1;
      }
      var start := Min(intervals[shortIndex].startMs, intervals[target].startMs);
      var end := Max(intervals[shortIndex].endMs, intervals[target].endMs);
      var speaker := intervals[target].speakerIndex;
      var low, high := Min(shortIndex, target), Max(shortIndex, target);
      intervals := intervals[..low] + [SpeakerTurn(start, end, speaker)] + intervals[high + 1..];
      intervals := MergeAdjacent(intervals);
    }
  }

  /** _normalize_turns */
  method NormalizeTurns(turns: seq<SpeakerTurn>, segStart: int, segEnd: int, minDuration: int)
    returns (r: seq<SpeakerTurn>)
    ensures IsNormalized(turns, segStart, segEnd, minDuration, r)
  {
    var clipped, occupancy, ordered := ClipAndTotal(turns, segStart, segEnd);
    if clipped == [] {
      return [];
    }
    var intervals := SweepTurns(clipped, occupancy, ordered);
    ghost var pieces :| IsSweep(clipped, ordered, pieces) && intervals == Merged(pieces);
    intervals := AbsorbShort(intervals, Max(0, minDuration));
    r := MergeAdjacent(intervals);
  }
}
