/**
 Splitting a timed segment into speaker-attributed pieces (backend/diarization/turns.py,
 split_segment_by_speaker), and the fixed points of the reconciliation behind it.
 */
module SplitSegment {
  import opened Basics
  import opened Events
  import opened Turns
  import opened TurnProperties

  function Decimal(n: nat): string {
    if n < 10 then [['0', '1', '2', '3', '4', '5', '6', '7', '8', '9'][n]] else Decimal(n / 10) + Decimal(n % 10)
  }

  /** Sample offset of a millisecond offset: `int(round(ms * SAMPLE_RATE / 1000))`. */
  function SampleOffset(ms: int): int { Round(ms as real * SAMPLE_RATE as real / 1000.0) }

  lemma OffsetIsExact(ms: int)
    ensures SampleOffset(ms) == 16 * ms
  {
    assert ms as real * SAMPLE_RATE as real / 1000.0 == (16 * ms) as real;
    RoundOfInteger(16 * ms);
  }

  /** The piece cut for one turn, if any audio is left for it. */
  function Piece(segment: Segment, turn: SpeakerTurn, segStart: int, index: nat, isLast: bool): seq<Segment> {
    var relStart := Max(0, SampleOffset(turn.startMs - segStart));
    var relEnd := Min(|segment.pcm|, SampleOffset(turn.endMs - segStart));
    if relEnd <= relStart then []
    else
      var name := if segment.id == None || segment.id == Some("") then "segment" else segment.id.value;
      [Segment(segment.pcm[relStart..relEnd], segment.isStopFlush && isLast, Some(name + ":spk:" + Decimal(index)),
               Some(turn.startMs as real), Some(turn.endMs as real), Some(turn.speakerIndex))]
  }

  /** A millisecond is sixteen samples, so the cut is exact. */
  lemma PieceIsExact(segment: Segment, turn: SpeakerTurn, segStart: int, index: nat, isLast: bool)
    ensures
      var a, b := Max(0, 16 * (turn.startMs - segStart)), Min(|segment.pcm|, 16 * (turn.endMs - segStart));
      var r := Piece(segment, turn, segStart, index, isLast);
      if b <= a then r == []
      else |r| == 1 && r[0].pcm == segment.pcm[a..b] && r[0].isStopFlush == (segment.isStopFlush && isLast)
  {
    hide SampleOffset, Decimal;
    OffsetIsExact(turn.startMs - segStart);
    OffsetIsExact(turn.endMs - segStart);
  }

  /** The pieces of the first n turns. */
  function Pieces(segment: Segment, turns: seq<SpeakerTurn>, segStart: int, n: nat): (r: seq<Segment>)
    requires n <= |turns|
    ensures |r| <= n
  {
    if n == 0 then []
    else Pieces(segment, turns, segStart, n - 1) + Piece(segment, turns[n - 1], segStart, n - 1, n == |turns|)
  }

  function Joined(pieces: seq<Segment>): seq<Sample> {
    if pieces == [] then [] else Joined(pieces[..|pieces| - 1]) + pieces[|pieces| - 1].pcm
  }

  /** What split_segment_by_speaker returns. */
  ghost predicate IsSplit(segment: Segment, turns: seq<SpeakerTurn>, minDuration: int, r: seq<Segment>) {
    if segment.startMs == None || segment.endMs == None || turns == [] then r == [segment]
    else
      exists normalized ::
        IsNormalized(turns, Round(segment.startMs.value), Round(segment.endMs.value), minDuration, normalized)
        && var pieces := Pieces(segment, normalized, Round(segment.startMs.value), |normalized|);
           r == if pieces == [] then [segment] else pieces
  }

  method SplitSegmentBySpeaker(segment: Segment, turns: seq<SpeakerTurn>, minDuration: int)
    returns (result: seq<Segment>)
    ensures IsSplit(segment, turns, minDuration, result)
  {
    hide IsNormalized;
    if segment.startMs == None || segment.endMs == None || turns == [] {
      return [segment];
    }
    var segStart := Round(segment.startMs.value);
    var segEnd := Round(segment.endMs.value);
    var normalized := NormalizeTurns(turns, segStart, segEnd, minDuration);
    if normalized == [] {
      assert Pieces(segment, normalized, segStart, |normalized|) == [];
      return [segment];
    }
    result := [];
    var index := 0;
    while index < |normalized|
      invariant 0 <= index <= |normalized|
      invariant result == Pieces(segment, normalized, segStart, index)
    {
      result := result + Piece(segment, normalized[index], segStart, index, index == |normalized| - 1);
      index := index + 1;
    }
    if result == [] {
      result := [segment];
    }
  }

  // ----- Conservation of audio

  /** The first n turns' pieces hold the clip up to where the n-th turn ends. */
  lemma {:induction false} PiecesJoin(segment: Segment, turns: seq<SpeakerTurn>, segStart: int, segEnd: int, n: nat)
    requires Tiles(turns, segStart, segEnd) && n <= |turns|
    ensures
      var upTo := if n == 0 then 0 else 16 * (turns[n - 1].endMs - segStart);
      0 <= upTo && Joined(Pieces(segment, turns, segStart, n)) == segment.pcm[..Min(|segment.pcm|, upTo)]
    decreases n
  {
    hide Piece, Joined, Tiles;
    if n == 0 {
      JoinedNothing();
    } else {
      var turn := turns[n - 1];
      NextStart(turns, n - 1, segStart, segEnd);
      TurnInside(turns, segStart, segEnd, n - 1);
      PiecesJoin(segment, turns, segStart, segEnd, n - 1);
      PieceIsExact(segment, turn, segStart, n - 1, n == |turns|);
      JoinedSnoc(Pieces(segment, turns, segStart, n - 1), Piece(segment, turn, segStart, n - 1, n == |turns|));
      JoinPrefix(segment.pcm, 16 * (turn.startMs - segStart), 16 * (turn.endMs - segStart));
    }
  }

  lemma JoinedNothing()
    ensures Joined([]) == []
  {
  }

  lemma JoinPrefix(pcm: seq<Sample>, from: nat, to: nat)
    requires from < to
    ensures
      var a, b := from, Min(|pcm|, to);
      if b <= a then pcm[..Min(|pcm|, from)] == pcm[..b] else pcm[..Min(|pcm|, from)] + pcm[a..b] == pcm[..b]
  {
  }

  /** A turn of a tiling starts at its beginning or where the turn before ends. */
  lemma TurnInside(turns: seq<SpeakerTurn>, lo: int, hi: int, i: nat)
    requires Tiles(turns, lo, hi) && i < |turns|
    ensures turns[i].startMs == if i == 0 then lo else turns[i - 1].endMs
    ensures lo <= turns[i].startMs < turns[i].endMs <= hi
  {
    TilesBounds(turns, lo, hi);
    assert turns[i] in turns;
  }

  lemma JoinedSnoc(pieces: seq<Segment>, more: seq<Segment>)
    requires |more| <= 1
    ensures Joined(pieces + more) == Joined(pieces) + if more == [] then [] else more[0].pcm
  {
    if more == [] {
      assert pieces + more == pieces;
      assert Joined(pieces) + [] == Joined(pieces);
    } else {
      assert (pieces + more)[..|pieces|] == pieces;
    }
  }

  /**
   Splitting discards no audio within the segment: the pieces join to the clip's first
   16 * (end - start) samples, or to all of it if it is shorter; an undivided clip comes back as it was.
   */
  lemma SplitConserves(segment: Segment, turns: seq<SpeakerTurn>, minDuration: int, r: seq<Segment>)
    requires IsSplit(segment, turns, minDuration, r)
    ensures
      || r == [segment]
      || (segment.startMs.Some? && segment.endMs.Some?
          && var len := Round(segment.endMs.value) - Round(segment.startMs.value);
             len > 0 && Joined(r) == segment.pcm[..Min(|segment.pcm|, 16 * len)])
  {
    hide IsNormalized, Pieces;
    if segment.startMs.Some? && segment.endMs.Some? && turns != [] {
      var s, e := Round(segment.startMs.value), Round(segment.endMs.value);
      var normalized :| IsNormalized(turns, s, e, minDuration, normalized)
                        && r == (if Pieces(segment, normalized, s, |normalized|) == [] then [segment]
                                 else Pieces(segment, normalized, s, |normalized|));
      NormalizedShape(turns, s, e, minDuration, normalized);
      if normalized == [] {
        NoPieces(segment, normalized, s);
      } else if s < e {
        PiecesJoin(segment, normalized, s, e, |normalized|);
        TilesBounds(normalized, s, e);
      } else {
        BackwardIsEmpty(segment, normalized, s, e, |normalized|);
      }
    }
  }

  lemma NoPieces(segment: Segment, turns: seq<SpeakerTurn>, segStart: int)
    ensures Pieces(segment, turns, segStart, 0) == []
  {
  }

  /** Stamps that run backwards leave nothing to cut. */
  lemma {:induction false} BackwardIsEmpty(segment: Segment, turns: seq<SpeakerTurn>, segStart: int, segEnd: int, n: nat)
    requires segEnd <= segStart && Tiles(turns, segEnd, segStart) && n <= |turns|
    ensures Pieces(segment, turns, segStart, n) == []
    decreases n
  {
    hide Piece;
    if n > 0 {
      TurnInside(turns, segEnd, segStart, n - 1);
      BackwardIsEmpty(segment, turns, segStart, segEnd, n - 1);
      PieceIsExact(segment, turns[n - 1], segStart, n - 1, n == |turns|);
    }
  }

  /** Stamps aligned to milliseconds that match the clip keep all of it. */
  lemma AlignedSplitKeepsAll(segment: Segment, turns: seq<SpeakerTurn>, minDuration: int, r: seq<Segment>, start: int)
    requires IsSplit(segment, turns, minDuration, r)
    requires |segment.pcm| % 16 == 0
    requires segment.startMs == Some(start as real) && segment.endMs == Some((start + |segment.pcm| / 16) as real)
    ensures Joined(r) == segment.pcm
  {
    SplitConserves(segment, turns, minDuration, r);
    RoundOfInteger(start);
    RoundOfInteger(start + |segment.pcm| / 16);
    JoinedSnoc([], [segment]);
    assert [] + [segment] == [segment];
  }

  // ----- The stop-flush mark

  lemma {:induction false} NoneIsMarked(segment: Segment, turns: seq<SpeakerTurn>, segStart: int, n: nat)
    requires n < |turns|
    ensures forall p <- Pieces(segment, turns, segStart, n) :: !p.isStopFlush
    decreases n
  {
    hide Piece;
    if n > 0 {
      NoneIsMarked(segment, turns, segStart, n - 1);
      PieceIsExact(segment, turns[n - 1], segStart, n - 1, false);
    }
  }

  /**
   The mark of a stop flush sits on the last piece and nowhere else, and is there exactly when the
   clip reaches into the last turn.
   */
  lemma StopMark(
    segment: Segment, turns: seq<SpeakerTurn>, segStart: int, segEnd: int, minDuration: int,
    normalized: seq<SpeakerTurn>)
    requires IsNormalized(turns, segStart, segEnd, minDuration, normalized) && segStart < segEnd && normalized != []
    ensures
      var r := Pieces(segment, normalized, segStart, |normalized|);
      && (forall i :: 0 <= i < |r| && r[i].isStopFlush ==> i == |r| - 1 && segment.isStopFlush)
      && (segment.isStopFlush ==>
           ((r != [] && r[|r| - 1].isStopFlush)
            <==> |segment.pcm| > 16 * (normalized[|normalized| - 1].startMs - segStart)))
  {
    hide IsNormalized, Piece;
    var n := |normalized| - 1;
    NormalizedShape(turns, segStart, segEnd, minDuration, normalized);
    TurnInside(normalized, segStart, segEnd, n);
    NoneIsMarked(segment, normalized, segStart, n);
    PieceIsExact(segment, normalized[n], segStart, n, true);
    var r, before := Pieces(segment, normalized, segStart, n + 1), Pieces(segment, normalized, segStart, n);
    assert r == before + Piece(segment, normalized[n], segStart, n, true);
    forall i | 0 <= i < |before| ensures !r[i].isStopFlush {
      assert r[i] == before[i] && before[i] in before;
    }
  }

  /** With stamps less than a millisecond off the clip's length, and a minimum of two, the mark survives. */
  lemma StopMarkSurvives(segment: Segment, turns: seq<SpeakerTurn>, minDuration: int, r: seq<Segment>)
    requires IsSplit(segment, turns, minDuration, r)
    requires segment.isStopFlush && segment.pcm != [] && segment.startMs.Some? && segment.endMs.Some?
    requires minDuration >= 2
    requires -16.0 < 16.0 * (segment.endMs.value - segment.startMs.value) - |segment.pcm| as real < 16.0
    ensures r != [] && forall i :: 0 <= i < |r| ==> (r[i].isStopFlush <==> i == |r| - 1)
  {
    hide IsNormalized, Pieces;
    if turns != [] {
      var s, e := Round(segment.startMs.value), Round(segment.endMs.value);
      var normalized :| IsNormalized(turns, s, e, minDuration, normalized)
                        && r == (if Pieces(segment, normalized, s, |normalized|) == [] then [segment]
                                 else Pieces(segment, normalized, s, |normalized|));
      assert 16 * (e - s) < |segment.pcm| + 32;
      NormalizedShape(turns, s, e, minDuration, normalized);
      if normalized == [] {
        NoPieces(segment, normalized, s);
      } else if s < e {
        TilesBounds(normalized, s, e);
        StopMark(segment, turns, s, e, minDuration, normalized);
        assert normalized[|normalized| - 1] in normalized;
      } else {
        BackwardIsEmpty(segment, normalized, s, e, |normalized|);
      }
    }
  }

  // ----- A reconciled list is a fixed point

  /** Within its own piece, only the piece's speaker has overlap. */
  lemma {:induction false} OnlyOwnOverlap(turns: seq<SpeakerTurn>, lo: int, hi: int, i: nat, n: nat, q: int)
    requires Tiles(turns, lo, hi) && i < |turns| && n <= |turns|
    ensures
      var own := turns[i];
      OverlapOf(turns[..n], q, own.startMs, own.endMs) == if i < n && q == own.speakerIndex then own.Duration() else 0
    decreases n
  {
    if n > 0 {
      OnlyOwnOverlap(turns, lo, hi, i, n - 1, q);
      assert turns[..n][..n - 1] == turns[..n - 1];
      Apart(turns, lo, hi, i, n - 1);
    }
  }

  lemma Apart(turns: seq<SpeakerTurn>, lo: int, hi: int, i: nat, j: nat)
    requires Tiles(turns, lo, hi) && i < |turns| && j < |turns|
    ensures turns[i].startMs < turns[i].endMs
    ensures i != j ==> Overlap(turns[j], turns[i].startMs, turns[i].endMs) == 0
  {
    NextStart(turns, i, lo, hi);
    if i < j {
      Follows(turns, lo, hi, i, j);
    } else if j < i {
      Follows(turns, lo, hi, j, i);
    }
  }

  lemma {:induction false} Follows(turns: seq<SpeakerTurn>, lo: int, hi: int, i: nat, j: nat)
    requires Tiles(turns, lo, hi) && i < j < |turns|
    ensures turns[i].endMs <= turns[j].startMs
    decreases j
  {
    NextStart(turns, j - 1, lo, hi);
    if i < j - 1 {
      Follows(turns, lo, hi, i, j - 1);
    }
  }

  lemma {:induction false} ClipOfInside(turns: seq<SpeakerTurn>, segStart: int, segEnd: int)
    requires forall t <- turns ::
      0 <= t.speakerIndex < MAX_SPEAKERS && segStart <= t.startMs < t.endMs <= segEnd
    ensures Clip(turns, segStart, segEnd) == turns
  {
    if turns != [] {
      var init, last := turns[..|turns| - 1], turns[|turns| - 1];
      assert last in turns && turns == init + [last];
      assert Relevant(last, segStart, segEnd) && ClipTurn(last, segStart, segEnd) == last;
      assert Clip(turns, segStart, segEnd) == Clip(init, segStart, segEnd) + [last];
      hide Clip, Relevant, ClipTurn;
      ClipOfInside(init, segStart, segEnd);
    }
  }

  /** Two increasing lists of the same numbers are the same list. */
  lemma {:induction false} SortedIsUnique(x: seq<int>, y: seq<int>)
    requires forall i, j :: 0 <= i < j < |x| ==> x[i] < x[j]
    requires forall i, j :: 0 <= i < j < |y| ==> y[i] < y[j]
    requires forall k :: k in x <==> k in y
    ensures x == y
  {
    assert x == [] || x[0] in x;
    assert y == [] || y[0] in y;
    if x != [] && y != [] {
      assert x[0] == y[0];
      forall k ensures k in x[1..] <==> k in y[1..] {
        assert k in x <==> k == x[0] || k in x[1..];
        assert k in y <==> k == y[0] || k in y[1..];
      }
      SortedIsUnique(x[1..], y[1..]);
      assert x == [x[0]] + x[1..] && y == [y[0]] + y[1..];
    }
  }

  /** The start of the tiling and the ends of its pieces. */
  function Ends(turns: seq<SpeakerTurn>, lo: int): (ends: seq<int>)
    ensures |ends| == |turns| + 1
  {
    seq(|turns| + 1, i requires 0 <= i <= |turns| => if i == 0 then lo else turns[i - 1].endMs)
  }

  lemma EndsAreBoundaries(turns: seq<SpeakerTurn>, lo: int, hi: int)
    requires Tiles(turns, lo, hi)
    ensures Sorted(Boundaries(turns, lo, hi)) == Ends(turns, lo)
  {
    hide Sorted, Tiles;
    var ends := Ends(turns, lo);
    forall i, j | 0 <= i < j < |ends| ensures ends[i] < ends[j] {
      NextStart(turns, j - 1, lo, hi);
      if i == 0 {
        FirstStart(turns, lo, hi, j - 1);
      } else {
        Follows(turns, lo, hi, i - 1, j - 1);
      }
    }
    forall k ensures k in ends <==> k in Boundaries(turns, lo, hi) {
      if k in ends {
        var i :| 0 <= i < |ends| && ends[i] == k;
        assert i > 0 ==> turns[i - 1] in turns;
      }
      if k in Boundaries(turns, lo, hi) {
        BoundaryIsEnd(turns, lo, hi, k);
      }
    }
    SortedIsUnique(Sorted(Boundaries(turns, lo, hi)), ends);
  }

  lemma FirstStart(turns: seq<SpeakerTurn>, lo: int, hi: int, i: nat)
    requires Tiles(turns, lo, hi) && i < |turns|
    ensures lo <= turns[i].startMs
  {
    TilesBounds(turns, lo, hi);
    assert turns[i] in turns;
  }

  lemma BoundaryIsEnd(turns: seq<SpeakerTurn>, lo: int, hi: int, k: int)
    requires Tiles(turns, lo, hi) && k in Boundaries(turns, lo, hi)
    ensures k in Ends(turns, lo)
  {
    var ends := Ends(turns, lo);
    TilesBounds(turns, lo, hi);
    assert ends[0] == lo && ends[|turns|] == hi;
    if k != lo && k != hi {
      var t :| t in turns && (t.startMs == k || t.endMs == k);
      var i :| 0 <= i < |turns| && turns[i] == t;
      assert ends[i + 1] == t.endMs;
      assert i > 0 ==> ends[i] == turns[i].startMs;
    }
  }

  /** Reconciling an already reconciled list gives it back. */
  lemma NormalizedIsFixed(turns: seq<SpeakerTurn>, segStart: int, segEnd: int, minDuration: int)
    requires turns != [] && Tiles(turns, segStart, segEnd) && Alternates(turns)
    requires forall t <- turns :: 0 <= t.speakerIndex < MAX_SPEAKERS
    requires |turns| == 1 || forall t <- turns :: t.Duration() >= Max(0, minDuration)
    ensures IsNormalized(turns, segStart, segEnd, minDuration, turns)
  {
    hide Sorted, Clip, IsPiece, Tiles, Merged, Absorbed, Boundaries;
    ClipOfTiling(turns, segStart, segEnd);
    EndsAreBoundaries(turns, segStart, segEnd);
    MergedOfAlternating(turns);
    var ends := Ends(turns, segStart);
    forall i | 0 <= i < |turns| ensures IsPiece(turns, ends[i], ends[i + 1], turns[i]) {
      TurnInside(turns, segStart, segEnd, i);
      OwnPiece(turns, segStart, segEnd, i);
    }
    assert IsSweep(turns, ends, turns);
    LongEnough(turns, Max(0, minDuration));
  }

  lemma ClipOfTiling(turns: seq<SpeakerTurn>, lo: int, hi: int)
    requires Tiles(turns, lo, hi) && forall t <- turns :: 0 <= t.speakerIndex < MAX_SPEAKERS
    ensures Clip(turns, lo, hi) == turns
  {
    TilesBounds(turns, lo, hi);
    ClipOfInside(turns, lo, hi);
  }

  lemma LongEnough(turns: seq<SpeakerTurn>, minimum: int)
    requires |turns| == 1 || forall t <- turns :: t.Duration() >= minimum
    ensures Absorbed(turns, minimum) == turns
  {
    assert forall i :: 0 <= i < |turns| ==> turns[i] in turns;
  }

  lemma OwnPiece(turns: seq<SpeakerTurn>, lo: int, hi: int, i: nat)
    requires Tiles(turns, lo, hi) && i < |turns|
    ensures IsPiece(turns, turns[i].startMs, turns[i].endMs, turns[i])
  {
    var own := turns[i];
    assert turns[..|turns|] == turns;
    Apart(turns, lo, hi, i, i);
    forall q ensures OverlapOf(turns, q, own.startMs, own.endMs) == if q == own.speakerIndex then own.Duration() else 0 {
      OnlyOwnOverlap(turns, lo, hi, i, |turns|, q);
    }
    assert own in turns && Overlap(own, own.startMs, own.endMs) > 0;
  }
}
