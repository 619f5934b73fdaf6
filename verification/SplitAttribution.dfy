/**
 Who speaks in each piece of a split segment, and where the piece lies
 (backend/diarization/turns.py, split_segment_by_speaker).
 */
module SplitAttribution {
  import opened Basics
  import opened Events
  import opened Turns
  import opened TurnProperties
  import opened TurnAttribution
  import opened SplitSegment

  /** The piece of one turn: its stamps and speaker, and the clip between those stamps as far as it reaches. */
  ghost predicate IsPart(segment: Segment, segStart: int, turn: SpeakerTurn, i: nat, piece: Segment) {
    var from, to := 16 * (turn.startMs - segStart), Min(|segment.pcm|, 16 * (turn.endMs - segStart));
    && 0 <= from < to
    && piece.pcm == segment.pcm[from..to]
    && piece.startMs == Some(turn.startMs as real) && piece.endMs == Some(turn.endMs as real)
    && piece.speakerIndex == Some(turn.speakerIndex)
    && Named(segment, i, piece)
  }

  /** The id of the segment, or a stand-in for it, with the number of the turn. */
  predicate Named(segment: Segment, i: nat, piece: Segment) {
    if segment.id == None || segment.id == Some("") then piece.id == Some("segment" + ":spk:" + Decimal(i))
    else piece.id == Some(segment.id.value + ":spk:" + Decimal(i))
  }

  lemma PieceIsPart(segment: Segment, segStart: int, turn: SpeakerTurn, i: nat, isLast: bool)
    requires segStart <= turn.startMs < turn.endMs
    ensures
      var r := Piece(segment, turn, segStart, i, isLast);
      if |segment.pcm| <= 16 * (turn.startMs - segStart) then r == []
      else |r| == 1 && IsPart(segment, segStart, turn, i, r[0])
  {
    hide SampleOffset, Decimal;
    OffsetIsExact(turn.startMs - segStart);
    OffsetIsExact(turn.endMs - segStart);
  }

  /** The pieces are those of the first turns, one each, up to where the clip ends. */
  lemma {:induction false} PiecesAreParts(segment: Segment, turns: seq<SpeakerTurn>, segStart: int, segEnd: int, n: nat)
    requires Tiles(turns, segStart, segEnd) && n <= |turns|
    ensures
      var r := Pieces(segment, turns, segStart, n);
      && |r| <= n
      && (forall i :: 0 <= i < |r| ==> IsPart(segment, segStart, turns[i], i, r[i]))
      && (|r| < n ==> |segment.pcm| <= 16 * (turns[|r|].startMs - segStart))
    decreases n
  {
    hide Piece, IsPart, Tiles;
    if n > 0 {
      PiecesAreParts(segment, turns, segStart, segEnd, n - 1);
      TurnInside(turns, segStart, segEnd, n - 1);
      PieceIsPart(segment, segStart, turns[n - 1], n - 1, n == |turns|);
      var before := Pieces(segment, turns, segStart, n - 1);
      if |before| < n - 1 {
        LaterStarts(turns, segStart, segEnd, |before|, n - 1);
      }
    }
  }

  lemma LaterStarts(turns: seq<SpeakerTurn>, lo: int, hi: int, i: nat, j: nat)
    requires Tiles(turns, lo, hi) && i < j < |turns|
    ensures turns[i].startMs < turns[j].startMs
  {
    Follows(turns, lo, hi, i, j);
    TurnInside(turns, lo, hi, i);
  }

  /** Nothing to split: no stamps, no time between them, no audio, or no turn of a known speaker in it. */
  ghost predicate Undivided(segment: Segment, turns: seq<SpeakerTurn>) {
    || segment.startMs == None || segment.endMs == None || segment.pcm == []
    || Round(segment.startMs.value) >= Round(segment.endMs.value)
    || forall t <- turns ::
         t.speakerIndex < 0 || t.speakerIndex >= MAX_SPEAKERS
         || t.endMs <= Round(segment.startMs.value) || Round(segment.endMs.value) <= t.startMs
  }

  /** The pieces follow one another from the segment's start, each with another speaker than the one before. */
  ghost predicate Chained(r: seq<Segment>, segStart: int) {
    && r != [] && r[0].startMs == Some(segStart as real)
    && forall i :: 0 < i < |r| ==> r[i].startMs == r[i - 1].endMs && r[i].speakerIndex != r[i - 1].speakerIndex
  }

  /** Whoever the reconciled turns give an instant between its stamps to is the piece's speaker. */
  ghost predicate Attributed(segment: Segment, segStart: int, normalized: seq<SpeakerTurn>, i: nat, piece: Segment)
    requires i < |normalized|
  {
    && IsPart(segment, segStart, normalized[i], i, piece)
    && forall t :: normalized[i].startMs <= t < normalized[i].endMs ==> SpeakerAt(normalized, t) == piece.speakerIndex
  }

  lemma PartIsAttributed(
    segment: Segment, segStart: int, segEnd: int, normalized: seq<SpeakerTurn>, i: nat, piece: Segment)
    requires Tiles(normalized, segStart, segEnd) && i < |normalized|
    requires IsPart(segment, segStart, normalized[i], i, piece)
    ensures Attributed(segment, segStart, normalized, i, piece)
  {
    var turn := normalized[i];
    forall t | turn.startMs <= t < turn.endMs ensures SpeakerAt(normalized, t) == Some(turn.speakerIndex) {
      OwnInstant(normalized, segStart, segEnd, i, t);
    }
  }

  lemma OwnInstant(turns: seq<SpeakerTurn>, lo: int, hi: int, i: nat, t: int)
    requires Tiles(turns, lo, hi) && i < |turns| && turns[i].startMs <= t < turns[i].endMs
    ensures SpeakerAt(turns, t) == Some(turns[i].speakerIndex)
  {
    hide Tiles, SpeakerAt;
    TurnInside(turns, lo, hi, i);
    var k := PieceAt(turns, lo, hi, t);
    if k < i {
      Follows(turns, lo, hi, k, i);
    } else if i < k {
      Follows(turns, lo, hi, i, k);
    }
  }

  /**
   A segment is split, unless there is nothing to split, into pieces that follow one another from its
   start; each carries the speaker of its instants and the audio between its stamps.
   */
  lemma SplitAttributes(segment: Segment, turns: seq<SpeakerTurn>, minDuration: int, r: seq<Segment>)
    requires IsSplit(segment, turns, minDuration, r)
    ensures
      if Undivided(segment, turns) then r == [segment]
      else
        var s, e := Round(segment.startMs.value), Round(segment.endMs.value);
        Chained(r, s)
        && exists normalized: seq<SpeakerTurn> ::
             && IsNormalized(turns, s, e, minDuration, normalized)
             && |r| <= |normalized|
             && (|r| < |normalized| ==> |segment.pcm| <= 16 * (normalized[|r|].startMs - s))
             && forall i :: 0 <= i < |r| ==> Attributed(segment, s, normalized, i, r[i])
  {
    hide IsNormalized, Pieces, Attributed, IsPart, SpeakerAt, Round;
    if segment.startMs.Some? && segment.endMs.Some? && turns != [] {
      var s, e := Round(segment.startMs.value), Round(segment.endMs.value);
      var normalized :| IsNormalized(turns, s, e, minDuration, normalized)
                        && r == (if Pieces(segment, normalized, s, |normalized|) == [] then [segment]
                                 else Pieces(segment, normalized, s, |normalized|));
      NormalizedShape(turns, s, e, minDuration, normalized);
      ClipNothing(turns, s, e);
      if normalized == [] {
        NoPieces(segment, normalized, s);
      } else if s >= e {
        BackwardIsEmpty(segment, normalized, s, e, |normalized|);
      } else {
        PiecesAreParts(segment, normalized, s, e, |normalized|);
        TurnInside(normalized, s, e, 0);
        if segment.pcm != [] {
          forall i | 0 <= i < |r| ensures Attributed(segment, s, normalized, i, r[i]) {
            PartIsAttributed(segment, s, e, normalized, i, r[i]);
          }
          PartsChain(segment, s, e, normalized, r);
        } else {
          NothingFits(segment, s, e, normalized);
        }
      }
    }
  }

  lemma NothingFits(segment: Segment, segStart: int, segEnd: int, normalized: seq<SpeakerTurn>)
    requires Tiles(normalized, segStart, segEnd) && segment.pcm == []
    ensures Pieces(segment, normalized, segStart, |normalized|) == []
  {
    hide Pieces;
    PiecesAreParts(segment, normalized, segStart, segEnd, |normalized|);
    var r := Pieces(segment, normalized, segStart, |normalized|);
    assert r != [] ==> IsPart(segment, segStart, normalized[0], 0, r[0]);
  }

  lemma PartsChain(segment: Segment, segStart: int, segEnd: int, normalized: seq<SpeakerTurn>, r: seq<Segment>)
    requires Tiles(normalized, segStart, segEnd) && Alternates(normalized) && 0 < |r| <= |normalized|
    requires forall i :: 0 <= i < |r| ==> IsPart(segment, segStart, normalized[i], i, r[i])
    ensures Chained(r, segStart)
  {
    hide Tiles;
    TurnInside(normalized, segStart, segEnd, 0);
    assert IsPart(segment, segStart, normalized[0], 0, r[0]);
    forall i | 0 < i < |r| ensures r[i].startMs == r[i - 1].endMs && r[i].speakerIndex != r[i - 1].speakerIndex {
      TurnInside(normalized, segStart, segEnd, i);
      assert IsPart(segment, segStart, normalized[i - 1], i - 1, r[i - 1]);
    }
  }

  /** No clipped turn is left exactly if no known speaker's turn meets the segment. */
  lemma {:induction false} ClipNothing(turns: seq<SpeakerTurn>, segStart: int, segEnd: int)
    ensures Clip(turns, segStart, segEnd) == [] <==>
      forall t <- turns ::
        t.speakerIndex < 0 || t.speakerIndex >= MAX_SPEAKERS || t.endMs <= segStart || segEnd <= t.startMs
  {
    if turns != [] {
      var init, last := turns[..|turns| - 1], turns[|turns| - 1];
      ClipNothing(init, segStart, segEnd);
      assert turns == init + [last];
    }
  }

  // ----- The names of the pieces

  /** The number a string of digits stands for. */
  function ValueOf(digits: string): int {
    if digits == "" then 0 else 10 * ValueOf(digits[..|digits| - 1]) + (digits[|digits| - 1] as int - '0' as int)
  }

  lemma {:induction false} DecimalIsValue(n: nat)
    ensures ValueOf(Decimal(n)) == n
  {
    if n < 10 {
      assert Decimal(n)[..0] == "";
    } else {
      DecimalIsValue(n / 10);
      assert Decimal(n % 10)[..0] == "";
      var s := Decimal(n);
      assert s[..|s| - 1] == Decimal(n / 10) && s[|s| - 1] == Decimal(n % 10)[0];
      assert ValueOf(Decimal(n % 10)) == n % 10;
    }
  }
}
