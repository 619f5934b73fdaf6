/** What reconciling speaker turns guarantees (backend/diarization/turns.py, _normalize_turns). */
module TurnProperties {
  import opened Basics
  import opened Turns

  // ----- Tilings

  /** The pieces cover [lo, hi) in order, without gaps or overlaps. */
  ghost predicate Tiles(pieces: seq<SpeakerTurn>, lo: int, hi: int) {
    if pieces == [] then lo == hi
    else
      var last := pieces[|pieces| - 1];
      last.startMs < last.endMs == hi && Tiles(pieces[..|pieces| - 1], lo, last.startMs)
  }

  /** Neighbouring pieces have different speakers. */
  ghost predicate Alternates(pieces: seq<SpeakerTurn>) {
    forall i :: 0 < i < |pieces| ==> pieces[i - 1].speakerIndex != pieces[i].speakerIndex
  }

  /** The speaker to whom instant t is attributed. */
  function SpeakerAt(pieces: seq<SpeakerTurn>, t: int): Option<int> {
    if pieces == [] then None
    else
      var last := pieces[|pieces| - 1];
      if last.startMs <= t < last.endMs then Some(last.speakerIndex) else SpeakerAt(pieces[..|pieces| - 1], t)
  }

  ghost predicate SpeakersFrom(pieces: seq<SpeakerTurn>, turns: seq<SpeakerTurn>) {
    forall p <- pieces :: exists t :: t in turns && t.speakerIndex == p.speakerIndex
  }

  /** No instant outside [lo, hi) is attributed, and every one inside is. */
  lemma {:induction false} TilesBounds(pieces: seq<SpeakerTurn>, lo: int, hi: int)
    requires Tiles(pieces, lo, hi)
    ensures lo <= hi && (pieces == [] <==> lo == hi)
    ensures forall t :: SpeakerAt(pieces, t).Some? <==> lo <= t < hi
    ensures forall p <- pieces :: lo <= p.startMs < p.endMs <= hi
    ensures pieces != [] ==> pieces[0].startMs == lo && pieces[|pieces| - 1].endMs == hi
    ensures forall i :: 0 < i < |pieces| ==> pieces[i - 1].endMs == pieces[i].startMs
  {
    if pieces != [] {
      var init, last := pieces[..|pieces| - 1], pieces[|pieces| - 1];
      TilesBounds(init, lo, last.startMs);
      assert pieces == init + [last];
    }
  }

  lemma {:induction false} TilesAppend(a: seq<SpeakerTurn>, b: seq<SpeakerTurn>, lo: int, mid: int, hi: int)
    requires Tiles(a, lo, mid) && Tiles(b, mid, hi)
    ensures Tiles(a + b, lo, hi)
    ensures forall t :: SpeakerAt(a + b, t) == if t < mid then SpeakerAt(a, t) else SpeakerAt(b, t)
    decreases |b|
  {
    TilesBounds(a, lo, mid);
    TilesBounds(b, mid, hi);
    if b == [] {
      assert a + b == a;
    } else {
      var init, last := b[..|b| - 1], b[|b| - 1];
      assert (a + b)[..|a + b| - 1] == a + init;
      TilesAppend(a, init, lo, mid, last.startMs);
      TilesBounds(init, mid, last.startMs);
    }
  }

  lemma {:induction false} TilesSplit(pieces: seq<SpeakerTurn>, k: nat, lo: int, hi: int)
    requires k <= |pieces| && Tiles(pieces, lo, hi)
    ensures var mid := if k == |pieces| then hi else pieces[k].startMs;
      Tiles(pieces[..k], lo, mid) && Tiles(pieces[k..], mid, hi)
    decreases |pieces|
  {
    if k == |pieces| {
      assert pieces[..k] == pieces;
    } else {
      var init, last := pieces[..|pieces| - 1], pieces[|pieces| - 1];
      TilesSplit(init, k, lo, last.startMs);
      assert init[..k] == pieces[..k];
      assert pieces[k..][..|pieces[k..]| - 1] == init[k..];
    }
  }

  // ----- Merging neighbours

  /** Merging keeps the tiling and every attribution, and leaves no equal neighbours. */
  lemma {:induction false} MergedKeeps(pieces: seq<SpeakerTurn>, lo: int, hi: int)
    requires Tiles(pieces, lo, hi)
    ensures Tiles(Merged(pieces), lo, hi) && Alternates(Merged(pieces))
    ensures forall t :: SpeakerAt(Merged(pieces), t) == SpeakerAt(pieces, t)
    ensures forall m <- Merged(pieces) :: exists p :: p in pieces && p.speakerIndex == m.speakerIndex
  {
    if pieces != [] {
      var init, last := pieces[..|pieces| - 1], pieces[|pieces| - 1];
      MergedKeeps(init, lo, last.startMs);
      JoinKeeps(Merged(init), last, lo, last.startMs);
      forall m <- Merged(pieces) ensures exists p :: p in pieces && p.speakerIndex == m.speakerIndex {
        if m.speakerIndex == last.speakerIndex {
          assert last in pieces;
        } else {
          assert m in Merged(init);
          var p :| p in init && p.speakerIndex == m.speakerIndex;
          assert p in pieces;
        }
      }
    }
  }

  lemma JoinKeeps(merged: seq<SpeakerTurn>, piece: SpeakerTurn, lo: int, mid: int)
    requires Tiles(merged, lo, mid) && Alternates(merged) && piece.startMs == mid < piece.endMs
    ensures var r := JoinPiece(merged, piece);
      && Tiles(r, lo, piece.endMs) && Alternates(r)
      && (forall t :: SpeakerAt(r, t) == if mid <= t < piece.endMs then Some(piece.speakerIndex) else SpeakerAt(merged, t))
      && forall m <- r :: m.speakerIndex == piece.speakerIndex || m in merged
  {
    var r := JoinPiece(merged, piece);
    TilesBounds(merged, lo, mid);
    if |r| == |merged| {
      var last := |r| - 1;
      assert r[..last] == merged[..last];
      TilesBounds(merged[..last], lo, merged[last].startMs);
    } else {
      assert r[..|r| - 1] == merged;
    }
  }

  lemma {:induction false} MergedOfAlternating(pieces: seq<SpeakerTurn>)
    requires Alternates(pieces)
    ensures Merged(pieces) == pieces
  {
    if pieces != [] {
      var init, last := pieces[..|pieces| - 1], pieces[|pieces| - 1];
      MergedOfAlternating(init);
      assert pieces == init + [last];
    }
  }

  // ----- Absorbing

  /** Two neighbouring pieces p, q become one of the same extent. */
  lemma JoinTwo(a: seq<SpeakerTurn>, p: SpeakerTurn, q: SpeakerTurn, speaker: int, b: seq<SpeakerTurn>, lo: int, hi: int)
    requires Tiles(a, lo, p.startMs) && Tiles(b, q.endMs, hi) && p.startMs < p.endMs == q.startMs < q.endMs
    ensures
      var r := (a + [SpeakerTurn(p.startMs, q.endMs, speaker)]) + b;
      && Tiles(r, lo, hi)
      && forall t ::
           SpeakerAt(r, t) == if p.startMs <= t < q.endMs then Some(speaker) else SpeakerAt((a + [p, q]) + b, t)
    ensures forall t :: p.startMs <= t < p.endMs ==> SpeakerAt((a + [p, q]) + b, t) == Some(p.speakerIndex)
    ensures forall t :: q.startMs <= t < q.endMs ==> SpeakerAt((a + [p, q]) + b, t) == Some(q.speakerIndex)
  {
    hide Tiles, SpeakerAt;
    var joint := SpeakerTurn(p.startMs, q.endMs, speaker);
    TilesOne(joint);
    TilesTwo(p, q);
    TilesAppend(a, [joint], lo, p.startMs, q.endMs);
    TilesAppend(a + [joint], b, lo, q.endMs, hi);
    TilesAppend(a, [p, q], lo, p.startMs, q.endMs);
    TilesAppend(a + [p, q], b, lo, q.endMs, hi);
  }

  /** One absorption: the short piece's time goes to the neighbour with more of it, and nothing else changes. */
  lemma AbsorbStepKeeps(pieces: seq<SpeakerTurn>, short: nat, lo: int, hi: int)
    requires short < |pieces| && |pieces| > 1 && Tiles(pieces, lo, hi)
    ensures
      var r, s, target := AbsorbStep(pieces, short), pieces[short], Target(pieces, short);
      && Tiles(r, lo, hi)
      && (forall t :: SpeakerAt(r, t)
                   == if s.startMs <= t < s.endMs then Some(pieces[target].speakerIndex) else SpeakerAt(pieces, t))
      && (0 < short < |pieces| - 1 ==>
           pieces[target].Duration() >= pieces[short - 1].Duration()
           && pieces[target].Duration() >= pieces[short + 1].Duration())
  {
    var target := Target(pieces, short);
    var low, high := Min(short, target), Max(short, target);
    var a, b, p, q := pieces[..low], pieces[high + 1..], pieces[low], pieces[high];
    AbsorbIsJoin(pieces, short, lo, hi);
    hide AbsorbStep, Tiles, SpeakerAt;
    TilesSplit(pieces, low, lo, hi);
    TilesSplit(pieces, high + 1, lo, hi);
    NextStart(pieces, high, lo, hi);
    NextStart(pieces, low, lo, hi);
    JoinTwo(a, p, q, pieces[target].speakerIndex, b, lo, hi);
  }

  lemma AbsorbIsJoin(pieces: seq<SpeakerTurn>, short: nat, lo: int, hi: int)
    requires short < |pieces| && |pieces| > 1 && Tiles(pieces, lo, hi)
    ensures
      var target := Target(pieces, short);
      var low, high := Min(short, target), Max(short, target);
      && 0 <= low && high == low + 1 < |pieces|
      && AbsorbStep(pieces, short)
         == (pieces[..low] + [SpeakerTurn(pieces[low].startMs, pieces[high].endMs, pieces[target].speakerIndex)])
            + pieces[high + 1..]
      && pieces == (pieces[..low] + [pieces[low], pieces[high]]) + pieces[high + 1..]
  {
    var target := Target(pieces, short);
    NextStart(pieces, Min(short, target), lo, hi);
    NextStart(pieces, Max(short, target), lo, hi);
  }

  lemma NextStart(pieces: seq<SpeakerTurn>, k: nat, lo: int, hi: int)
    requires Tiles(pieces, lo, hi) && k < |pieces|
    ensures pieces[k].endMs == if k + 1 == |pieces| then hi else pieces[k + 1].startMs
    ensures pieces[k].startMs < pieces[k].endMs
  {
    TilesBounds(pieces, lo, hi);
    if k + 1 < |pieces| {
      assert pieces[k + 1 - 1].endMs == pieces[k + 1].startMs;
    }
    assert pieces[k] in pieces;
  }

  lemma AbsorbStepSpeakers(pieces: seq<SpeakerTurn>, short: nat)
    requires short < |pieces| && |pieces| > 1
    ensures forall m <- AbsorbStep(pieces, short) :: exists p :: p in pieces && p.speakerIndex == m.speakerIndex
  {
    assert pieces[Target(pieces, short)] in pieces;
  }

  lemma TilesOne(p: SpeakerTurn)
    requires p.startMs < p.endMs
    ensures Tiles([p], p.startMs, p.endMs)
    ensures forall t :: SpeakerAt([p], t) == if p.startMs <= t < p.endMs then Some(p.speakerIndex) else None
  {
    assert [p][..0] == [];
  }

  lemma TilesTwo(p: SpeakerTurn, q: SpeakerTurn)
    requires p.startMs < p.endMs == q.startMs < q.endMs
    ensures Tiles([p, q], p.startMs, q.endMs)
    ensures forall t ::
      SpeakerAt([p, q], t)
      == (if q.startMs <= t < q.endMs then Some(q.speakerIndex)
          else if p.startMs <= t < p.endMs then Some(p.speakerIndex) else None)
  {
    assert [p, q][..1] == [p];
    TilesOne(p);
  }

  /** After absorption the pieces still tile, alternate, and are long enough unless only one is left. */
  lemma {:induction false} AbsorbedKeeps(pieces: seq<SpeakerTurn>, minimum: int, lo: int, hi: int)
    requires Tiles(pieces, lo, hi) && Alternates(pieces)
    ensures
      var r := Absorbed(pieces, minimum);
      && Tiles(r, lo, hi) && Alternates(r)
      && (|r| <= 1 || forall p <- r :: p.Duration() >= minimum)
      && forall m <- r :: exists p :: p in pieces && p.speakerIndex == m.speakerIndex
    decreases |pieces|
  {
    if |pieces| > 1 {
      var found := ShortIndex(pieces, minimum);
      if found.Some? {
        var step := AbsorbStep(pieces, found.value);
        AbsorbStepKeeps(pieces, found.value, lo, hi);
        AbsorbStepSpeakers(pieces, found.value);
        MergedKeeps(step, lo, hi);
        AbsorbedKeeps(Merged(step), minimum, lo, hi);
      }
    }
  }

  // ----- The whole reconciliation

  lemma {:induction false} ClippedIsInside(turns: seq<SpeakerTurn>, segStart: int, segEnd: int)
    ensures forall t <- Clip(turns, segStart, segEnd) ::
      && 0 <= t.speakerIndex < MAX_SPEAKERS
      && Min(segStart, segEnd) <= t.startMs <= Max(segStart, segEnd)
      && Min(segStart, segEnd) <= t.endMs <= Max(segStart, segEnd)
  {
    if turns != [] {
      ClippedIsInside(turns[..|turns| - 1], segStart, segEnd);
    }
  }

  /** The boundaries run from the earlier segment end to the later one. */
  lemma BoundariesSpan(clipped: seq<SpeakerTurn>, turns: seq<SpeakerTurn>, segStart: int, segEnd: int)
    requires clipped == Clip(turns, segStart, segEnd)
    ensures
      var bounds := Sorted(Boundaries(clipped, segStart, segEnd));
      && bounds != [] && bounds[0] == Min(segStart, segEnd) && bounds[|bounds| - 1] == Max(segStart, segEnd)
      && (|bounds| == 1 <==> segStart == segEnd)
  {
    hide Sorted, Clip;
    ClippedIsInside(turns, segStart, segEnd);
    var bounds := Sorted(Boundaries(clipped, segStart, segEnd));
    assert segStart in bounds && segEnd in bounds;
    assert bounds[0] in Boundaries(clipped, segStart, segEnd);
    assert bounds[|bounds| - 1] in Boundaries(clipped, segStart, segEnd);
  }

  lemma {:induction false} SweepTiles(turns: seq<SpeakerTurn>, bounds: seq<int>, pieces: seq<SpeakerTurn>)
    requires IsSweepPrefix(turns, bounds, pieces) && bounds != []
    requires forall i, j :: 0 <= i < j < |bounds| ==> bounds[i] < bounds[j]
    ensures Tiles(pieces, bounds[0], bounds[|pieces|])
    decreases |pieces|
  {
    if pieces != [] {
      SweepTiles(turns, bounds, pieces[..|pieces| - 1]);
    }
  }

  lemma ChosenSpeaks(turns: seq<SpeakerTurn>, a: int, b: int, piece: SpeakerTurn)
    requires IsPiece(turns, a, b, piece)
    ensures exists t :: t in turns && t.speakerIndex == piece.speakerIndex
  {
    OverlapHasTurn(turns, piece.speakerIndex, a, b);
  }

  /** The merged sweep tiles the segment with speakers of the clipped turns. */
  lemma SweepShape(turns: seq<SpeakerTurn>, segStart: int, segEnd: int, pieces: seq<SpeakerTurn>)
    requires IsSweep(Clip(turns, segStart, segEnd), Sorted(Boundaries(Clip(turns, segStart, segEnd), segStart, segEnd)), pieces)
    ensures Tiles(pieces, Min(segStart, segEnd), Max(segStart, segEnd))
    ensures Tiles(Merged(pieces), Min(segStart, segEnd), Max(segStart, segEnd)) && Alternates(Merged(pieces))
    ensures SpeakersFrom(Merged(pieces), Clip(turns, segStart, segEnd))
  {
    hide IsPiece, IsChosen;
    var clipped := Clip(turns, segStart, segEnd);
    var bounds := Sorted(Boundaries(clipped, segStart, segEnd));
    BoundariesSpan(clipped, turns, segStart, segEnd);
    SweepTiles(clipped, bounds, pieces);
    MergedKeeps(pieces, bounds[0], bounds[|pieces|]);
    forall m <- Merged(pieces) ensures exists t :: t in clipped && t.speakerIndex == m.speakerIndex {
      var p :| p in pieces && p.speakerIndex == m.speakerIndex;
      var i :| 0 <= i < |pieces| && pieces[i] == p;
      ChosenSpeaks(clipped, bounds[i], bounds[i + 1], pieces[i]);
    }
  }

  /**
   The promise of _normalize_turns: nothing, exactly if no turn is relevant or the segment is empty;
   otherwise an exact tiling of the segment by alternating speakers of its clipped turns, no piece
   shorter than the minimum unless a single one is left.
   */
  lemma NormalizedShape(turns: seq<SpeakerTurn>, segStart: int, segEnd: int, minDuration: int, r: seq<SpeakerTurn>)
    requires IsNormalized(turns, segStart, segEnd, minDuration, r)
    ensures r == [] <==> Clip(turns, segStart, segEnd) == [] || segStart == segEnd
    ensures r != [] ==>
      && Tiles(r, Min(segStart, segEnd), Max(segStart, segEnd)) && Alternates(r)
      && SpeakersFrom(r, Clip(turns, segStart, segEnd))
      && (|r| == 1 || forall p <- r :: p.Duration() >= Max(0, minDuration))
  {
    hide IsSweep, Merged, Absorbed;
    var clipped := Clip(turns, segStart, segEnd);
    if clipped != [] {
      var lo, hi := Min(segStart, segEnd), Max(segStart, segEnd);
      var pieces :| IsSweep(clipped, Sorted(Boundaries(clipped, segStart, segEnd)), pieces)
                    && r == Merged(Absorbed(Merged(pieces), Max(0, minDuration)));
      SweepShape(turns, segStart, segEnd, pieces);
      AbsorbedKeeps(Merged(pieces), Max(0, minDuration), lo, hi);
      MergedOfAlternating(Absorbed(Merged(pieces), Max(0, minDuration)));
      TilesBounds(r, lo, hi);
      assert SpeakersFrom(r, clipped);
    }
  }
}
