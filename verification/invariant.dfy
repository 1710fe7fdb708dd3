/**
  What holds of every board a game can produce: a fresh board, then
  `StartAt`, then any run of successful `NextMove`s. The labels on such a
  board are exactly 1..score, each on one cell, and the cursor holds the
  score.
 */
module Invariant {
  import opened Directions
  import opened Boards

  /** The placement invariant of a reachable board. */
  predicate Inv(b: Board)
  {
    && b.Valid()
    && Score(b) <= AsU8(b.cells)
    && ValueAt(b, b.x, b.y) == Score(b)
    && (forall v: u8 :: 1 <= v <= Score(b) ==> multiset(b.values)[v] == 1)
    && multiset(b.values)[0] == b.cells - Score(b)
  }

  /** A sequence of `n` zero bytes holds `n` zeros. */
  lemma {:induction false} ZerosCount(s: seq<u8>)
    requires forall i :: 0 <= i < |s| ==> s[i] == 0
    ensures multiset(s)[0] == |s|
  {
    if |s| > 0 {
      ZerosCount(s[1..]);
      assert s == [s[0]] + s[1..];
    }
  }

  /** A fresh board satisfies the invariant; it is not started, scores 0,
      is not won (for size 16 only because a cell is empty) and offers no
      move. */
  lemma NewBoardIsEmpty(size: nat)
    ensures Inv(New(size))
    ensures !IsStarted(New(size)) && Score(New(size)) == 0
    ensures !IsWon(New(size))
    ensures PossibleMoves(New(size)) == []
  {
    var b := New(size);
    ScoreIsMaximum(b, 0);
    ZerosCount(b.values);
    assert b.values[0] == 0;
  }

  /** Writing the label that follows the score into an empty cell keeps the
      invariant. */
  lemma PlaceNextKeepsInv(b: Board, x: nat, y: nat, b': Board)
    requires Inv(b)
    requires Score(b) < 255
    requires SetValue(b, x, y, Score(b) + 1) == Ok(b')
    ensures Inv(b')
    ensures Score(b') == Score(b) + 1
  {
    var v: u8 := Score(b) + 1;
    CellIndexInRange(b.size, x, y);
    var k := y * b.size + x;
    assert b.values[k] == 0;
    assert b'.values == b.values[k := v];
    UpdateCounts(b.values, k, v);
    var m, m' := multiset(b.values), multiset(b'.values);
    assert m[v] == 0;
    forall w: u8 | 1 <= w <= v
      ensures m'[w] == 1
    {
      if w < v {
        assert m'[w] == m[w];
      }
    }
  }

  /** Overwriting one element of a sequence swaps one occurrence in its
      multiset. */
  lemma UpdateCounts(s: seq<u8>, k: nat, v: u8)
    requires k < |s|
    ensures multiset(s[k := v]) == multiset(s) - multiset{s[k]} + multiset{v}
  {
    assert s == s[..k] + [s[k]] + s[k + 1..];
    assert s[k := v] == s[..k] + [v] + s[k + 1..];
  }

  /** An empty cell on a reachable board leaves room for the next label:
      the score is below the byte-truncated cell count. */
  lemma EmptyCellLeavesRoom(b: Board, x: nat, y: nat)
    requires Inv(b) && IsStarted(b) && x < b.size && y < b.size
    requires ValueAt(b, x, y) == 0
    ensures Score(b) < AsU8(b.cells) && Score(b) < 255
  {
    CellBytes(b.size);
    assert 0 in multiset(b.values);
  }

  /** On a reachable board a jump succeeds exactly when `ValidMove` finds a
      target, and it writes the score plus one there: the byte addition
      never wraps. */
  lemma NextMoveKeepsInv(b: Board, d: Direction)
    requires Inv(b)
    ensures NextMove(b, d).Ok? <==> ValidMove(b, d).Some?
    ensures NextMove(b, d).Ok? ==>
      && Inv(NextMove(b, d).value)
      && Score(NextMove(b, d).value) == Score(b) + 1
      && ValueAt(b, b.x, b.y) + 1 == Score(b) + 1 <= b.cells
  {
    var mv := ValidMove(b, d);
    if mv.Some? {
      var (tx, ty) := mv.value;
      EmptyCellLeavesRoom(b, tx, ty);
      var v := AsU8(ValueAt(b, b.x, b.y) + 1);
      assert v == Score(b) + 1;
      assert NextMove(b, d) == SetValue(b, tx, ty, v);
      PlaceNextKeepsInv(b, tx, ty, NextMove(b, d).value);
    }
  }

  /** Starting a fresh (or any unstarted reachable) board keeps the
      invariant and yields score 1. */
  lemma StartAtKeepsInv(b: Board, x: nat, y: nat)
    requires Inv(b)
    ensures StartAt(b, x, y).Ok? ==> Inv(StartAt(b, x, y).value) && Score(StartAt(b, x, y).value) == 1
  {
    if StartAt(b, x, y).Ok? {
      PlaceNextKeepsInv(b, x, y, StartAt(b, x, y).value);
    }
  }

  /** Starting a fresh board writes label 1 into an otherwise empty grid. */
  lemma StartFresh(size: nat, x: nat, y: nat)
    requires 5 <= size < 16 && x < size && y < size
    ensures StartAt(New(size), x, y) == Ok(Write(New(size), x, y, 1))
  {
    var b := New(size);
    NewBoardIsEmpty(size);
    CellBytes(size);
    CellIndexInRange(size, x, y);
    assert ValueAt(b, x, y) == 0;
    SetValueWrites(b, x, y, 1);
  }

  /** Starting a fresh board leaves exactly one label, 1, under the cursor;
      every other cell stays empty, so the board is not won. */
  lemma StartLeavesOneLabel(size: nat, x: nat, y: nat)
    requires 5 <= size < 16 && x < size && y < size
    ensures StartAt(New(size), x, y).Ok?
    ensures var b := StartAt(New(size), x, y).value;
      && b.size == size && b.x == x && b.y == y
      && IsStarted(b) && Score(b) == 1 && ValueAt(b, x, y) == 1 && !IsWon(b)
      && forall i :: 0 <= i < |b.values| && i != y * size + x ==> b.values[i] == 0
  {
    StartFresh(size, x, y);
    var b := StartAt(New(size), x, y).value;
    var other := if y * size + x == 0 then 1 else 0;
    assert b.values[other] == 0;
  }

  /** On a board whose only label sits under the cursor, every other
      on-board cell is empty. */
  lemma LoneLabelOthersEmpty(b: Board, tx: nat, ty: nat)
    requires b.Valid() && tx < b.size && ty < b.size && (tx, ty) != (b.x, b.y)
    requires forall i :: 0 <= i < |b.values| && i != b.y * b.size + b.x ==> b.values[i] == 0
    ensures ValueAt(b, tx, ty) == 0
  {
    OtherIndicesZero(b.values, b.size, b.x, b.y, tx, ty);
  }

  /** The flat-index form of `LoneLabelOthersEmpty`. */
  lemma OtherIndicesZero(values: seq<u8>, size: nat, x: nat, y: nat, tx: nat, ty: nat)
    requires |values| == size * size && x < size && y < size && tx < size && ty < size
    requires (tx, ty) != (x, y)
    requires forall i :: 0 <= i < |values| && i != y * size + x ==> values[i] == 0
    ensures ty * size + tx < |values| && values[ty * size + tx] == 0
  {
    CellIndexInRange(size, tx, ty);
    DistinctCellsDistinctIndices(size, x, y, tx, ty);
  }

  /** From a lone label, a direction is possible exactly when its jump stays
      on the board. */
  lemma LoneLabelMoves(b: Board, d: Direction)
    requires b.Valid() && IsStarted(b)
    requires forall i :: 0 <= i < |b.values| && i != b.y * b.size + b.x ==> b.values[i] == 0
    ensures d in PossibleMoves(b) <==>
      0 <= b.x + Offset(d).0 < b.size && 0 <= b.y + Offset(d).1 < b.size
  {
    var dx, dy := Offset(d).0, Offset(d).1;
    if 0 <= b.x + dx < b.size && 0 <= b.y + dy < b.size {
      assert (dx, dy) != (0, 0) by { OffsetsAreDistinctJumps(); }
      LoneLabelOthersEmpty(b, b.x + dx, b.y + dy);
      assert ValidMove(b, d).Some?;
    } else {
      assert ValidMove(b, d).None?;
    }
  }

  /** Right after a start, the possible moves are exactly the directions
      whose jump stays on the board. */
  lemma StartMovesAreInBounds(size: nat, x: nat, y: nat, d: Direction)
    requires 5 <= size < 16 && x < size && y < size
    ensures StartAt(New(size), x, y).Ok?
    ensures d in PossibleMoves(StartAt(New(size), x, y).value) <==>
      0 <= x + Offset(d).0 < size && 0 <= y + Offset(d).1 < size
  {
    StartLeavesOneLabel(size, x, y);
    LoneLabelMoves(StartAt(New(size), x, y).value, d);
  }

  /** Applies the moves in order, stopping at the first error. */
  function Advance(b: Board, moves: seq<Direction>): (r: Result<Board>)
    requires b.Valid()
    ensures r.Ok? ==> r.value.Valid() && r.value.size == b.size
    decreases |moves|
  {
    if |moves| == 0 then Ok(b)
    else match NextMove(b, moves[0])
      case Err(e) => Err(e)
      case Ok(b') => Advance(b', moves[1..])
  }

  /** Applying one more move after a run is the run followed by that move. */
  lemma {:induction false} AdvanceSnoc(b: Board, s: seq<Direction>, d: Direction)
    requires b.Valid()
    ensures Advance(b, s + [d]) ==
      if Advance(b, s).Ok? then NextMove(Advance(b, s).value, d) else Advance(b, s)
    decreases |s|
  {
    if |s| == 0 {
      assert s + [d] == [d];
    } else {
      assert (s + [d])[0] == s[0];
      assert (s + [d])[1..] == s[1..] + [d];
      match NextMove(b, s[0])
      case Err(_) =>
      case Ok(b') => AdvanceSnoc(b', s[1..], d);
    }
  }

  /** A run that reaches `mid`, followed by a move from `mid` to `next`,
      reaches `next`. */
  lemma AdvanceThen(b: Board, s: seq<Direction>, d: Direction, mid: Board, next: Board)
    requires b.Valid()
    requires Advance(b, s) == Ok(mid) && NextMove(mid, d) == Ok(next)
    ensures Advance(b, s + [d]) == Ok(next)
  {
    AdvanceSnoc(b, s, d);
  }

  /** Starts a fresh board of the given size at (x, y), then applies the
      moves. */
  function Play(size: nat, x: nat, y: nat, moves: seq<Direction>): (r: Result<Board>)
    ensures r.Ok? ==> r.value.Valid() && r.value.size == New(size).size < 16
  {
    NewBoardIsEmpty(size);
    match StartAt(New(size), x, y)
    case Err(e) => Err(e)
    case Ok(b) => Advance(b, moves)
  }

  /** A run of successful moves never rewrites a labelled cell. */
  lemma {:induction false} AdvanceKeepsLabels(b: Board, moves: seq<Direction>, cx: nat, cy: nat)
    requires b.Valid() && Advance(b, moves).Ok?
    requires cx < b.size && cy < b.size && ValueAt(b, cx, cy) != 0
    ensures ValueAt(Advance(b, moves).value, cx, cy) == ValueAt(b, cx, cy)
    decreases |moves|
  {
    if |moves| > 0 {
      var step := NextMove(b, moves[0]);
      assert step.Ok?;
      var t := ValidMove(b, moves[0]).value;
      PlacedKeepsLabel(b, step.value, t.0, t.1, AsU8(ValueAt(b, b.x, b.y) + 1), cx, cy);
      AdvanceKeepsLabels(step.value, moves[1..], cx, cy);
    }
  }

  /** Every successful move adds one to the score and keeps the invariant. */
  lemma {:induction false} AdvanceKeepsInv(b: Board, moves: seq<Direction>)
    requires Inv(b)
    requires Advance(b, moves).Ok?
    ensures Inv(Advance(b, moves).value)
    ensures Score(Advance(b, moves).value) == Score(b) + |moves|
    decreases |moves|
  {
    if |moves| > 0 {
      var step := NextMove(b, moves[0]);
      assert step.Ok?;
      NextMoveKeepsInv(b, moves[0]);
      assert Advance(b, moves) == Advance(step.value, moves[1..]);
      AdvanceKeepsInv(step.value, moves[1..]);
    }
  }

  /** A board reached by a game holds the invariant, has a score one more
      than the number of moves, was at most 15 cells wide, and cannot be
      started a second time. */
  lemma Reachable(size: nat, x: nat, y: nat, moves: seq<Direction>, x': nat, y': nat)
    requires Play(size, x, y, moves).Ok?
    ensures var b := Play(size, x, y, moves).value;
      && Inv(b)
      && IsStarted(b)
      && Score(b) == |moves| + 1
      && b.size < 16
      && StartAt(b, x', y').Err?
  {
    NewBoardIsEmpty(size);
    StartAtKeepsInv(New(size), x, y);
    AdvanceKeepsInv(StartAt(New(size), x, y).value, moves);
  }

  /** A 16 x 16 board cannot even be started: its 256 cells truncate to a
      byte limit of 0. */
  lemma Size16NeverStarts(size: nat, x: nat, y: nat, moves: seq<Direction>)
    requires size >= 16 && x < 16 && y < 16
    ensures Play(size, x, y, moves) == Err(TooLarge)
  {
    NewBoardIsEmpty(size);
  }

  /** A count of at least two for any value repeated in a sequence. */
  lemma RepeatCounted(s: seq<u8>, i: nat, j: nat)
    requires i < j < |s| && s[i] == s[j]
    ensures multiset(s)[s[i]] >= 2
  {
    assert s == s[..i] + [s[i]] + s[i+1..j] + [s[j]] + s[j+1..];
  }

  /** No label appears on two cells of a reachable board, and the labels
      present are exactly 1..score. */
  lemma LabelsAreDistinct(b: Board)
    requires Inv(b)
    ensures forall i, j :: 0 <= i < j < |b.values| && b.values[i] != 0 ==> b.values[i] != b.values[j]
    ensures forall v: u8 :: v in b.values && v != 0 <==> 1 <= v <= Score(b)
  {
    forall i, j | 0 <= i < j < |b.values| && b.values[i] != 0
      ensures b.values[i] != b.values[j]
    {
      if b.values[i] == b.values[j] {
        RepeatCounted(b.values, i, j);
      }
    }
    forall v: u8
      ensures v in b.values && v != 0 <==> 1 <= v <= Score(b)
    {
      if 1 <= v <= Score(b) {
        assert v in multiset(b.values);
      }
    }
  }

  /** On a reachable board, won means exactly that every cell is labelled. */
  lemma WonIffFull(b: Board)
    requires Inv(b)
    ensures IsWon(b) <==> Score(b) == b.cells
  {
    CellBytes(b.size);
    if b.size == 16 {
      assert Score(b) == 0;
      assert ValueAt(b, b.x, b.y) in b.values;
      assert !IsWon(b);
    } else {
      assert AsU8(b.cells) == b.cells;
      if Score(b) == b.cells {
        assert multiset(b.values)[0] == 0;
        assert 0 !in b.values;
      }
    }
  }
}
