/**
  Scenarios taken from the repository's own tests: a fresh 10 x 10 board
  started in the middle, and a complete 24-move game on a 5 x 5 board.
 */
module Scenarios {
  import opened Directions
  import opened Boards
  import opened Invariant
  import opened Tours

  /** When every jump is valid, the possible moves from index k on are the
      rest of the enumeration. */
  lemma {:induction false} EveryJumpValid(b: Board, k: nat)
    requires b.Valid() && k <= |All|
    requires forall d :: ValidMove(b, d).Some?
    ensures MovesFrom(b, k) == All[k..]
    decreases |All| - k
  {
    if k < |All| {
      EveryJumpValid(b, k + 1);
      SuffixCons(All, k);
    }
  }

  /** A non-empty suffix is its first element followed by the next suffix. */
  lemma SuffixCons<T>(s: seq<T>, k: nat)
    requires k < |s|
    ensures s[k..] == [s[k]] + s[k + 1..]
  {
  }

  /** A fresh 10 x 10 board: size 10, 100 cells, score 0, not started,
      not won, no possible move. */
  lemma NewBoardTest()
    ensures var b := New(10);
      && b.size == 10 && b.cells == 100
      && Score(b) == 0 && !IsStarted(b) && !IsWon(b) && |PossibleMoves(b)| == 0
  {
    NewBoardIsEmpty(10);
  }

  /** The same board started at (5, 5): label 1 in flat cell 55, score 1,
      all eight jumps available, not won. */
  lemma StartedBoardTest()
    ensures StartAt(New(10), 5, 5).Ok?
    ensures var b := StartAt(New(10), 5, 5).value;
      && IsStarted(b) && b.values[55] == 1 && Score(b) == 1
      && PossibleMoves(b) == All && |PossibleMoves(b)| == 8
      && !IsWon(b)
  {
    StartedBoard(10, 5, 5);
  }

  /** `StartedBoardTest` for its one board, with the size and the start
      cell as parameters. */
  lemma StartedBoard(size: nat, x: nat, y: nat)
    requires size == 10 && x == 5 && y == 5
    ensures StartAt(New(size), x, y).Ok?
    ensures var b := StartAt(New(size), x, y).value;
      && IsStarted(b) && b.values[55] == 1 && Score(b) == 1
      && PossibleMoves(b) == All && |PossibleMoves(b)| == 8
      && !IsWon(b)
  {
    CentreStart(size, x, y);
    CentreMoves(StartAt(New(size), x, y).value);
  }

  /** Starting a fresh 10 x 10 board at (5, 5) leaves one label, 1, in flat
      cell 55. */
  lemma CentreStart(size: nat, x: nat, y: nat)
    requires size == 10 && x == 5 && y == 5
    ensures StartAt(New(size), x, y).Ok?
    ensures var b := StartAt(New(size), x, y).value;
      && b.Valid() && b.size == 10 && b.x == 5 && b.y == 5
      && IsStarted(b) && Score(b) == 1 && !IsWon(b)
      && b.values[55] == 1
      && forall i :: 0 <= i < |b.values| && i != 55 ==> b.values[i] == 0
  {
    StartLeavesOneLabel(size, x, y);
    var b := StartAt(New(size), x, y).value;
    assert b.values[55] == ValueAt(b, x, y);
  }

  /** On a 10 x 10 board whose only label is at (5, 5), every direction is
      possible. */
  lemma CentreMoves(b: Board)
    requires b.Valid() && b.size == 10 && b.x == 5 && b.y == 5 && IsStarted(b)
    requires forall i :: 0 <= i < |b.values| && i != 55 ==> b.values[i] == 0
    ensures PossibleMoves(b) == All
  {
    forall d
      ensures ValidMove(b, d).Some?
    {
      CentreJump(b, d);
    }
    EveryJumpValid(b, 0);
  }

  /** On a 10 x 10 board whose only label is at (5, 5), every jump is
      valid. */
  lemma CentreJump(b: Board, d: Direction)
    requires b.Valid() && b.size == 10 && b.x == 5 && b.y == 5 && IsStarted(b)
    requires forall i :: 0 <= i < |b.values| && i != 55 ==> b.values[i] == 0
    ensures ValidMove(b, d).Some?
  {
    OffsetsAreDistinctJumps();
    var (dx, dy) := Offset(d);
    assert IsJump(dx, dy);
    var (tx, ty) := (5 + dx, 5 + dy);
    assert ValueAt(b, tx, ty) == b.values[ty * 10 + tx] == 0;
  }

  /** The winning 5 x 5 game: its moves, the final grid (row by row) and
      the cell (x, y) of each label 1..25. */
  const Win5Moves: seq<Direction> := [Right, Down, Left, UpRight, DownRight, Left, UpRight, Down, UpLeft, Right, DownLeft, UpLeft, UpRight, Down, UpLeft, Down, UpRight, DownRight, Up, Left, Down, UpRight, UpLeft, Right]
  const Win5Grid: seq<u8> := [1, 24, 14, 2, 25, 16, 21, 5, 8, 20, 13, 10, 18, 23, 11, 4, 7, 15, 3, 6, 17, 22, 12, 9, 19]
  const Win5Pos: seq<(nat, nat)> := [(0, 0), (3, 0), (3, 3), (0, 3), (2, 1), (4, 3), (1, 3), (3, 1), (3, 4), (1, 2), (4, 2), (2, 4), (0, 2), (2, 0), (2, 3), (0, 1), (0, 4), (2, 2), (4, 4), (4, 1), (1, 1), (1, 4), (3, 2), (1, 0), (4, 0)]

  /** The recorded cell of each label holds that label. */
  lemma Win5PosLabels()
    ensures forall j :: 0 <= j < 25 ==>
      Win5Pos[j].0 < 5 && Win5Pos[j].1 < 5 && Win5Grid[Cell(Win5Pos[j])] == j + 1
  {
    forall j | 0 <= j < 25
      ensures Win5Pos[j].0 < 5 && Win5Pos[j].1 < 5
      ensures Win5Grid[Cell(Win5Pos[j])] == j + 1
    {
      // One empty branch per index makes the verifier check each case on its own.
      if j == 0 {}
      else if j == 1 {}
      else if j == 2 {}
      else if j == 3 {}
      else if j == 4 {}
      else if j == 5 {}
      else if j == 6 {}
      else if j == 7 {}
      else if j == 8 {}
      else if j == 9 {}
      else if j == 10 {}
      else if j == 11 {}
      else if j == 12 {}
      else if j == 13 {}
      else if j == 14 {}
      else if j == 15 {}
      else if j == 16 {}
      else if j == 17 {}
      else if j == 18 {}
      else if j == 19 {}
      else if j == 20 {}
      else if j == 21 {}
      else if j == 22 {}
      else if j == 23 {}
      else if j == 24 {}
    }
  }

  /** Each cell's label records that cell. */
  lemma Win5GridCells()
    ensures forall i :: 0 <= i < 25 ==>
      1 <= Win5Grid[i] <= 25 && Cell(Win5Pos[Win5Grid[i] - 1]) == i
  {
    forall i | 0 <= i < 25
      ensures 1 <= Win5Grid[i] <= 25
      ensures Cell(Win5Pos[Win5Grid[i] - 1]) == i
    {
      // One empty branch per index makes the verifier check each case on its own.
      if i == 0 {}
      else if i == 1 {}
      else if i == 2 {}
      else if i == 3 {}
      else if i == 4 {}
      else if i == 5 {}
      else if i == 6 {}
      else if i == 7 {}
      else if i == 8 {}
      else if i == 9 {}
      else if i == 10 {}
      else if i == 11 {}
      else if i == 12 {}
      else if i == 13 {}
      else if i == 14 {}
      else if i == 15 {}
      else if i == 16 {}
      else if i == 17 {}
      else if i == 18 {}
      else if i == 19 {}
      else if i == 20 {}
      else if i == 21 {}
      else if i == 22 {}
      else if i == 23 {}
      else if i == 24 {}
    }
  }

  /** Each move jumps from one label's cell to the next one's. */
  lemma Win5MovesJump()
    ensures forall j :: 0 <= j < 24 ==>
      Offset(Win5Moves[j]) == (Win5Pos[j + 1].0 as int - Win5Pos[j].0, Win5Pos[j + 1].1 as int - Win5Pos[j].1)
  {
    forall j | 0 <= j < 24
      ensures Offset(Win5Moves[j]) == (Win5Pos[j + 1].0 as int - Win5Pos[j].0, Win5Pos[j + 1].1 as int - Win5Pos[j].1)
    {
      Win5MoveJumps(j);
    }
  }

  /** Move j of the game jumps from label j + 1's cell to label j + 2's. */
  lemma Win5MoveJumps(j: nat)
    requires j < 24
    ensures Offset(Win5Moves[j]) == (Win5Pos[j + 1].0 as int - Win5Pos[j].0, Win5Pos[j + 1].1 as int - Win5Pos[j].1)
  {
    // One case per index, naming the literal entries it reads.
    match j
    case 0 => assert Win5Moves[0] == Right && Win5Pos[0] == (0, 0) && Win5Pos[1] == (3, 0);
    case 1 => assert Win5Moves[1] == Down && Win5Pos[1] == (3, 0) && Win5Pos[2] == (3, 3);
    case 2 => assert Win5Moves[2] == Left && Win5Pos[2] == (3, 3) && Win5Pos[3] == (0, 3);
    case 3 => assert Win5Moves[3] == UpRight && Win5Pos[3] == (0, 3) && Win5Pos[4] == (2, 1);
    case 4 => assert Win5Moves[4] == DownRight && Win5Pos[4] == (2, 1) && Win5Pos[5] == (4, 3);
    case 5 => assert Win5Moves[5] == Left && Win5Pos[5] == (4, 3) && Win5Pos[6] == (1, 3);
    case 6 => assert Win5Moves[6] == UpRight && Win5Pos[6] == (1, 3) && Win5Pos[7] == (3, 1);
    case 7 => assert Win5Moves[7] == Down && Win5Pos[7] == (3, 1) && Win5Pos[8] == (3, 4);
    case 8 => assert Win5Moves[8] == UpLeft && Win5Pos[8] == (3, 4) && Win5Pos[9] == (1, 2);
    case 9 => assert Win5Moves[9] == Right && Win5Pos[9] == (1, 2) && Win5Pos[10] == (4, 2);
    case 10 => assert Win5Moves[10] == DownLeft && Win5Pos[10] == (4, 2) && Win5Pos[11] == (2, 4);
    case 11 => assert Win5Moves[11] == UpLeft && Win5Pos[11] == (2, 4) && Win5Pos[12] == (0, 2);
    case 12 => assert Win5Moves[12] == UpRight && Win5Pos[12] == (0, 2) && Win5Pos[13] == (2, 0);
    case 13 => assert Win5Moves[13] == Down && Win5Pos[13] == (2, 0) && Win5Pos[14] == (2, 3);
    case 14 => assert Win5Moves[14] == UpLeft && Win5Pos[14] == (2, 3) && Win5Pos[15] == (0, 1);
    case 15 => assert Win5Moves[15] == Down && Win5Pos[15] == (0, 1) && Win5Pos[16] == (0, 4);
    case 16 => assert Win5Moves[16] == UpRight && Win5Pos[16] == (0, 4) && Win5Pos[17] == (2, 2);
    case 17 => assert Win5Moves[17] == DownRight && Win5Pos[17] == (2, 2) && Win5Pos[18] == (4, 4);
    case 18 => assert Win5Moves[18] == Up && Win5Pos[18] == (4, 4) && Win5Pos[19] == (4, 1);
    case 19 => assert Win5Moves[19] == Left && Win5Pos[19] == (4, 1) && Win5Pos[20] == (1, 1);
    case 20 => assert Win5Moves[20] == Down && Win5Pos[20] == (1, 1) && Win5Pos[21] == (1, 4);
    case 21 => assert Win5Moves[21] == UpRight && Win5Pos[21] == (1, 4) && Win5Pos[22] == (3, 2);
    case 22 => assert Win5Moves[22] == UpLeft && Win5Pos[22] == (3, 2) && Win5Pos[23] == (1, 0);
    case 23 => assert Win5Moves[23] == Right && Win5Pos[23] == (1, 0) && Win5Pos[24] == (4, 0);
  }


  /** The three records of the game agree. */
  lemma Win5IsTour()
    ensures IsTour(Win5Grid, Win5Pos, Win5Moves)
  {
    Win5PosLabels();
    Win5GridCells();
    Win5MovesJump();
    TourFromInverse(Win5Grid, Win5Pos, Win5Moves);
  }

  /** Before each of the 24 moves, the board the game holds scores the
      label placed so far, offers the test's next move, and is neither won
      nor blocked. */
  lemma Win5MidGame()
    ensures IsTour(Win5Grid, Win5Pos, Win5Moves)
    ensures forall i :: 0 <= i < 24 ==>
      && Play(5, 0, 0, Win5Moves[..i]).Ok?
      && var b := Play(5, 0, 0, Win5Moves[..i]).value;
        && Score(b) == i + 1 && Win5Moves[i] in PossibleMoves(b)
        && !IsWon(b) && !IsBlocked(b)
  {
    Win5IsTour();
    forall i | 0 <= i < 24
      ensures && Play(5, 0, 0, Win5Moves[..i]).Ok?
        && var b := Play(5, 0, 0, Win5Moves[..i]).value;
          && Score(b) == i + 1 && Win5Moves[i] in PossibleMoves(b)
          && !IsWon(b) && !IsBlocked(b)
    {
      TourMidGame(Win5Grid, Win5Pos, Win5Moves, i + 1);
    }
  }

  /** The full game from (0, 0) is accepted move by move and ends won, with
      the final grid of the test, score 25, and no move left. */
  lemma Win5()
    ensures Play(5, 0, 0, Win5Moves).Ok?
    ensures var b := Play(5, 0, 0, Win5Moves).value;
      && b.values == Win5Grid
      && IsWon(b) && Score(b) == b.cells == 25 && IsBlocked(b)
  {
    Win5IsTour();
    TourWins(Win5Grid, Win5Pos, Win5Moves);
  }
}
