/**
  Replaying a complete tour. A tour of a 5 x 5 board (the size the repository's own
  complete game uses) is recorded
  three ways: the final grid of labels (row by row), the cell of each label,
  and the jumps between consecutive labels. When the three agree, starting
  on label 1 and making the jumps in order is accepted move by move and ends
  on a won board holding exactly that grid.
 */
module Tours {
  import opened Directions
  import opened Boards
  import opened Invariant

  /** The flat index of a 5 x 5 cell. */
  function Cell(p: (nat, nat)): nat
  {
    p.1 * 5 + p.0
  }

  /** `grid` is a tour of a 5 x 5 board: its labels are a
      permutation of 1..25, `pos[j]` is the cell of label j + 1, and
      `moves[j]` jumps from label j + 1 to label j + 2. */
  predicate IsTour(grid: seq<u8>, pos: seq<(nat, nat)>, moves: seq<Direction>)
  {
    && |grid| == 25 && |pos| == 25 && |moves| == 24
    && (forall j :: 0 <= j < |pos| ==>
          && pos[j].0 < 5 && pos[j].1 < 5
          && grid[Cell(pos[j])] == j + 1)
    && (forall i :: 0 <= i < |grid| ==> 1 <= grid[i] <= |grid|)
    && (forall i, j :: 0 <= i < |grid| && 0 <= j < |pos| && grid[i] == j + 1 ==> i == Cell(pos[j]))
    && (forall j :: 0 <= j < |moves| ==>
          Offset(moves[j]) == (pos[j + 1].0 as int - pos[j].0, pos[j + 1].1 as int - pos[j].1))
  }

  /** A tour may be given by the inverse table instead: the label of each
      cell names the label whose recorded cell it is. */
  lemma TourFromInverse(grid: seq<u8>, pos: seq<(nat, nat)>, moves: seq<Direction>)
    requires |grid| == 25 && |pos| == 25 && |moves| == 24
    requires forall j :: 0 <= j < |pos| ==>
      pos[j].0 < 5 && pos[j].1 < 5 && grid[Cell(pos[j])] == j + 1
    requires forall i :: 0 <= i < |grid| ==>
      1 <= grid[i] <= |grid| && Cell(pos[grid[i] - 1]) == i
    requires forall j :: 0 <= j < |moves| ==>
      Offset(moves[j]) == (pos[j + 1].0 as int - pos[j].0, pos[j + 1].1 as int - pos[j].1)
    ensures IsTour(grid, pos, moves)
  {
    forall i, j | 0 <= i < |grid| && 0 <= j < |pos| && grid[i] == j + 1
      ensures i == Cell(pos[j])
    {
      assert grid[i] - 1 == j;
    }
  }

  /** In a tour, cell i holds label v exactly when i is the recorded cell of
      v. */
  lemma LabelCell(grid: seq<u8>, pos: seq<(nat, nat)>, moves: seq<Direction>, i: nat, v: nat)
    requires IsTour(grid, pos, moves) && i < 25 && 1 <= v <= 25
    ensures grid[i] == v <==> i == Cell(pos[v - 1])
  {
  }

  /** `s` with every label above n cleared. */
  function Mask(n: nat, s: seq<u8>): (r: seq<u8>)
    ensures |r| == |s|
    ensures forall i :: 0 <= i < |s| ==> r[i] == if s[i] <= n then s[i] else 0
  {
    if |s| == 0 then []
    else [if s[0] <= n then s[0] else 0] + Mask(n, s[1..])
  }

  /** The tour after label n: the final grid with every label above n
      cleared, the cursor on label n. */
  function Snapshot(grid: seq<u8>, pos: seq<(nat, nat)>, moves: seq<Direction>, n: nat): (b: Board)
    requires IsTour(grid, pos, moves) && 1 <= n <= |grid|
    ensures b.Valid()
  {
    Board(5, 25, Mask(n, grid), pos[n - 1].0, pos[n - 1].1)
  }

  /** Label n sits under the cursor of snapshot n and is its score. */
  lemma SnapshotScore(grid: seq<u8>, pos: seq<(nat, nat)>, moves: seq<Direction>, n: nat)
    requires IsTour(grid, pos, moves) && 1 <= n <= |grid|
    ensures var b := Snapshot(grid, pos, moves, n);
      Score(b) == n && ValueAt(b, b.x, b.y) == n
  {
    var b := Snapshot(grid, pos, moves, n);
    var k := Cell(pos[n - 1]);
    assert b.values[k] == n;
    ScoreIsMaximum(b, n);
  }

  /** Snapshot n + 1 is snapshot n with label n + 1 written into its cell. */
  lemma SnapshotValues(grid: seq<u8>, pos: seq<(nat, nat)>, moves: seq<Direction>, n: nat)
    requires IsTour(grid, pos, moves) && 1 <= n < |grid|
    ensures var k := Cell(pos[n]);
      Snapshot(grid, pos, moves, n + 1).values == Snapshot(grid, pos, moves, n).values[k := n + 1]
  {
    var b, b' := Snapshot(grid, pos, moves, n), Snapshot(grid, pos, moves, n + 1);
    var k := Cell(pos[n]);
    forall i | 0 <= i < |grid|
      ensures b'.values[i] == b.values[k := n + 1][i]
    {
      LabelCell(grid, pos, moves, i, n + 1);
    }
  }

  /** A jump to an empty on-board cell of a started board is valid. */
  lemma JumpTo(b: Board, d: Direction, tx: nat, ty: nat)
    requires b.Valid() && IsStarted(b)
    requires tx == b.x + Offset(d).0 && ty == b.y + Offset(d).1
    requires tx < b.size && ty < b.size && ValueAt(b, tx, ty) == 0
    ensures ValidMove(b, d) == Some((tx, ty))
  {
  }

  /** From snapshot n the tour's move n is valid and lands on the cell of
      label n + 1. */
  lemma SnapshotJump(grid: seq<u8>, pos: seq<(nat, nat)>, moves: seq<Direction>, n: nat)
    requires IsTour(grid, pos, moves) && 1 <= n < |grid|
    ensures var b := Snapshot(grid, pos, moves, n);
      && ValueAt(b, b.x, b.y) == n
      && ValidMove(b, moves[n - 1]) == Some((pos[n].0, pos[n].1))
  {
    var b := Snapshot(grid, pos, moves, n);
    var (tx, ty) := pos[n];
    SnapshotScore(grid, pos, moves, n);
    assert ValueAt(b, tx, ty) == 0 by {
      assert b.values[ty * 5 + tx] == 0;
    }
    assert b.x == pos[n - 1].0 && b.y == pos[n - 1].1;
    var j := n - 1;
    assert Offset(moves[j]) == (pos[j + 1].0 as int - pos[j].0, pos[j + 1].1 as int - pos[j].1);
    assert pos[j + 1] == pos[n];
    JumpTo(b, moves[j], tx, ty);
  }

  /** Writing label n + 1 into its cell turns snapshot n into snapshot
      n + 1. */
  lemma SnapshotWrite(grid: seq<u8>, pos: seq<(nat, nat)>, moves: seq<Direction>, n: nat)
    requires IsTour(grid, pos, moves) && 1 <= n < |grid|
    ensures SetValue(Snapshot(grid, pos, moves, n), pos[n].0, pos[n].1, n + 1) == Ok(Snapshot(grid, pos, moves, n + 1))
  {
    var b := Snapshot(grid, pos, moves, n);
    var (tx, ty) := pos[n];
    SnapshotScore(grid, pos, moves, n);
    CellBytes(5);
    assert ValueAt(b, tx, ty) == 0 by {
      assert b.values[Cell(pos[n])] == 0;
    }
    SetValueWrites(b, tx, ty, n + 1);
    SnapshotValues(grid, pos, moves, n);
  }

  /** Move n of the tour turns snapshot n into snapshot n + 1. */
  lemma SnapshotStep(grid: seq<u8>, pos: seq<(nat, nat)>, moves: seq<Direction>, n: nat)
    requires IsTour(grid, pos, moves) && 1 <= n < |grid|
    ensures NextMove(Snapshot(grid, pos, moves, n), moves[n - 1]) == Ok(Snapshot(grid, pos, moves, n + 1))
  {
    var b := Snapshot(grid, pos, moves, n);
    SnapshotJump(grid, pos, moves, n);
    assert NextMove(b, moves[n - 1]) == SetValue(b, pos[n].0, pos[n].1, AsU8(n + 1));
    SnapshotWrite(grid, pos, moves, n);
  }

  /** Snapshot 1 is an empty grid with label 1 written into its cell. */
  lemma FirstSnapshotValues(grid: seq<u8>, pos: seq<(nat, nat)>, moves: seq<Direction>, empty: seq<u8>)
    requires IsTour(grid, pos, moves)
    requires |empty| == 25 && forall i :: 0 <= i < 25 ==> empty[i] == 0
    ensures Snapshot(grid, pos, moves, 1).values == empty[Cell(pos[0]) := 1]
  {
    var k := Cell(pos[0]);
    var s := Snapshot(grid, pos, moves, 1).values;
    forall i | 0 <= i < 25
      ensures s[i] == empty[k := 1][i]
    {
      LabelCell(grid, pos, moves, i, 1);
    }
  }

  /** Starting a fresh board on the cell of label 1 gives snapshot 1. */
  lemma StartIsSnapshot(grid: seq<u8>, pos: seq<(nat, nat)>, moves: seq<Direction>)
    requires IsTour(grid, pos, moves)
    ensures StartAt(New(5), pos[0].0, pos[0].1) == Ok(Snapshot(grid, pos, moves, 1))
  {
    var (x, y) := pos[0];
    StartFresh(5, x, y);
    FirstSnapshotValues(grid, pos, moves, New(5).values);
  }

  /** Starting on the cell of label 1 and making some moves is making those
      moves from snapshot 1. */
  lemma PlayFromFirst(grid: seq<u8>, pos: seq<(nat, nat)>, moves: seq<Direction>, s: seq<Direction>)
    requires IsTour(grid, pos, moves)
    ensures Play(5, pos[0].0, pos[0].1, s) == Advance(Snapshot(grid, pos, moves, 1), s)
  {
    StartIsSnapshot(grid, pos, moves);
  }

  /** Taking one more element of a sequence appends that element. */
  lemma PrefixSnoc<T>(s: seq<T>, k: nat)
    requires k < |s|
    ensures s[..k + 1] == s[..k] + [s[k]]
  {
  }

  /** The prefix of a sequence as long as the sequence is the sequence. */
  lemma WholePrefix<T>(s: seq<T>)
    ensures s[..|s|] == s
  {
  }

  /** The first n - 1 moves of the tour, made from snapshot 1, reach
      snapshot n. */
  lemma {:induction false} AdvanceToSnapshot(grid: seq<u8>, pos: seq<(nat, nat)>, moves: seq<Direction>, n: nat)
    requires IsTour(grid, pos, moves) && 1 <= n <= |grid|
    ensures Advance(Snapshot(grid, pos, moves, 1), moves[..n - 1]) == Ok(Snapshot(grid, pos, moves, n))
    decreases n
  {
    if n == 1 {
      assert moves[..0] == [];
    } else {
      AdvanceToSnapshot(grid, pos, moves, n - 1);
      SnapshotStep(grid, pos, moves, n - 1);
      PrefixSnoc(moves, n - 2);
      AdvanceThen(Snapshot(grid, pos, moves, 1), moves[..n - 2], moves[n - 2],
        Snapshot(grid, pos, moves, n - 1), Snapshot(grid, pos, moves, n));
    }
  }

  /** Starting on label 1 and making the first n - 1 moves of the tour
      reaches snapshot n. */
  lemma PrefixIsSnapshot(grid: seq<u8>, pos: seq<(nat, nat)>, moves: seq<Direction>, n: nat)
    requires IsTour(grid, pos, moves) && 1 <= n <= |grid|
    ensures Play(5, pos[0].0, pos[0].1, moves[..n - 1]) == Ok(Snapshot(grid, pos, moves, n))
  {
    PlayFromFirst(grid, pos, moves, moves[..n - 1]);
    AdvanceToSnapshot(grid, pos, moves, n);
  }

  /** Before the last label the game is running: after the first n - 1
      moves the board scores n, offers the tour's next move, and is neither
      won nor blocked. */
  lemma TourMidGame(grid: seq<u8>, pos: seq<(nat, nat)>, moves: seq<Direction>, n: nat)
    requires IsTour(grid, pos, moves) && 1 <= n < |grid|
    ensures Play(5, pos[0].0, pos[0].1, moves[..n - 1]).Ok?
    ensures var b := Play(5, pos[0].0, pos[0].1, moves[..n - 1]).value;
      && Score(b) == n && IsStarted(b)
      && moves[n - 1] in PossibleMoves(b)
      && !IsWon(b) && !IsBlocked(b)
  {
    PrefixIsSnapshot(grid, pos, moves, n);
    var b := Snapshot(grid, pos, moves, n);
    SnapshotScore(grid, pos, moves, n);
    SnapshotStep(grid, pos, moves, n);
    var k := Cell(pos[n]);
    assert b.values[k] == 0;
    assert 0 in b.values;
    BlockedIffNoValidMove(b);
  }

  /** The last snapshot is the whole grid. */
  lemma LastSnapshotIsGrid(grid: seq<u8>, pos: seq<(nat, nat)>, moves: seq<Direction>)
    requires IsTour(grid, pos, moves)
    ensures Snapshot(grid, pos, moves, 25).values == grid
  {
    var s := Snapshot(grid, pos, moves, 25).values;
    assert forall i :: 0 <= i < 25 ==> s[i] == grid[i];
  }

  /** Replaying a tour is accepted move by move and ends won, every cell
      labelled as in the grid, at full score, with no move left. */
  lemma TourWins(grid: seq<u8>, pos: seq<(nat, nat)>, moves: seq<Direction>)
    requires IsTour(grid, pos, moves)
    ensures Play(5, pos[0].0, pos[0].1, moves) == Ok(Snapshot(grid, pos, moves, |grid|))
    ensures var b := Snapshot(grid, pos, moves, |grid|);
      && b.values == grid
      && IsWon(b) && Score(b) == b.cells && IsBlocked(b)
  {
    PrefixIsSnapshot(grid, pos, moves, |grid|);
    WholePrefix(moves);
    var b := Snapshot(grid, pos, moves, |grid|);
    SnapshotScore(grid, pos, moves, |grid|);
    LastSnapshotIsGrid(grid, pos, moves);
    CellBytes(5);
    WonIsBlocked(b);
  }
}
