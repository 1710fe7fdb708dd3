/**
  The board of the knight-jump numbering puzzle: an N x N grid of byte
  labels (0 = empty), stored row by row, and a cursor at the most recently
  labelled cell. Every operation is pure; the mutators return a new board
  wrapped in a `Result` and leave their argument untouched.
 */
module Boards {
  import opened Directions

  /** An unsigned byte, the element type of the grid. */
  type u8 = x: int | 0 <= x < 256

  /** The truncating `as u8` cast of a non-negative machine integer. */
  function AsU8(n: nat): (r: u8)
    ensures n < 256 ==> r == n
  {
    n % 256
  }

  datatype Option<+T> = None | Some(value: T)

  datatype BoardError =
    | OutOfRange        // target coordinates outside the grid
    | NonPositive       // a label below 1 would clear the cell
    | AlreadyUsed       // the label is not above the current score
    | TooLarge          // the label is above the (byte-truncated) cell count
    | Occupied          // the target cell is already labelled
    | NotStarted        // a move was attempted on an empty board
    | InvalidDirection(dir: Direction)  // the jump leaves the grid or lands on a labelled cell

  datatype Result<+T> = Ok(value: T) | Err(error: BoardError)

  datatype Board = Board(size: nat, cells: nat, values: seq<u8>, x: nat, y: nat)
  {
    /** What the constructor establishes and every mutator keeps; the fields
        are private, so no other board can be observed. */
    predicate Valid()
    {
      && 5 <= size <= 16
      && cells == size * size
      && |values| == cells
      && x < size
      && y < size
    }
  }

  /** The flat index of an on-board cell lies inside the grid. */
  lemma CellIndexInRange(size: nat, x: nat, y: nat)
    requires x < size && y < size
    ensures y * size + x < size * size
  {
    calc {
      y * size + x;
    <
      y * size + size;
    ==
      (y + 1) * size;
    <=  { MulLeft(y + 1, size, size); }
      size * size;
    }
  }

  /** Distinct on-board cells have distinct flat indices. */
  lemma IndexInjective(size: nat, x: nat, y: nat, a: nat, c: nat)
    requires x < size && y < size && a < size && c < size
    requires c * size + a == y * size + x
    ensures a == x && c == y
  {
    if c < y {
      MulLeft(c + 1, y, size);
    } else if y < c {
      MulLeft(y + 1, c, size);
    }
  }

  /** The contrapositive of `IndexInjective`. */
  lemma DistinctCellsDistinctIndices(size: nat, x: nat, y: nat, a: nat, c: nat)
    requires x < size && y < size && a < size && c < size && (a, c) != (x, y)
    ensures c * size + a != y * size + x
  {
    if c * size + a == y * size + x {
      IndexInjective(size, x, y, a, c);
    }
  }

  /** Multiplying by a natural number keeps `<=`. */
  lemma {:induction false} MulLeft(a: nat, b: nat, c: nat)
    requires a <= b
    ensures a * c <= b * c
    decreases b - a
  {
    if a < b {
      MulLeft(a, b - 1, c);
      assert b * c == (b - 1) * c + c;
    }
  }

  /** A board of `size` x `size` cells, the size clamped to 5..16, all cells
      empty and the cursor on the top-left cell. */
  function New(size: nat): (b: Board)
    ensures b.Valid()
    ensures size < 5 ==> b.size == 5
    ensures size > 16 ==> b.size == 16
    ensures 5 <= size <= 16 ==> b.size == size
    ensures b.cells == b.size * b.size
    ensures forall i :: 0 <= i < |b.values| ==> b.values[i] == 0
    ensures b.x == 0 && b.y == 0
  {
    var s := if size < 5 then 5 else if size > 16 then 16 else size;
    Board(s, s * s, seq(s * s, _ => 0), 0, 0)
  }

  /** Sizes below 5 give the 5 x 5 board, sizes above 16 the 16 x 16 one. */
  lemma NewClamps(size: nat)
    ensures size < 5 ==> New(size) == New(5)
    ensures size > 16 ==> New(size) == New(16)
  {
  }

  /** The label of cell (x, y). */
  function ValueAt(b: Board, x: nat, y: nat): (v: u8)
    requires b.Valid() && x < b.size && y < b.size
    ensures v in b.values
  {
    CellIndexInRange(b.size, x, y);
    b.values[y * b.size + x]
  }

  /** A board is started once the cursor cell holds a label. */
  predicate IsStarted(b: Board)
    requires b.Valid()
  {
    ValueAt(b, b.x, b.y) > 0
  }

  /** `u8::max`. */
  function Max(a: u8, b: u8): (r: u8)
    ensures a <= r && b <= r
    ensures r == a || r == b
  {
    if a < b then b else a
  }

  /** Left fold of `Max` over `s`, starting from `acc`. */
  function MaxFold(acc: u8, s: seq<u8>): (r: u8)
    ensures acc <= r
    ensures forall i :: 0 <= i < |s| ==> s[i] <= r
    ensures r == acc || r in s
    decreases |s|
  {
    if |s| == 0 then acc
    else
      var r := MaxFold(Max(acc, s[0]), s[1..]);
      assert forall i :: 1 <= i < |s| ==> s[i] == s[1..][i - 1];
      r
  }

  /** The score: the largest label on the board, 0 when it is empty. */
  function Score(b: Board): (r: u8)
    ensures forall i :: 0 <= i < |b.values| ==> b.values[i] <= r
    ensures r == 0 || r in b.values
  {
    MaxFold(0, b.values)
  }

  /** The largest label is the only value that bounds every label and is
      itself a label (or 0). */
  lemma ScoreIsMaximum(b: Board, m: int)
    requires forall i :: 0 <= i < |b.values| ==> b.values[i] <= m
    requires m == 0 || m in b.values
    ensures Score(b) == m
  {
    var s := Score(b);
    if s != 0 {
      var i :| 0 <= i < |b.values| && b.values[i] == s;
    }
    if m != 0 {
      var j :| 0 <= j < |b.values| && b.values[j] == m;
    }
  }

  /** The cell a jump in direction `d` lands on, if it is on the board,
      empty, and the board is started. */
  function ValidMove(b: Board, d: Direction): (r: Option<(nat, nat)>)
    requires b.Valid()
    ensures r.Some? <==>
      var (tx, ty) := (b.x + Offset(d).0, b.y + Offset(d).1);
      && IsStarted(b)
      && 0 <= tx < b.size && 0 <= ty < b.size
      && ValueAt(b, tx, ty) == 0
    ensures r.Some? ==>
      && r.value.0 < b.size && r.value.1 < b.size
      && ValueAt(b, r.value.0, r.value.1) == 0
      && (r.value.0 - b.x, r.value.1 - b.y) == Offset(d)
      && IsJump(r.value.0 - b.x, r.value.1 - b.y)
  {
    OffsetsAreDistinctJumps();
    if IsStarted(b) then
      var (tx, ty) := (b.x + Offset(d).0, b.y + Offset(d).1);
      if tx >= 0 && ty >= 0 && tx < b.size && ty < b.size && ValueAt(b, tx, ty) == 0 then
        Some((tx, ty))
      else
        None
    else
      None
  }

  /** The directions of `All[k..]` that `ValidMove` accepts, in order. */
  function MovesFrom(b: Board, k: nat): (r: seq<Direction>)
    requires b.Valid() && k <= |All|
    ensures |r| <= |All| - k
    ensures forall d :: d in r <==> k <= Index(d) && ValidMove(b, d).Some?
    ensures forall i, j :: 0 <= i < j < |r| ==> Index(r[i]) < Index(r[j])
    decreases |All| - k
  {
    if k == |All| then []
    else
      var rest := MovesFrom(b, k + 1);
      AllEnumeratesDirections();
      assert Index(All[k]) == k;
      if ValidMove(b, All[k]).Some? then [All[k]] + rest else rest
  }

  /** Every direction whose jump is valid, in the order of `All`. */
  function PossibleMoves(b: Board): (r: seq<Direction>)
    requires b.Valid()
    ensures |r| <= 8
    ensures forall d :: d in r <==> ValidMove(b, d).Some?
    ensures forall i, j :: 0 <= i < j < |r| ==> Index(r[i]) < Index(r[j])
    ensures !IsStarted(b) ==> r == []
  {
    AllEnumeratesDirections();
    MovesFrom(b, 0)
  }

  /** Won: the cursor holds the (byte-truncated) cell count and no cell is
      empty. */
  predicate IsWon(b: Board)
    requires b.Valid()
  {
    ValueAt(b, b.x, b.y) == AsU8(b.cells) && 0 !in b.values
  }

  /** Blocked: started, and no jump is valid. */
  predicate IsBlocked(b: Board)
    requires b.Valid()
  {
    IsStarted(b) && |PossibleMoves(b)| == 0
  }

  /** `b'` is `b` with label `v` written at (x, y) and the cursor moved
      there; nothing else differs. */
  predicate Placed(b: Board, b': Board, x: nat, y: nat, v: u8)
    requires b.Valid()
  {
    && b'.Valid()
    && b'.size == b.size && b'.cells == b.cells
    && x < b.size && y < b.size
    && b'.x == x && b'.y == y
    && ValueAt(b', x, y) == v
    && (forall i :: 0 <= i < |b.values| && i != y * b.size + x ==> b'.values[i] == b.values[i])
  }

  /** Writes label `v` at (x, y). The checks run in a fixed order: range,
      positive label, label above the score, label within the cell count,
      empty target. */
  function SetValue(b: Board, x: nat, y: nat, v: u8): (r: Result<Board>)
    requires b.Valid()
    ensures x >= b.size || y >= b.size ==> r == Err(OutOfRange)
    ensures x < b.size && y < b.size && v == 0 ==> r == Err(NonPositive)
    ensures x < b.size && y < b.size && 1 <= v <= Score(b) ==> r == Err(AlreadyUsed)
    ensures x < b.size && y < b.size && Score(b) < v && AsU8(b.cells) < v ==> r == Err(TooLarge)
    ensures x < b.size && y < b.size && Score(b) < v <= AsU8(b.cells) && ValueAt(b, x, y) != 0 ==>
              r == Err(Occupied)
    ensures r.Ok? <==> x < b.size && y < b.size && Score(b) < v <= AsU8(b.cells) && ValueAt(b, x, y) == 0
    ensures r.Ok? ==> Placed(b, r.value, x, y, v) && Score(r.value) == v && IsStarted(r.value)
  {
    if x >= b.size || y >= b.size then Err(OutOfRange)
    else if v < 1 then Err(NonPositive)
    // `score() as u8` is lossless: the score is a byte
    else if v <= Score(b) then Err(AlreadyUsed)
    else if v > AsU8(b.cells) then Err(TooLarge)
    else if ValueAt(b, x, y) != 0 then Err(Occupied)
    else Ok(Place(b, x, y, v))
  }

  /** `b` with label `v` stored at (x, y) and the cursor moved there. */
  function Write(b: Board, x: nat, y: nat, v: u8): Board
    requires b.Valid() && x < b.size && y < b.size
  {
    CellIndexInRange(b.size, x, y);
    b.(x := x, y := y, values := b.values[y * b.size + x := v])
  }

  /** The successful write of `SetValue`: label `v`, above the score, goes
      into the empty cell (x, y) and becomes the new score. */
  function Place(b: Board, x: nat, y: nat, v: u8): (b': Board)
    requires b.Valid() && x < b.size && y < b.size
    requires Score(b) < v && ValueAt(b, x, y) == 0
    ensures Placed(b, b', x, y, v)
    ensures Score(b') == v && IsStarted(b')
  {
    WritePlaces(b, x, y, v);
    WriteRaisesScore(b, x, y, v);
    Write(b, x, y, v)
  }

  /** `Write` changes the target cell and the cursor, nothing else. */
  lemma WritePlaces(b: Board, x: nat, y: nat, v: u8)
    requires b.Valid() && x < b.size && y < b.size
    ensures Placed(b, Write(b, x, y, v), x, y, v)
  {
    CellIndexInRange(b.size, x, y);
    var b' := Write(b, x, y, v);
    assert b'.values[y * b.size + x] == v;
  }

  /** Writing a label above the score makes it the new score. */
  lemma WriteRaisesScore(b: Board, x: nat, y: nat, v: u8)
    requires b.Valid() && x < b.size && y < b.size && Score(b) < v
    ensures Score(Write(b, x, y, v)) == v
  {
    CellIndexInRange(b.size, x, y);
    var b' := Write(b, x, y, v);
    assert b'.values[y * b.size + x] == v;
    assert forall i :: 0 <= i < |b'.values| ==> b'.values[i] <= v;
    ScoreIsMaximum(b', v);
  }

  /** A successful write is the single-cell update of the flat grid. */
  lemma SetValueWrites(b: Board, x: nat, y: nat, v: u8)
    requires b.Valid() && SetValue(b, x, y, v).Ok?
    ensures SetValue(b, x, y, v).value == Write(b, x, y, v)
  {
  }

  /** Starts the puzzle by placing label 1 at (x, y). */
  function StartAt(b: Board, x: nat, y: nat): (r: Result<Board>)
    requires b.Valid()
    ensures r.Ok? <==> x < b.size && y < b.size && Score(b) == 0 && b.size < 16
    ensures x >= b.size || y >= b.size ==> r == Err(OutOfRange)
    ensures x < b.size && y < b.size && Score(b) > 0 ==> r == Err(AlreadyUsed)
    ensures x < b.size && y < b.size && b.size == 16 && Score(b) == 0 ==> r == Err(TooLarge)
    ensures r.Ok? ==> Placed(b, r.value, x, y, 1) && Score(r.value) == 1 && IsStarted(r.value)
  {
    CellBytes(b.size);
    SetValue(b, x, y, 1)
  }

  /** Sizes 5..15 have between 25 and 225 cells, which fit in a byte; the
      256 cells of size 16 truncate to 0. */
  lemma CellBytes(size: nat)
    requires 5 <= size <= 16
    ensures size < 16 ==> 25 <= size * size <= 225 && AsU8(size * size) == size * size
    ensures size == 16 ==> AsU8(size * size) == 0
  {
    if size < 16 {
      calc {
        size * size;
      <=
        15 * size;
      <=
        15 * 15;
      }
      assert 5 * 5 <= 5 * size <= size * size;
    }
  }

  /** Jumps from the cursor and labels the target with the cursor's label
      plus one (a wrapping byte addition). */
  function NextMove(b: Board, d: Direction): (r: Result<Board>)
    requires b.Valid()
    ensures !IsStarted(b) ==> r == Err(NotStarted)
    ensures IsStarted(b) && ValidMove(b, d).None? ==> r == Err(InvalidDirection(d))
    ensures r.Ok? ==>
      && ValidMove(b, d).Some?
      && Placed(b, r.value, ValidMove(b, d).value.0, ValidMove(b, d).value.1, AsU8(ValueAt(b, b.x, b.y) + 1))
      && Score(r.value) == ValueAt(b, b.x, b.y) + 1
  {
    if !IsStarted(b) then Err(NotStarted)
    else match ValidMove(b, d)
      case Some((tx, ty)) => SetValue(b, tx, ty, AsU8(ValueAt(b, b.x, b.y) + 1))
      case None => Err(InvalidDirection(d))
  }

  /** The targets `ValidMove` offers are exactly the empty on-board cells one
      jump away from the cursor of a started board. */
  lemma ValidTargetsAreEmptyJumps(b: Board, tx: nat, ty: nat)
    requires b.Valid()
    ensures (exists d :: ValidMove(b, d) == Some((tx, ty))) <==>
      && IsStarted(b)
      && tx < b.size && ty < b.size
      && ValueAt(b, tx, ty) == 0
      && IsJump(tx - b.x, ty - b.y)
  {
    if IsStarted(b) && tx < b.size && ty < b.size && ValueAt(b, tx, ty) == 0 && IsJump(tx - b.x, ty - b.y) {
      var d := DirectionOf(tx - b.x, ty - b.y);
      assert ValidMove(b, d) == Some((tx, ty));
    }
  }

  /** Distinct directions never offer the same target. */
  lemma TargetsAreDistinct(b: Board, d: Direction, e: Direction)
    requires b.Valid() && d != e
    requires ValidMove(b, d).Some? && ValidMove(b, e).Some?
    ensures ValidMove(b, d).value != ValidMove(b, e).value
  {
    OffsetsAreDistinctJumps();
  }

  /** Blocked means started with every jump rejected. */
  lemma BlockedIffNoValidMove(b: Board)
    requires b.Valid()
    ensures IsBlocked(b) <==> IsStarted(b) && forall d :: ValidMove(b, d).None?
  {
    var r := PossibleMoves(b);
    if |r| > 0 {
      assert r[0] in r;
    }
  }

  /** A won board is also blocked: no empty cell is left to jump to. */
  lemma WonIsBlocked(b: Board)
    requires b.Valid() && IsWon(b)
    ensures IsBlocked(b)
  {
    assert ValueAt(b, b.x, b.y) in b.values;
    BlockedIffNoValidMove(b);
  }

  /** A write into an empty cell leaves every labelled cell as it was. */
  lemma PlacedKeepsLabel(b: Board, b': Board, x: nat, y: nat, v: u8, cx: nat, cy: nat)
    requires b.Valid() && Placed(b, b', x, y, v) && ValueAt(b, x, y) == 0
    requires cx < b.size && cy < b.size && ValueAt(b, cx, cy) != 0
    ensures ValueAt(b', cx, cy) == ValueAt(b, cx, cy)
  {
    assert (cx, cy) != (x, y);
    OtherCellKept(b.values, b'.values, b.size, x, y, cx, cy);
  }

  /** The flat-index form of `PlacedKeepsLabel`: a grid that differs from
      another only at the index of (x, y) agrees with it at every other
      cell. */
  lemma OtherCellKept(s: seq<u8>, s': seq<u8>, size: nat, x: nat, y: nat, cx: nat, cy: nat)
    requires |s| == |s'| == size * size && x < size && y < size && cx < size && cy < size
    requires (cx, cy) != (x, y)
    requires forall i :: 0 <= i < |s| && i != y * size + x ==> s'[i] == s[i]
    ensures cy * size + cx < |s| && s'[cy * size + cx] == s[cy * size + cx]
  {
    CellIndexInRange(size, cx, cy);
    DistinctCellsDistinctIndices(size, x, y, cx, cy);
  }

  /** Once `SetValue` labels a cell, the next write cannot touch that cell,
      and it must use a larger label. */
  lemma LabelsOnlyGrow(b: Board, x: nat, y: nat, v: u8, x': nat, y': nat, w: u8)
    requires b.Valid() && SetValue(b, x, y, v).Ok?
    requires SetValue(SetValue(b, x, y, v).value, x', y', w).Ok?
    ensures v < w
    ensures (x', y') != (x, y)
  {
  }
}
