/** Static evaluation of a position: material plus a pawn-advancement bonus,
    positive when White is ahead. */
module Evaluation {
  import opened Board

  /* ---------------- Piece weights ---------------- */

  const PawnValue: int := 100
  const KnightValue: int := 320
  const BishopValue: int := 330
  const RookValue: int := 500
  const QueenValue: int := 900
  const KingValue: int := 20000

  /** The base value of a kind; a kind letter the switch does not list is worth 0. */
  function PieceValue(k: Kind): int
  {
    match k
    case Pawn => PawnValue
    case Knight => KnightValue
    case Bishop => BishopValue
    case Rook => RookValue
    case Queen => QueenValue
    case King => KingValue
    case Other => 0
  }

  /** The weights order the kinds: pawn < knight < bishop < rook < queen < king,
      and every listed kind is worth something. */
  lemma WeightsOrdered()
    ensures 0 < PieceValue(Pawn) < PieceValue(Knight) < PieceValue(Bishop)
              < PieceValue(Rook) < PieceValue(Queen) < PieceValue(King)
    ensures forall k :: PieceValue(k) == 0 <==> k == Other
  {
  }

  /** Ten points per row advanced towards promotion: White pawns move to row 0,
      Black pawns to row 7. */
  function PawnBonus(colour: Colour, row: int): int
  {
    if colour == White then (7 - row) * 10 else row * 10
  }

  /** The source's `evaluatePiece`: base value plus the pawn bonus, counted
      for White and against Black; an empty square scores 0. */
  function EvaluatePiece(cell: Cell, row: int): (r: int)
    ensures cell.Empty? ==> r == 0
    ensures 0 <= row < 8 && cell.Piece? && cell.colour == White ==> 0 <= r <= KingValue
    ensures 0 <= row < 8 && cell.Piece? && cell.colour == Black ==> -KingValue <= r <= 0
  {
    match cell
    case Empty => 0
    case Piece(colour, kind) =>
      var multiplier := if colour == White then 1 else -1;
      var bonus := if kind == Pawn then PawnBonus(colour, row) else 0;
      (PieceValue(kind) + bonus) * multiplier
  }

  /* ---------------- Whole-board sum ---------------- */

  /** The scores of squares (row, 0) .. (row, n-1). */
  function RowScore(g: Grid, row: int, n: int): (r: int)
    requires 0 <= row < 8 && 0 <= n <= 8
    ensures -KingValue * n <= r <= KingValue * n
  {
    if n == 0 then 0 else RowScore(g, row, n - 1) + EvaluatePiece(g[row][n - 1], row)
  }

  /** The scores of rows 0 .. n-1. */
  function BoardScore(g: Grid, n: int): (r: int)
    requires 0 <= n <= 8
    ensures -8 * KingValue * n <= r <= 8 * KingValue * n
  {
    if n == 0 then 0 else BoardScore(g, n - 1) + RowScore(g, n - 1, 8)
  }

  /** The source's `evaluatePosition`. No board can push the score outside
      64 kings' worth, so the C++ `int` sum never overflows. */
  function Evaluate(g: Grid): (r: int)
    ensures -64 * KingValue <= r <= 64 * KingValue
    ensures IntMin < r < IntMax
  {
    BoardScore(g, 8)
  }

  /** The row-major double loop of the source, skipping empty squares. */
  method EvaluatePosition(g: Grid) returns (score: int)
    ensures score == Evaluate(g)
  {
    score := 0;
    for row := 0 to 8
      invariant score == BoardScore(g, row)
    {
      for col := 0 to 8
        invariant score == BoardScore(g, row) + RowScore(g, row, col)
      {
        if !g[row][col].Empty? {
          score := score + EvaluatePiece(g[row][col], row);
        }
      }
    }
  }

  /* ---------------- Colour symmetry ---------------- */

  function Opponent(c: Colour): Colour
  {
    if c == White then Black else White
  }

  function Flip(cell: Cell): Cell
  {
    match cell
    case Empty => Empty
    case Piece(c, k) => Piece(Opponent(c), k)
  }

  /** The board seen from the other side: rows reversed and colours swapped. */
  function Mirror(g: Grid): (h: Grid)
    ensures forall r, c :: InBounds(r, c) ==> h[r][c] == Flip(g[7 - r][c])
  {
    seq(8, r requires 0 <= r < 8 => seq(8, c requires 0 <= c < 8 => Flip(g[7 - r][c])))
  }

  lemma MirrorPiece(cell: Cell, row: int)
    requires 0 <= row < 8
    ensures EvaluatePiece(Flip(cell), 7 - row) == -EvaluatePiece(cell, row)
  {
  }

  lemma {:induction false} MirrorRow(g: Grid, row: int, n: int)
    requires 0 <= row < 8 && 0 <= n <= 8
    ensures RowScore(Mirror(g), 7 - row, n) == -RowScore(g, row, n)
    decreases n
  {
    if n > 0 {
      MirrorRow(g, row, n - 1);
      MirrorPiece(g[row][n - 1], row);
    }
  }

  /** The evaluation written out as eight row sums. */
  lemma EvaluateByRows(g: Grid)
    ensures Evaluate(g) == RowScore(g, 0, 8) + RowScore(g, 1, 8) + RowScore(g, 2, 8) + RowScore(g, 3, 8)
                          + RowScore(g, 4, 8) + RowScore(g, 5, 8) + RowScore(g, 6, 8) + RowScore(g, 7, 8)
  {
    assert BoardScore(g, 1) == RowScore(g, 0, 8);
    assert BoardScore(g, 2) == BoardScore(g, 1) + RowScore(g, 1, 8);
    assert BoardScore(g, 3) == BoardScore(g, 2) + RowScore(g, 2, 8);
    assert BoardScore(g, 4) == BoardScore(g, 3) + RowScore(g, 3, 8);
    assert BoardScore(g, 5) == BoardScore(g, 4) + RowScore(g, 4, 8);
    assert BoardScore(g, 6) == BoardScore(g, 5) + RowScore(g, 5, 8);
    assert BoardScore(g, 7) == BoardScore(g, 6) + RowScore(g, 6, 8);
  }

  /** The evaluation is colour-blind: the position seen from the other side
      scores exactly the negation. */
  lemma MirrorNegates(g: Grid)
    ensures Evaluate(Mirror(g)) == -Evaluate(g)
  {
    EvaluateByRows(g);
    EvaluateByRows(Mirror(g));
    forall row | 0 <= row < 8
      ensures RowScore(Mirror(g), 7 - row, 8) == -RowScore(g, row, 8)
    {
      MirrorRow(g, row, 8);
    }
  }

  /** A position equal to its own mirror image is level. */
  lemma SymmetricIsLevel(g: Grid)
    requires Mirror(g) == g
    ensures Evaluate(g) == 0
  {
    MirrorNegates(g);
  }

  /* ---------------- Positions ---------------- */

  /** The starting position is level. */
  lemma InitialIsLevel()
    ensures Evaluate(InitialGrid()) == 0
  {
    var g := InitialGrid();
    forall r, c | InBounds(r, c)
      ensures Mirror(g)[r][c] == g[r][c]
    {
    }
    assert forall r | 0 <= r < 8 :: Mirror(g)[r] == g[r];
    SymmetricIsLevel(g);
  }

  lemma {:induction false} RowOfOne(g: Grid, row: int, col: int, n: int)
    requires InBounds(row, col) && 0 <= n <= 8
    requires forall c :: 0 <= c < 8 && c != col ==> g[row][c].Empty?
    ensures RowScore(g, row, n) == if col < n then EvaluatePiece(g[row][col], row) else 0
    decreases n
  {
    if n > 0 {
      RowOfOne(g, row, col, n - 1);
    }
  }

  lemma {:induction false} BoardOfOne(g: Grid, row: int, col: int, n: int)
    requires InBounds(row, col) && 0 <= n <= 8
    requires forall r, c :: InBounds(r, c) && (r, c) != (row, col) ==> g[r][c].Empty?
    ensures BoardScore(g, n) == if row < n then EvaluatePiece(g[row][col], row) else 0
    decreases n
  {
    if n > 0 {
      BoardOfOne(g, row, col, n - 1);
      if n - 1 == row {
        RowOfOne(g, row, col, 8);
      } else {
        RowOfOne(g, n - 1, 0, 8);
      }
    }
  }

  /** A board with at most one piece scores exactly that piece. */
  lemma LonePieceScores(g: Grid, row: int, col: int)
    requires InBounds(row, col)
    requires forall r, c :: InBounds(r, c) && (r, c) != (row, col) ==> g[r][c].Empty?
    ensures Evaluate(g) == EvaluatePiece(g[row][col], row)
  {
    BoardOfOne(g, row, col, 8);
  }

  /** The empty board scores 0. */
  lemma EmptyIsLevel()
    ensures Evaluate(EmptyGrid) == 0
  {
    LonePieceScores(EmptyGrid, 0, 0);
  }

  /** A lone White pawn on its starting square is worth its base value plus
      one row of bonus, and on the promotion row plus seven rows; a lone Black
      pawn one step from promotion is worth the negation of its base value
      plus six rows. */
  lemma LonePawnScores()
    ensures Evaluate(EmptyGrid[6 := EmptyGrid[6][3 := Piece(White, Pawn)]]) == 110
    ensures Evaluate(EmptyGrid[0 := EmptyGrid[0][3 := Piece(White, Pawn)]]) == 170
    ensures Evaluate(EmptyGrid[6 := EmptyGrid[6][3 := Piece(Black, Pawn)]]) == -160
  {
    LonePieceScores(EmptyGrid[0 := EmptyGrid[0][3 := Piece(White, Pawn)]], 0, 3);
    LonePieceScores(EmptyGrid[6 := EmptyGrid[6][3 := Piece(White, Pawn)]], 6, 3);
    LonePieceScores(EmptyGrid[6 := EmptyGrid[6][3 := Piece(Black, Pawn)]], 6, 3);
  }
}
