/** The board snapshot and move record shared by the whole engine.

    A board is an 8x8 grid indexed [row][col]; row 0 is Black's back rank and
    row 7 White's. The source stores two-character piece codes ("wP", "bK")
    with "" for an empty square; here a cell is `Empty` or a `Piece` with a
    colour and a kind. A kind letter other than P N B R Q K becomes `Other`. */
module Board {

  datatype Colour = White | Black
  datatype Kind = Pawn | Knight | Bishop | Rook | Queen | King | Other
  datatype Cell = Empty | Piece(colour: Colour, kind: Kind)

  /** A board as a value: exactly 64 cells. */
  type Grid = g: seq<seq<Cell>> | |g| == 8 && forall r :: 0 <= r < 8 ==> |g[r]| == 8
    witness EmptyRows()

  function EmptyRows(): seq<seq<Cell>>
  {
    seq(8, _ => seq(8, _ => Empty))
  }

  /** The board with no pieces on it. */
  const EmptyGrid: Grid := EmptyRows()

  function BackRank(c: Colour): seq<Cell>
  {
    [Piece(c, Rook), Piece(c, Knight), Piece(c, Bishop), Piece(c, Queen),
     Piece(c, King), Piece(c, Bishop), Piece(c, Knight), Piece(c, Rook)]
  }

  function PawnRank(c: Colour): seq<Cell>
  {
    seq(8, _ => Piece(c, Pawn))
  }

  function EmptyRank(): seq<Cell>
  {
    seq(8, _ => Empty)
  }

  /** The standard starting position: Black on rows 0 and 1, White on rows 6 and 7. */
  function InitialGrid(): (g: Grid)
    ensures g[0][4] == Piece(Black, King) && g[7][4] == Piece(White, King)
  {
    [BackRank(Black), PawnRank(Black), EmptyRank(), EmptyRank(),
     EmptyRank(), EmptyRank(), PawnRank(White), BackRank(White)]
  }

  /** A square as (row, col). */
  type Pos = (int, int)

  /** A move with the evaluation score attached to it (not part of its identity). */
  datatype Move = Move(fromRow: int, fromCol: int, toRow: int, toCol: int, value: int)

  /** Returned by the top-level search when the side to move has no move. */
  const NoMove := Move(-1, -1, -1, -1, 0)

  /** The C++ `int` extremes the search uses as sentinels. */
  const IntMin: int := -0x8000_0000
  const IntMax: int := 0x7FFF_FFFF

  predicate InBounds(row: int, col: int)
  {
    0 <= row < 8 && 0 <= col < 8
  }

  predicate MoveInBounds(m: Move)
  {
    InBounds(m.fromRow, m.fromCol) && InBounds(m.toRow, m.toCol)
  }

  function ColourOf(white: bool): Colour
  {
    if white then White else Black
  }

  /** The cell holds a piece of the side to move. */
  predicate IsOwn(cell: Cell, white: bool)
  {
    cell.Piece? && cell.colour == ColourOf(white)
  }

  /** A move record built from four coordinates; the value defaults to 0. */
  function MakeMove(fr: int, fc: int, tr: int, tc: int): (m: Move)
    ensures m.fromRow == fr && m.fromCol == fc && m.toRow == tr && m.toCol == tc
    ensures m.value == 0
  {
    Move(fr, fc, tr, tc, 0)
  }

  /** The contents of a board array as a value. */
  function Snapshot(a: array2<Cell>): Grid
    reads a
    requires a.Length0 == 8 && a.Length1 == 8
  {
    seq(8, r requires 0 <= r < 8 reads a => seq(8, c requires 0 <= c < 8 reads a => a[r, c]))
  }

  /** The board after a move is simulated: the destination receives what was
      on the source square, then the source square is cleared. */
  function AfterMove(g: Grid, m: Move): (h: Grid)
    requires MoveInBounds(m)
    ensures h[m.fromRow][m.fromCol] == Empty
    ensures (m.toRow, m.toCol) != (m.fromRow, m.fromCol) ==> h[m.toRow][m.toCol] == g[m.fromRow][m.fromCol]
    ensures forall r, c :: InBounds(r, c) && (r, c) != (m.fromRow, m.fromCol) && (r, c) != (m.toRow, m.toCol)
              ==> h[r][c] == g[r][c]
  {
    var moved := g[m.toRow := g[m.toRow][m.toCol := g[m.fromRow][m.fromCol]]];
    moved[m.fromRow := moved[m.fromRow][m.fromCol := Empty]]
  }

  /** The source's board copy for one branch: a fresh array filled from the
      position, the destination given the moving piece and the origin
      cleared in place; the caller's position is a value and stays as it is. */
  method SimulateMove(g: Grid, m: Move) returns (child: Grid)
    requires MoveInBounds(m)
    ensures child == AfterMove(g, m)
  {
    var temp := new Cell[8, 8];
    for i := 0 to 8
      invariant forall r, c :: 0 <= r < i && 0 <= c < 8 ==> temp[r, c] == g[r][c]
    {
      for j := 0 to 8
        invariant forall r, c :: 0 <= r < i && 0 <= c < 8 ==> temp[r, c] == g[r][c]
        invariant forall c :: 0 <= c < j ==> temp[i, c] == g[i][c]
      {
        temp[i, j] := g[i][j];
      }
    }
    temp[m.toRow, m.toCol] := temp[m.fromRow, m.fromCol];
    temp[m.fromRow, m.fromCol] := Empty;
    child := Snapshot(temp);
    ghost var h := AfterMove(g, m);
    forall r | 0 <= r < 8
      ensures child[r] == h[r]
    {
      assert forall c :: 0 <= c < 8 ==> child[r][c] == h[r][c];
    }
  }
}
