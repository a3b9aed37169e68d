/** Pseudo-legal move generation of the engine: the per-piece generators,
    the move filter and the board-wide generator.

    Each generator in the source appends (row, col) targets to a vector passed
    by reference; here it takes the vector's contents and returns them with
    the new targets appended, and is proved equal to a specification function
    (`PawnTargets`, `KnightTargets`, ...). Lemmas then say what those targets
    are, independently of how they are computed. */
module MoveGen {
  import opened Board

  /* ---------------- Move filter ---------------- */

  /** The source's `isValidMove`: both squares on the board, the source holds
      a piece of the side to move, and the destination does not hold a piece
      of the mover's own colour. No check safety is tested. */
  function IsValidMove(g: Grid, fromRow: int, fromCol: int, toRow: int, toCol: int, white: bool): (ok: bool)
    ensures ok <==> InBounds(fromRow, fromCol) && InBounds(toRow, toCol)
                    && IsOwn(g[fromRow][fromCol], white) && !IsOwn(g[toRow][toCol], white)
  {
    if !InBounds(fromRow, fromCol) || !InBounds(toRow, toCol) then false
    else if g[fromRow][fromCol].Empty? then false
    else if (g[fromRow][fromCol].colour == White && !white) || (g[fromRow][fromCol].colour == Black && white) then false
    else if !g[toRow][toCol].Empty? && g[toRow][toCol].colour == g[fromRow][fromCol].colour then false
    else true
  }

  /** A destination the generators accept: on the board and not holding a
      piece of the mover's colour (empty, or an opposing piece to capture). */
  predicate Reachable(g: Grid, t: Pos, white: bool)
  {
    InBounds(t.0, t.1) && !IsOwn(g[t.0][t.1], white)
  }

  /* ---------------- Pawn ---------------- */

  function PawnDirection(white: bool): int
  {
    if white then -1 else 1
  }

  function PawnStartRow(white: bool): int
  {
    if white then 6 else 1
  }

  /** The single step and, from the starting row, the double step. */
  function PawnPushes(g: Grid, row: int, col: int, white: bool): seq<Pos>
    requires InBounds(row, col)
  {
    var dir := PawnDirection(white);
    if 0 <= row + dir < 8 && g[row + dir][col].Empty? then
      [(row + dir, col)]
      + (if row == PawnStartRow(white) && g[row + 2 * dir][col].Empty? then [(row + 2 * dir, col)] else [])
    else []
  }

  /** The diagonal capture towards column `col + dc`. */
  function PawnCapture(g: Grid, row: int, col: int, white: bool, dc: int): seq<Pos>
  {
    var dir := PawnDirection(white);
    var newCol := col + dc;
    if 0 <= newCol < 8 && 0 <= row + dir < 8
       && !g[row + dir][newCol].Empty? && g[row + dir][newCol].colour != ColourOf(white)
    then [(row + dir, newCol)]
    else []
  }

  function PawnTargets(g: Grid, row: int, col: int, white: bool): (ts: seq<Pos>)
    requires InBounds(row, col)
  {
    PawnPushes(g, row, col, white) + PawnCapture(g, row, col, white, -1) + PawnCapture(g, row, col, white, 1)
  }

  method GeneratePawnMoves(g: Grid, row: int, col: int, white: bool, moves: seq<Pos>)
    returns (out: seq<Pos>)
    requires InBounds(row, col)
    ensures out == moves + PawnTargets(g, row, col, white)
  {
    var direction := if white then -1 else 1;
    var startRow := if white then 6 else 1;
    out := moves;
    if row + direction >= 0 && row + direction < 8 && g[row + direction][col].Empty? {
      out := out + [(row + direction, col)];
      if row == startRow && g[row + 2 * direction][col].Empty? {
        out := out + [(row + 2 * direction, col)];
      }
    }
    assert out == moves + PawnPushes(g, row, col, white);
    out := GeneratePawnCaptures(g, row, col, white, out);
  }

  /** The capture loop of the pawn generator: the left diagonal, then the right. */
  method GeneratePawnCaptures(g: Grid, row: int, col: int, white: bool, moves: seq<Pos>)
    returns (out: seq<Pos>)
    requires InBounds(row, col)
    ensures out == moves + PawnCapture(g, row, col, white, -1) + PawnCapture(g, row, col, white, 1)
  {
    var direction := if white then -1 else 1;
    out := moves;
    var dc := -1;
    while dc <= 1
      invariant dc == -1 || dc == 1 || dc == 3
      invariant dc == -1 ==> out == moves
      invariant dc == 1 ==> out == moves + PawnCapture(g, row, col, white, -1)
      invariant dc == 3 ==> out == moves + PawnCapture(g, row, col, white, -1) + PawnCapture(g, row, col, white, 1)
    {
      var newCol := col + dc;
      if newCol >= 0 && newCol < 8 && row + direction >= 0 && row + direction < 8 {
        if !g[row + direction][newCol].Empty? && g[row + direction][newCol].colour != ColourOf(white) {
          out := out + [(row + direction, newCol)];
        }
      }
      dc := dc + 2;
    }
  }

  /** What a pawn may do: a single step straight ahead onto an empty square;
      a double step from the starting row over two empty squares; a diagonal
      step onto a square holding an opposing piece. Nothing else. */
  lemma PawnTargetsExactly(g: Grid, row: int, col: int, white: bool, t: Pos)
    requires InBounds(row, col)
    ensures t in PawnTargets(g, row, col, white) <==>
      || (t == (row + PawnDirection(white), col) && InBounds(t.0, t.1) && g[t.0][t.1].Empty?)
      || (row == PawnStartRow(white) && t == (row + 2 * PawnDirection(white), col)
          && g[row + PawnDirection(white)][col].Empty? && g[t.0][t.1].Empty?)
      || (t.0 == row + PawnDirection(white) && (t.1 == col - 1 || t.1 == col + 1) && InBounds(t.0, t.1)
          && g[t.0][t.1].Piece? && !IsOwn(g[t.0][t.1], white))
  {
  }

  /** Pawns only move towards the promotion rank: White to lower rows, Black to higher. */
  lemma PawnMovesForward(g: Grid, row: int, col: int, white: bool, t: Pos)
    requires InBounds(row, col)
    requires t in PawnTargets(g, row, col, white)
    ensures white ==> t.0 < row
    ensures !white ==> t.0 > row
  {
    PawnTargetsExactly(g, row, col, white, t);
  }

  /* ---------------- Knight ---------------- */

  const KnightOffsets: seq<Pos> := [(2, 1), (2, -1), (-2, 1), (-2, -1), (1, 2), (1, -2), (-1, 2), (-1, -2)]

  /** The targets of a fixed list of (row, col) offsets, in list order. */
  function Jumps(g: Grid, row: int, col: int, white: bool, offsets: seq<Pos>): (ts: seq<Pos>)
    decreases |offsets|
  {
    if offsets == [] then []
    else
      var o := offsets[|offsets| - 1];
      var newRow, newCol := row + o.0, col + o.1;
      Jumps(g, row, col, white, offsets[..|offsets| - 1])
      + (if InBounds(newRow, newCol) && (g[newRow][newCol].Empty? || g[newRow][newCol].colour != ColourOf(white))
         then [(newRow, newCol)] else [])
  }

  function KnightTargets(g: Grid, row: int, col: int, white: bool): (ts: seq<Pos>)
  {
    Jumps(g, row, col, white, KnightOffsets)
  }

  method GenerateKnightMoves(g: Grid, row: int, col: int, white: bool, moves: seq<Pos>)
    returns (out: seq<Pos>)
    ensures out == moves + KnightTargets(g, row, col, white)
  {
    out := moves;
    for i := 0 to 8
      invariant out == moves + Jumps(g, row, col, white, KnightOffsets[..i])
    {
      var newRow := row + KnightOffsets[i].0;
      var newCol := col + KnightOffsets[i].1;
      assert KnightOffsets[..i + 1][..i] == KnightOffsets[..i];
      if newRow >= 0 && newRow < 8 && newCol >= 0 && newCol < 8 {
        if g[newRow][newCol].Empty? || g[newRow][newCol].colour != ColourOf(white) {
          out := out + [(newRow, newCol)];
        }
      }
    }
    assert KnightOffsets[..8] == KnightOffsets;
  }

  lemma {:induction false} JumpsExactly(g: Grid, row: int, col: int, white: bool, offsets: seq<Pos>, t: Pos)
    ensures t in Jumps(g, row, col, white, offsets) <==> (t.0 - row, t.1 - col) in offsets && Reachable(g, t, white)
    decreases |offsets|
  {
    if offsets != [] {
      JumpsExactly(g, row, col, white, offsets[..|offsets| - 1], t);
      assert offsets == offsets[..|offsets| - 1] + [offsets[|offsets| - 1]];
    }
  }

  function Abs(x: int): int
  {
    if x < 0 then -x else x
  }

  predicate IsKnightJump(dr: int, dc: int)
  {
    (Abs(dr) == 1 && Abs(dc) == 2) || (Abs(dr) == 2 && Abs(dc) == 1)
  }

  /** A knight reaches exactly the on-board squares a (1,2) or (2,1) jump
      away that do not hold one of its own pieces. */
  lemma KnightTargetsExactly(g: Grid, row: int, col: int, white: bool, t: Pos)
    ensures t in KnightTargets(g, row, col, white) <==>
      InBounds(t.0, t.1) && IsKnightJump(t.0 - row, t.1 - col) && !IsOwn(g[t.0][t.1], white)
  {
    JumpsExactly(g, row, col, white, KnightOffsets, t);
  }

  /* ---------------- King ---------------- */

  function KingStep(g: Grid, row: int, col: int, white: bool, dr: int, dc: int): seq<Pos>
  {
    if dr == 0 && dc == 0 then []
    else
      var newRow, newCol := row + dr, col + dc;
      if InBounds(newRow, newCol) && (g[newRow][newCol].Empty? || g[newRow][newCol].colour != ColourOf(white))
      then [(newRow, newCol)] else []
  }

  /** The steps with row offset `dr` and column offsets -1 .. n-2. */
  function KingLine(g: Grid, row: int, col: int, white: bool, dr: int, n: nat): (ts: seq<Pos>)
  {
    if n == 0 then [] else KingLine(g, row, col, white, dr, n - 1) + KingStep(g, row, col, white, dr, n - 2)
  }

  /** The steps with row offsets -1 .. n-2. */
  function KingLines(g: Grid, row: int, col: int, white: bool, n: nat): (ts: seq<Pos>)
  {
    if n == 0 then [] else KingLines(g, row, col, white, n - 1) + KingLine(g, row, col, white, n - 2, 3)
  }

  function KingTargets(g: Grid, row: int, col: int, white: bool): (ts: seq<Pos>)
  {
    KingLines(g, row, col, white, 3)
  }

  method GenerateKingMoves(g: Grid, row: int, col: int, white: bool, moves: seq<Pos>)
    returns (out: seq<Pos>)
    ensures out == moves + KingTargets(g, row, col, white)
  {
    out := moves;
    for dr := -1 to 2
      invariant out == moves + KingLines(g, row, col, white, dr + 1)
    {
      out := GenerateKingLine(g, row, col, white, dr, out);
    }
  }

  /** The inner loop of the king generator: the three steps with row offset
      `dr`, skipping the null step. */
  method GenerateKingLine(g: Grid, row: int, col: int, white: bool, dr: int, moves: seq<Pos>)
    returns (out: seq<Pos>)
    ensures out == moves + KingLine(g, row, col, white, dr, 3)
  {
    out := moves;
    for dc := -1 to 2
      invariant out == moves + KingLine(g, row, col, white, dr, dc + 1)
    {
      if dr == 0 && dc == 0 {
        continue;
      }
      var newRow := row + dr;
      var newCol := col + dc;
      if newRow >= 0 && newRow < 8 && newCol >= 0 && newCol < 8 {
        if g[newRow][newCol].Empty? || g[newRow][newCol].colour != ColourOf(white) {
          out := out + [(newRow, newCol)];
        }
      }
    }
  }

  /** The steps with row offset `dr` are exactly the on-board squares in
      that row beside or at the king's column, other than its own square,
      that do not hold one of its own pieces. */
  lemma KingLineExactly(g: Grid, row: int, col: int, white: bool, dr: int, t: Pos)
    ensures t in KingLine(g, row, col, white, dr, 3) <==>
      t.0 == row + dr && InBounds(t.0, t.1) && t != (row, col) && Abs(t.1 - col) <= 1
      && !IsOwn(g[t.0][t.1], white)
  {
    assert KingLine(g, row, col, white, dr, 3)
        == KingStep(g, row, col, white, dr, -1) + KingStep(g, row, col, white, dr, 0) + KingStep(g, row, col, white, dr, 1)
    by {
      assert KingLine(g, row, col, white, dr, 1) == KingStep(g, row, col, white, dr, -1);
    }
  }

  /** A king reaches exactly the on-board neighbouring squares that do not
      hold one of its own pieces. */
  lemma KingTargetsExactly(g: Grid, row: int, col: int, white: bool, t: Pos)
    ensures t in KingTargets(g, row, col, white) <==>
      InBounds(t.0, t.1) && t != (row, col) && Abs(t.0 - row) <= 1 && Abs(t.1 - col) <= 1
      && !IsOwn(g[t.0][t.1], white)
  {
    assert KingTargets(g, row, col, white)
        == KingLine(g, row, col, white, -1, 3) + KingLine(g, row, col, white, 0, 3) + KingLine(g, row, col, white, 1, 3)
    by {
      assert KingLines(g, row, col, white, 1) == KingLine(g, row, col, white, -1, 3);
      assert KingLines(g, row, col, white, 2) == KingLines(g, row, col, white, 1) + KingLine(g, row, col, white, 0, 3);
    }
    KingLineExactly(g, row, col, white, -1, t);
    KingLineExactly(g, row, col, white, 0, t);
    KingLineExactly(g, row, col, white, 1, t);
  }

  /* ---------------- Sliding pieces ---------------- */

  const BishopDirections: seq<Pos> := [(1, 1), (1, -1), (-1, 1), (-1, -1)]
  const RookDirections: seq<Pos> := [(1, 0), (-1, 0), (0, 1), (0, -1)]

  /** The square `k` steps from (row, col) in direction (dr, dc). */
  function Square(row: int, col: int, dr: int, dc: int, k: int): Pos
  {
    (row + k * dr, col + k * dc)
  }

  predicate IsFree(g: Grid, p: Pos)
  {
    InBounds(p.0, p.1) && g[p.0][p.1].Empty?
  }

  /** The ray from step `i` on: empty squares are emitted and the ray goes on;
      the first occupied square is emitted only if it holds an opposing piece,
      and the ray stops there; leaving the board (or step 8) stops it too. */
  function Ray(g: Grid, row: int, col: int, white: bool, dr: int, dc: int, i: int): (ts: seq<Pos>)
    decreases 8 - i
  {
    if i >= 8 then []
    else
      var s := Square(row, col, dr, dc, i);
      if !InBounds(s.0, s.1) then []
      else if g[s.0][s.1].Empty? then [s] + Ray(g, row, col, white, dr, dc, i + 1)
      else if g[s.0][s.1].colour != ColourOf(white) then [s]
      else []
  }

  /** The rays of the directions `dirs[d..]`, in list order. */
  function Rays(g: Grid, row: int, col: int, white: bool, dirs: seq<Pos>, d: nat): (ts: seq<Pos>)
    decreases |dirs| - d
  {
    if d >= |dirs| then []
    else Ray(g, row, col, white, dirs[d].0, dirs[d].1, 1) + Rays(g, row, col, white, dirs, d + 1)
  }

  function BishopTargets(g: Grid, row: int, col: int, white: bool): (ts: seq<Pos>)
  {
    Rays(g, row, col, white, BishopDirections, 0)
  }

  function RookTargets(g: Grid, row: int, col: int, white: bool): (ts: seq<Pos>)
  {
    Rays(g, row, col, white, RookDirections, 0)
  }

  /** The queen's targets: the rook's, then the bishop's. */
  function QueenTargets(g: Grid, row: int, col: int, white: bool): (ts: seq<Pos>)
  {
    RookTargets(g, row, col, white) + BishopTargets(g, row, col, white)
  }

  /** One direction of the ray walk shared by the bishop and the rook
      generators: step until leaving the board, emit empty squares, and at the
      first occupied square emit it if it is a capture and stop. */
  method WalkRay(g: Grid, row: int, col: int, white: bool, dr: int, dc: int, moves: seq<Pos>)
    returns (out: seq<Pos>)
    ensures out == moves + Ray(g, row, col, white, dr, dc, 1)
  {
    out := moves;
    var i := 1;
    while i < 8
      invariant 1 <= i <= 8
      invariant moves + Ray(g, row, col, white, dr, dc, 1) == out + Ray(g, row, col, white, dr, dc, i)
    {
      ghost var s := Square(row, col, dr, dc, i);
      var newRow := row + i * dr;
      var newCol := col + i * dc;
      assert s == (newRow, newCol);
      if newRow < 0 || newRow >= 8 || newCol < 0 || newCol >= 8 {
        assert Ray(g, row, col, white, dr, dc, i) == [];
        break;
      }
      if g[newRow][newCol].Empty? {
        assert Ray(g, row, col, white, dr, dc, i) == [s] + Ray(g, row, col, white, dr, dc, i + 1);
        out := out + [(newRow, newCol)];
      } else {
        if g[newRow][newCol].colour != ColourOf(white) {
          out := out + [(newRow, newCol)];
        }
        assert moves + Ray(g, row, col, white, dr, dc, 1) == out;
        break;
      }
      i := i + 1;
    }
  }

  /** The direction-by-direction walk shared by the bishop and the rook
      generators (the source writes the same loops twice). */
  method GenerateSlidingMoves(g: Grid, row: int, col: int, white: bool, dirs: seq<Pos>, moves: seq<Pos>)
    returns (out: seq<Pos>)
    ensures out == moves + Rays(g, row, col, white, dirs, 0)
  {
    out := moves;
    for d := 0 to |dirs|
      invariant moves + Rays(g, row, col, white, dirs, 0) == out + Rays(g, row, col, white, dirs, d)
    {
      AppendAssoc(out, Ray(g, row, col, white, dirs[d].0, dirs[d].1, 1), Rays(g, row, col, white, dirs, d + 1));
      out := WalkRay(g, row, col, white, dirs[d].0, dirs[d].1, out);
    }
  }

  lemma AppendAssoc<T>(a: seq<T>, b: seq<T>, c: seq<T>)
    ensures a + (b + c) == (a + b) + c
  {
  }

  method GenerateBishopMoves(g: Grid, row: int, col: int, white: bool, moves: seq<Pos>)
    returns (out: seq<Pos>)
    ensures out == moves + BishopTargets(g, row, col, white)
  {
    out := GenerateSlidingMoves(g, row, col, white, BishopDirections, moves);
  }

  method GenerateRookMoves(g: Grid, row: int, col: int, white: bool, moves: seq<Pos>)
    returns (out: seq<Pos>)
    ensures out == moves + RookTargets(g, row, col, white)
  {
    out := GenerateSlidingMoves(g, row, col, white, RookDirections, moves);
  }

  method GenerateQueenMoves(g: Grid, row: int, col: int, white: bool, moves: seq<Pos>)
    returns (out: seq<Pos>)
    ensures out == moves + QueenTargets(g, row, col, white)
  {
    out := GenerateRookMoves(g, row, col, white, moves);
    out := GenerateBishopMoves(g, row, col, white, out);
  }

  /** The squares strictly before step `k` on the ray, from step `i`, are all empty. */
  ghost predicate ClearBetween(g: Grid, row: int, col: int, dr: int, dc: int, i: int, k: int)
  {
    forall j :: i <= j < k ==> IsFree(g, Square(row, col, dr, dc, j))
  }

  /** A ray emits exactly the squares `k` steps along it (k below 8) that are
      on the board, are reached over empty squares only, and are empty or
      hold an opposing piece: the first occupied square ends the ray and is
      emitted only as a capture. */
  lemma {:induction false} RayExactly(g: Grid, row: int, col: int, white: bool, dr: int, dc: int, i: int, t: Pos)
    ensures t in Ray(g, row, col, white, dr, dc, i) <==>
      exists k :: i <= k < 8 && t == Square(row, col, dr, dc, k) && Reachable(g, t, white)
                  && ClearBetween(g, row, col, dr, dc, i, k)
    decreases 8 - i
  {
    if i < 8 {
      var s := Square(row, col, dr, dc, i);
      RayExactly(g, row, col, white, dr, dc, i + 1, t);
      if t in Ray(g, row, col, white, dr, dc, i) {
        if t == s {
          assert ClearBetween(g, row, col, dr, dc, i, i);
        } else {
          var k :| i + 1 <= k < 8 && t == Square(row, col, dr, dc, k) && Reachable(g, t, white)
                   && ClearBetween(g, row, col, dr, dc, i + 1, k);
          assert ClearBetween(g, row, col, dr, dc, i, k);
        }
      } else {
        forall k | i <= k < 8 && t == Square(row, col, dr, dc, k) && Reachable(g, t, white)
          ensures !ClearBetween(g, row, col, dr, dc, i, k)
        {
          if k > i && IsFree(g, s) {
            assert !ClearBetween(g, row, col, dr, dc, i + 1, k);
          }
        }
      }
    }
  }

  /* ---------------- Board-wide generation ---------------- */

  /** The targets the source's switch asks for, by the kind of the piece on
      the square; an unknown kind generates nothing. */
  function TargetsOf(g: Grid, row: int, col: int, white: bool): (ts: seq<Pos>)
    requires InBounds(row, col)
  {
    match g[row][col]
    case Empty => []
    case Piece(_, kind) =>
      match kind
      case Pawn => PawnTargets(g, row, col, white)
      case Knight => KnightTargets(g, row, col, white)
      case Bishop => BishopTargets(g, row, col, white)
      case Rook => RookTargets(g, row, col, white)
      case Queen => QueenTargets(g, row, col, white)
      case King => KingTargets(g, row, col, white)
      case Other => []
  }

  /** A ray only emits on-board squares without a piece of the mover's colour. */
  lemma {:induction false} RayReachable(g: Grid, row: int, col: int, white: bool, dr: int, dc: int, i: int)
    ensures forall t :: t in Ray(g, row, col, white, dr, dc, i) ==> Reachable(g, t, white)
    decreases 8 - i
  {
    if i < 8 {
      RayReachable(g, row, col, white, dr, dc, i + 1);
    }
  }

  lemma {:induction false} RaysReachable(g: Grid, row: int, col: int, white: bool, dirs: seq<Pos>, d: nat)
    ensures forall t :: t in Rays(g, row, col, white, dirs, d) ==> Reachable(g, t, white)
    decreases |dirs| - d
  {
    if d < |dirs| {
      RaysReachable(g, row, col, white, dirs, d + 1);
      RayReachable(g, row, col, white, dirs[d].0, dirs[d].1, 1);
    }
  }

  lemma TargetsReachable(g: Grid, row: int, col: int, white: bool)
    requires InBounds(row, col)
    ensures forall t :: t in TargetsOf(g, row, col, white) ==> Reachable(g, t, white)
  {
    forall t | t in TargetsOf(g, row, col, white)
      ensures Reachable(g, t, white)
    {
      match g[row][col].kind
      case Pawn => PawnTargetsExactly(g, row, col, white, t);
      case Knight => KnightTargetsExactly(g, row, col, white, t);
      case King => KingTargetsExactly(g, row, col, white, t);
      case Bishop => RaysReachable(g, row, col, white, BishopDirections, 0);
      case Rook => RaysReachable(g, row, col, white, RookDirections, 0);
      case Queen =>
        RaysReachable(g, row, col, white, BishopDirections, 0);
        RaysReachable(g, row, col, white, RookDirections, 0);
      case Other =>
    }
  }

  /** A move as the generator emits it: on the board, from a piece of the side
      to move to a square without one, with value 0. */
  predicate PseudoLegal(g: Grid, white: bool, m: Move)
  {
    MoveInBounds(m) && IsOwn(g[m.fromRow][m.fromCol], white) && !IsOwn(g[m.toRow][m.toCol], white) && m.value == 0
  }

  /** A move whose destination is one of the targets the rule of the piece
      on its origin gives. */
  predicate FollowsPieceRule(g: Grid, white: bool, m: Move)
  {
    MoveInBounds(m) && (m.toRow, m.toCol) in TargetsOf(g, m.fromRow, m.fromCol, white)
  }

  /** The targets that pass the move filter, as moves from (row, col). */
  function Keep(g: Grid, white: bool, row: int, col: int, ts: seq<Pos>): (ms: seq<Move>)
    decreases |ts|
  {
    if ts == [] then []
    else
      var t := ts[|ts| - 1];
      Keep(g, white, row, col, ts[..|ts| - 1])
      + (if IsValidMove(g, row, col, t.0, t.1, white) then [MakeMove(row, col, t.0, t.1)] else [])
  }

  /** The moves of the piece on one square, if it belongs to the side to move. */
  function SquareMoves(g: Grid, white: bool, row: int, col: int): (ms: seq<Move>)
    requires InBounds(row, col)
  {
    if IsOwn(g[row][col], white) then Keep(g, white, row, col, TargetsOf(g, row, col, white)) else []
  }

  /** The moves of squares (row, 0) .. (row, n-1). */
  function RowMoves(g: Grid, white: bool, row: int, n: int): (ms: seq<Move>)
    requires 0 <= row < 8 && 0 <= n <= 8
  {
    if n == 0 then [] else RowMoves(g, white, row, n - 1) + SquareMoves(g, white, row, n - 1)
  }

  /** The moves of rows 0 .. n-1, in row-major order. */
  function BoardMoves(g: Grid, white: bool, n: int): (ms: seq<Move>)
    requires 0 <= n <= 8
  {
    if n == 0 then [] else BoardMoves(g, white, n - 1) + RowMoves(g, white, n - 1, 8)
  }

  /** The list the source's `generateAllMoves` returns: squares in row-major
      order, each square's moves in its generator's order. */
  function AllMoves(g: Grid, white: bool): (ms: seq<Move>)
  {
    BoardMoves(g, white, 8)
  }

  /** The filter only lets through moves from (row, col) to one of the
      targets it was given that pass `IsValidMove`. */
  lemma {:induction false} KeepSound(g: Grid, white: bool, row: int, col: int, ts: seq<Pos>)
    ensures forall m :: m in Keep(g, white, row, col, ts) ==>
              m.fromRow == row && m.fromCol == col && m.value == 0
              && IsValidMove(g, row, col, m.toRow, m.toCol, white)
              && (m.toRow, m.toCol) in ts
    decreases |ts|
  {
    if ts != [] {
      var init := ts[..|ts| - 1];
      KeepSound(g, white, row, col, init);
      assert forall t :: t in init ==> t in ts;
    }
  }

  lemma SquareMovesSound(g: Grid, white: bool, row: int, col: int)
    requires InBounds(row, col)
    ensures forall m :: m in SquareMoves(g, white, row, col) ==>
              PseudoLegal(g, white, m) && m.fromRow == row && m.fromCol == col
              && (m.toRow, m.toCol) in TargetsOf(g, row, col, white)
  {
    KeepSound(g, white, row, col, TargetsOf(g, row, col, white));
  }

  lemma {:induction false} RowMovesSound(g: Grid, white: bool, row: int, n: int)
    requires 0 <= row < 8 && 0 <= n <= 8
    ensures forall m :: m in RowMoves(g, white, row, n) ==> PseudoLegal(g, white, m) && FollowsPieceRule(g, white, m)
    decreases n
  {
    if n > 0 {
      RowMovesSound(g, white, row, n - 1);
      SquareMovesSound(g, white, row, n - 1);
    }
  }

  lemma {:induction false} BoardMovesSound(g: Grid, white: bool, n: int)
    requires 0 <= n <= 8
    ensures forall m :: m in BoardMoves(g, white, n) ==> PseudoLegal(g, white, m) && FollowsPieceRule(g, white, m)
    decreases n
  {
    if n > 0 {
      BoardMovesSound(g, white, n - 1);
      RowMovesSound(g, white, n - 1, 8);
    }
  }

  /** Soundness of generation: every move the source's `generateAllMoves`
      returns is on the board, starts on a piece of the side to move, ends on
      a square without one, carries value 0, and so never leaves a piece
      where it stands; and its destination is one its piece's rule gives. */
  lemma AllMovesSound(g: Grid, white: bool)
    ensures forall m :: m in AllMoves(g, white) ==> PseudoLegal(g, white, m)
    ensures forall m :: m in AllMoves(g, white) ==> FollowsPieceRule(g, white, m)
    ensures forall m :: m in AllMoves(g, white) ==> (m.fromRow, m.fromCol) != (m.toRow, m.toCol)
  {
    BoardMovesSound(g, white, 8);
  }

  /** Every generated move obeys the rule of the piece it moves: a pawn goes
      towards promotion, a knight jumps (1,2) or (2,1), a king steps to a
      neighbouring square, and a piece of unknown kind never moves. */
  lemma GeneratedMovesFollowRules(g: Grid, white: bool, m: Move)
    requires m in AllMoves(g, white)
    ensures MoveInBounds(m) && IsOwn(g[m.fromRow][m.fromCol], white)
    ensures g[m.fromRow][m.fromCol].kind != Other
    ensures g[m.fromRow][m.fromCol].kind == Pawn ==>
              if white then m.toRow < m.fromRow else m.toRow > m.fromRow
    ensures g[m.fromRow][m.fromCol].kind == Knight ==> IsKnightJump(m.toRow - m.fromRow, m.toCol - m.fromCol)
    ensures g[m.fromRow][m.fromCol].kind == King ==>
              Abs(m.toRow - m.fromRow) <= 1 && Abs(m.toCol - m.fromCol) <= 1
  {
    AllMovesSound(g, white);
    var t := (m.toRow, m.toCol);
    var kind := g[m.fromRow][m.fromCol].kind;
    if kind == Pawn {
      PawnMovesForward(g, m.fromRow, m.fromCol, white, t);
    } else if kind == Knight {
      KnightTargetsExactly(g, m.fromRow, m.fromCol, white, t);
    } else if kind == King {
      KingTargetsExactly(g, m.fromRow, m.fromCol, white, t);
    }
  }

  /** The body of the source's square loop: dispatch on the piece kind to
      its generator, then keep the targets that pass the move filter. */
  method GenerateSquareMoves(g: Grid, row: int, col: int, white: bool) returns (ms: seq<Move>)
    requires InBounds(row, col)
    ensures ms == SquareMoves(g, white, row, col)
  {
    ms := [];
    if !g[row][col].Empty?
       && ((g[row][col].colour == White && white) || (g[row][col].colour == Black && !white))
    {
      var pieceMoves: seq<Pos> := [];
      match g[row][col].kind {
        case Pawn => pieceMoves := GeneratePawnMoves(g, row, col, white, pieceMoves);
        case Knight => pieceMoves := GenerateKnightMoves(g, row, col, white, pieceMoves);
        case Bishop => pieceMoves := GenerateBishopMoves(g, row, col, white, pieceMoves);
        case Rook => pieceMoves := GenerateRookMoves(g, row, col, white, pieceMoves);
        case Queen => pieceMoves := GenerateQueenMoves(g, row, col, white, pieceMoves);
        case King => pieceMoves := GenerateKingMoves(g, row, col, white, pieceMoves);
        case Other =>
      }
      assert pieceMoves == TargetsOf(g, row, col, white);
      ms := FilterTargets(g, white, row, col, pieceMoves);
    }
  }

  /** The filter loop: each target that passes `IsValidMove` becomes a move
      from (row, col), in order. */
  method FilterTargets(g: Grid, white: bool, row: int, col: int, pieceMoves: seq<Pos>) returns (ms: seq<Move>)
    ensures ms == Keep(g, white, row, col, pieceMoves)
  {
    ms := [];
    for i := 0 to |pieceMoves|
      invariant ms == Keep(g, white, row, col, pieceMoves[..i])
    {
      assert pieceMoves[..i + 1][..i] == pieceMoves[..i];
      var target := pieceMoves[i];
      if IsValidMove(g, row, col, target.0, target.1, white) {
        ms := ms + [MakeMove(row, col, target.0, target.1)];
      }
    }
    assert pieceMoves[..|pieceMoves|] == pieceMoves;
  }

  method GenerateAllMoves(g: Grid, white: bool) returns (moves: seq<Move>)
    ensures moves == AllMoves(g, white)
  {
    moves := [];
    for row := 0 to 8
      invariant moves == BoardMoves(g, white, row)
    {
      var rowMoves := GenerateRowMoves(g, white, row);
      moves := moves + rowMoves;
    }
  }

  /** The inner loop of `generateAllMoves`: the squares of one row, left to right. */
  method GenerateRowMoves(g: Grid, white: bool, row: int) returns (moves: seq<Move>)
    requires 0 <= row < 8
    ensures moves == RowMoves(g, white, row, 8)
  {
    moves := [];
    for col := 0 to 8
      invariant moves == RowMoves(g, white, row, col)
    {
      var squareMoves := GenerateSquareMoves(g, row, col, white);
      moves := moves + squareMoves;
    }
  }

  /** The filter never rejects what the generators produce: every target of
      a piece of the side to move becomes a move, in generation order. */
  lemma {:induction false} KeepKeepsAll(g: Grid, white: bool, row: int, col: int, ts: seq<Pos>)
    requires InBounds(row, col) && IsOwn(g[row][col], white)
    requires forall t :: t in ts ==> Reachable(g, t, white)
    ensures |Keep(g, white, row, col, ts)| == |ts|
    ensures forall k :: 0 <= k < |ts| ==> Keep(g, white, row, col, ts)[k] == MakeMove(row, col, ts[k].0, ts[k].1)
    decreases |ts|
  {
    if ts != [] {
      var init, last := ts[..|ts| - 1], ts[|ts| - 1];
      assert last in ts;
      assert forall t :: t in init ==> t in ts;
      KeepKeepsAll(g, white, row, col, init);
      assert IsValidMove(g, row, col, last.0, last.1, white);
    }
  }

  lemma {:induction false} RowMovesInclude(g: Grid, white: bool, row: int, col: int, n: int, m: Move)
    requires InBounds(row, col) && col < n <= 8
    requires m in SquareMoves(g, white, row, col)
    ensures m in RowMoves(g, white, row, n)
    decreases n
  {
    if n - 1 != col {
      RowMovesInclude(g, white, row, col, n - 1, m);
    }
  }

  lemma {:induction false} BoardMovesInclude(g: Grid, white: bool, row: int, col: int, n: int, m: Move)
    requires InBounds(row, col) && row < n <= 8
    requires m in SquareMoves(g, white, row, col)
    ensures m in BoardMoves(g, white, n)
    decreases n
  {
    if n - 1 != row {
      BoardMovesInclude(g, white, row, col, n - 1, m);
    } else {
      RowMovesInclude(g, white, row, col, 8, m);
    }
  }

  /** Generation is complete: for a piece of the side to move, every target
      its rule produces appears in the board-wide move list. */
  lemma TargetsAreGenerated(g: Grid, white: bool, row: int, col: int, t: Pos)
    requires InBounds(row, col) && IsOwn(g[row][col], white)
    requires t in TargetsOf(g, row, col, white)
    ensures MakeMove(row, col, t.0, t.1) in AllMoves(g, white)
  {
    var ts := TargetsOf(g, row, col, white);
    TargetsReachable(g, row, col, white);
    KeepKeepsAll(g, white, row, col, ts);
    var k :| 0 <= k < |ts| && ts[k] == t;
    assert Keep(g, white, row, col, ts)[k] == MakeMove(row, col, t.0, t.1);
    BoardMovesInclude(g, white, row, col, 8, MakeMove(row, col, t.0, t.1));
  }
}
