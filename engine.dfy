/** The engine object: its difficulty setting and the top-level move choice. */
module Engine {
  import opened Board
  import opened MoveGen
  import opened Search
  import opened Difficulty

  /** The depth the top-level search uses when the caller gives none. */
  const DefaultSearchDepth: int := 3

  class ChessAI {
    /** The side the engine plays. */
    const isWhite: bool
    var difficulty: int
    var maxDepth: int

    /** The setting stays within 1 .. 5 and the depth follows it. The
        constructor and `SetDifficulty` establish it, but no operation relies
        on it: `maxDepth` is never read, since `GetBestMove` searches to its
        own `depth` argument. */
    predicate Valid()
      reads this
    {
      1 <= difficulty <= 5 && maxDepth == DepthForLevel(difficulty)
    }

    /** A new engine plays at level 3, which the constructor's switch maps to depth 4. */
    constructor(isWhite: bool)
      ensures this.isWhite == isWhite
      ensures difficulty == 3 && maxDepth == 4
      ensures Valid()
    {
      this.isWhite := isWhite;
      difficulty := 3;
      maxDepth := 3;
      new;
      maxDepth := DepthForLevel(difficulty);
    }

    /** Store the clamped level and the depth one ply above it. */
    method SetDifficulty(level: int)
      modifies this
      ensures difficulty == ClampDifficulty(level)
      ensures maxDepth == difficulty + 1
      ensures Valid()
    {
      difficulty := ClampDifficulty(level);
      match difficulty {
        case 1 => maxDepth := 2;
        case 2 => maxDepth := 3;
        case 3 => maxDepth := 4;
        case 4 => maxDepth := 5;
        case 5 => maxDepth := 6;
      }
    }

    /** The source's `getBestMove`. With no move it answers `NoMove`; with one
        move it answers that move unsearched. Otherwise it sorts the moves
        (the ghost `order`) and searches each to `depth - 1` plies with the
        full window, keeping the first move with the best value for its
        side: the answer carries the minimax value of the position, no move
        is better for the engine, and every move before it in the searched
        order is strictly worse. */
    method GetBestMove(g: Grid, depth: int := DefaultSearchDepth)
      returns (best: Move, ghost order: seq<Move>, ghost index: int)
      requires depth >= 1 || |AllMoves(g, isWhite)| <= 1
      ensures var ms := AllMoves(g, isWhite);
              && (|ms| == 0 ==> best == NoMove)
              && (|ms| == 1 ==> best == ms[0])
      ensures var ms := AllMoves(g, isWhite);
              |ms| >= 2 ==>
                && SortedByValue(order)
                && RootChoice(g, ms, order, depth - 1, isWhite, index, best.value)
                && 0 <= index < |order| && best == order[index].(value := best.value)
                && best.value == Minimax(g, depth, isWhite)
    {
      var moves := GenerateAllMoves(g, isWhite);
      AllMovesSound(g, isWhite);
      order := moves;
      index := 0;
      if |moves| == 0 {
        best := NoMove;
      } else if |moves| == 1 {
        best := moves[0];
      } else {
        best, order, index := SearchRoot(g, moves, depth, isWhite);
        MinimaxUnfold(g, depth, isWhite);
      }
    }
  }

  /** `a` is a strictly worse value than `b` for the side to move. */
  predicate Worse(a: int, b: int, white: bool)
  {
    if white then a < b else a > b
  }

  /** The root of `getBestMove`: sort the moves by value, then scan them. */
  method SearchRoot(g: Grid, moves: seq<Move>, depth: int, white: bool)
    returns (best: Move, ghost order: seq<Move>, ghost index: int)
    requires depth >= 1 && |moves| >= 1
    requires forall m :: m in moves ==> MoveInBounds(m)
    ensures SortedByValue(order)
    ensures RootChoice(g, moves, order, depth - 1, white, index, best.value)
    ensures 0 <= index < |order| && best == order[index].(value := best.value)
  {
    var sortedMoves := SortedCopy(moves);
    SameMembers(moves, sortedMoves);
    var bestValue, i := ScanMoves(g, sortedMoves, depth - 1, white);
    ScanMakesRootChoice(g, moves, sortedMoves, depth - 1, white, bestValue, i);
    best := sortedMoves[i].(value := bestValue);
    order, index := sortedMoves, i;
  }

  /** The moves copied into an array and sorted there, as the source sorts
      its vector. */
  method SortedCopy(moves: seq<Move>) returns (sortedMoves: seq<Move>)
    ensures |sortedMoves| == |moves|
    ensures multiset(sortedMoves) == multiset(moves) && SortedByValue(sortedMoves)
  {
    var a := new Move[|moves|](i requires 0 <= i < |moves| => moves[i]);
    assert a[..] == moves;
    SortMoves(a);
    sortedMoves := a[..];
  }

  /** The value and position the root loop holds after the first `k`
      child values: it starts at the first move with the `int` extreme and
      moves on only for a strictly better value. */
  function ScanState(vals: seq<int>, white: bool, k: int): (int, int)
    requires 0 <= k <= |vals|
    decreases k
  {
    if k == 0 then ((if white then IntMin else IntMax), 0)
    else
      var (bestValue, index) := ScanState(vals, white, k - 1);
      var value := vals[k - 1];
      if (white && value > bestValue) || (!white && value < bestValue) then (value, k - 1)
      else (bestValue, index)
  }

  /** After the first `k` values: `index` is the first of them holding the
      best value seen, and `bestValue` is that value (the `int` extreme while
      none has been searched). */
  ghost predicate Scanned(vals: seq<int>, white: bool, k: int, bestValue: int, index: int)
    requires 0 <= k <= |vals|
  {
    && 0 <= index < |vals|
    && (k == 0 ==> index == 0)
    && (k > 0 ==> index < k && vals[index] == bestValue)
    && bestValue == Extremum(vals[..k], white)
    && (forall j :: 0 <= j < index ==> Worse(vals[j], bestValue, white))
  }

  /** The root loop's state is the running extremum and the first place it
      is attained, with everything before it strictly worse. */
  lemma {:induction false} ScanStateIsScanned(vals: seq<int>, white: bool, k: int)
    requires InRange(vals)
    requires 0 < |vals| && 0 <= k <= |vals|
    ensures Scanned(vals, white, k, ScanState(vals, white, k).0, ScanState(vals, white, k).1)
    decreases k
  {
    if k > 0 {
      ScanStateIsScanned(vals, white, k - 1);
      var (bestValue, index) := ScanState(vals, white, k - 1);
      var value := vals[k - 1];
      ExtremumStep(vals, k - 1, white);
      if (white && value > bestValue) || (!white && value < bestValue) {
        ExtremumBounds(vals[..k - 1], white);
        forall j | 0 <= j < k - 1
          ensures Worse(vals[j], value, white)
        {
          assert vals[..k - 1][j] == vals[j];
        }
      }
    }
  }

  /** What the root loop ends with: the index of the first value attaining
      the extremum, every value no better than it and every earlier value
      strictly worse. */
  lemma ScanFinds(vals: seq<int>, white: bool)
    requires InRange(vals) && |vals| > 0
    ensures var (bestValue, index) := ScanState(vals, white, |vals|);
            && 0 <= index < |vals|
            && vals[index] == bestValue
            && bestValue == Extremum(vals, white)
            && (forall j :: 0 <= j < |vals| ==> !Worse(bestValue, vals[j], white))
            && (forall j :: 0 <= j < index ==> Worse(vals[j], bestValue, white))
  {
    ScanStateIsScanned(vals, white, |vals|);
    assert vals[..|vals|] == vals;
    ExtremumBounds(vals, white);
  }

  /** The choice at the root: `order` is the list `moves` reordered, and
      its move `index`, with child value `value`, holds the best value of
      the list; no child value is better for the side to move and every
      move before it in `order` is strictly worse. */
  ghost predicate RootChoice(g: Grid, moves: seq<Move>, order: seq<Move>, d: nat, white: bool,
                             index: int, value: int)
  {
    && (forall m :: m in moves ==> MoveInBounds(m))
    && (forall m :: m in order ==> MoveInBounds(m))
    && multiset(order) == multiset(moves)
    && 0 <= index < |order|
    && value == Best(g, moves, d, white)
    && var vals := ChildValues(g, order, d, white);
       && vals[index] == value
       && (forall j :: 0 <= j < |order| ==> !Worse(value, vals[j], white))
       && (forall j :: 0 <= j < index ==> Worse(vals[j], value, white))
  }

  /** The root loop run over any reordering of the moves makes that choice. */
  lemma ScanMakesRootChoice(g: Grid, moves: seq<Move>, order: seq<Move>, d: nat, white: bool,
                            value: int, index: int)
    requires forall m :: m in moves ==> MoveInBounds(m)
    requires multiset(order) == multiset(moves) && |moves| >= 1
    requires forall m :: m in order ==> MoveInBounds(m)
    requires (value, index) == ScanState(ChildValues(g, order, d, white), white, |order|)
    ensures 0 <= index < |order|
    ensures RootChoice(g, moves, order, d, white, index, value)
  {
    BestIgnoresOrder(g, moves, order, d, white);
    var vals := ChildValues(g, order, d, white);
    assert InRange(vals);
    ScanFinds(vals, white);
  }

  /** The loop of `getBestMove`: search every move with the full window and
      keep the first one whose value beats everything before it, starting
      from the first move and the `int` extreme. */
  method ScanMoves(g: Grid, moves: seq<Move>, d: nat, white: bool)
    returns (bestValue: int, index: int)
    requires |moves| >= 1
    requires forall m :: m in moves ==> MoveInBounds(m)
    ensures (bestValue, index) == ScanState(ChildValues(g, moves, d, white), white, |moves|)
  {
    bestValue := if white then IntMin else IntMax;
    index := 0;
    for k := 0 to |moves|
      invariant (bestValue, index) == ScanState(ChildValues(g, moves, d, white), white, k)
    {
      bestValue, index := ScanNext(g, moves, d, white, k, bestValue, index);
    }
  }

  /** One turn of the root loop: search move `k` on a copy of the board and
      take it when its value is strictly better than the best so far. */
  method ScanNext(g: Grid, moves: seq<Move>, d: nat, white: bool, k: int,
                  bestValue: int, index: int)
    returns (bestValue': int, index': int)
    requires forall m :: m in moves ==> MoveInBounds(m)
    requires 0 <= k < |moves|
    requires (bestValue, index) == ScanState(ChildValues(g, moves, d, white), white, k)
    ensures (bestValue', index') == ScanState(ChildValues(g, moves, d, white), white, k + 1)
  {
    ghost var vals := ChildValues(g, moves, d, white);
    var temp := SimulateMove(g, moves[k]);
    var value := SearchFullWindow(temp, d, !white);
    assert vals[k] == Minimax(temp, d, !white);
    if (white && value > bestValue) || (!white && value < bestValue) {
      bestValue', index' := value, k;
    } else {
      bestValue', index' := bestValue, index;
    }
  }
}
