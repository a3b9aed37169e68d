/** Game-tree search: the minimax value of a position as a specification,
    the source's alpha-beta recursion proved against it, and the move sort. */
module Search {
  import opened Board
  import opened MoveGen
  import opened Evaluation

  /* ---------------- Terminal tests ---------------- */

  /** The source's `isCheckmate` is a stub that never detects mate. */
  function IsCheckmate(g: Grid, white: bool): (r: bool)
    ensures !r
  {
    false
  }

  /** The source's `isStalemate` is a stub that never detects stalemate. */
  function IsStalemate(g: Grid, white: bool): (r: bool)
    ensures !r
  {
    false
  }

  /** The score the source gives a mated side to move (unreachable while the
      stub above answers false). */
  function MateScore(maximizing: bool): int
  {
    if maximizing then -10000 else 10000
  }

  /* ---------------- The minimax value ---------------- */

  function Max(a: int, b: int): int
  {
    if a >= b then a else b
  }

  function Min(a: int, b: int): int
  {
    if a <= b then a else b
  }

  /** The value a search of `depth` plies gives the position with the
      `maximizing` side (White when true) to move: the static evaluation at
      depth 0, otherwise the best value over the generated moves, or the
      `int` extreme the source starts from when there is no move. */
  function Minimax(g: Grid, depth: nat, maximizing: bool): (r: int)
    ensures IntMin <= r <= IntMax
    decreases depth, 0
  {
    if depth == 0 then Evaluate(g)
    else if IsCheckmate(g, maximizing) then MateScore(maximizing)
    else if IsStalemate(g, maximizing) then 0
    else
      AllMovesSound(g, maximizing);
      Best(g, AllMoves(g, maximizing), depth - 1, maximizing)
  }

  /** Away from the leaves, the value is the extremum over the generated moves. */
  lemma MinimaxUnfold(g: Grid, depth: nat, maximizing: bool)
    requires depth > 0
    ensures forall m :: m in AllMoves(g, maximizing) ==> MoveInBounds(m)
    ensures Minimax(g, depth, maximizing) == Best(g, AllMoves(g, maximizing), depth - 1, maximizing)
  {
    AllMovesSound(g, maximizing);
  }

  /** The value of the position after `m`, searched `d` plies with the other side to move. */
  function ChildValue(g: Grid, m: Move, d: nat, maximizing: bool): (r: int)
    requires MoveInBounds(m)
    ensures IntMin <= r <= IntMax
    decreases d, 1
  {
    Minimax(AfterMove(g, m), d, !maximizing)
  }

  /** The maximum (or minimum) of the child values over `ms`, folded in
      list order from the `int` extreme the source initialises its
      accumulator with. */
  function Best(g: Grid, ms: seq<Move>, d: nat, maximizing: bool): (r: int)
    requires forall m :: m in ms ==> MoveInBounds(m)
    ensures IntMin <= r <= IntMax
    decreases d, 3
  {
    var vs := ChildValues(g, ms, d, maximizing);
    InRangeExtremum(vs, maximizing);
    Extremum(vs, maximizing)
  }

  /** The child values of a move list, in list order. */
  function ChildValues(g: Grid, ms: seq<Move>, d: nat, maximizing: bool): (vs: seq<int>)
    requires forall m :: m in ms ==> MoveInBounds(m)
    ensures |vs| == |ms|
    ensures forall j :: 0 <= j < |ms| ==> vs[j] == ChildValue(g, ms[j], d, maximizing)
    decreases d, 2
  {
    seq(|ms|, j requires 0 <= j < |ms| => ChildValue(g, ms[j], d, maximizing))
  }

  /* ---------------- Running extremum ---------------- */

  /** The fold of the source's loops: start from the `int` extreme and keep
      the larger (maximizing) or smaller value. */
  function Extremum(vs: seq<int>, maximizing: bool): int
    decreases |vs|
  {
    if vs == [] then (if maximizing then IntMin else IntMax)
    else
      var prev := Extremum(vs[..|vs| - 1], maximizing);
      if maximizing then Max(prev, vs[|vs| - 1]) else Min(prev, vs[|vs| - 1])
  }

  predicate InRange(vs: seq<int>)
  {
    forall j :: 0 <= j < |vs| ==> IntMin <= vs[j] <= IntMax
  }

  /** `Extremum` bounds every value of the list. */
  lemma {:induction false} ExtremumBounds(vs: seq<int>, maximizing: bool)
    ensures maximizing ==> forall j :: 0 <= j < |vs| ==> vs[j] <= Extremum(vs, maximizing)
    ensures !maximizing ==> forall j :: 0 <= j < |vs| ==> Extremum(vs, maximizing) <= vs[j]
    decreases |vs|
  {
    if vs != [] {
      var init := vs[..|vs| - 1];
      ExtremumBounds(init, maximizing);
      assert forall j :: 0 <= j < |vs| - 1 ==> vs[j] == init[j];
    }
  }

  /** For values inside the `int` range, `Extremum` is one of them, or the
      starting extreme for the empty list. */
  lemma {:induction false} ExtremumAttained(vs: seq<int>, maximizing: bool)
    requires InRange(vs)
    ensures vs == [] ==> Extremum(vs, maximizing) == if maximizing then IntMin else IntMax
    ensures vs != [] ==> exists j :: 0 <= j < |vs| && vs[j] == Extremum(vs, maximizing)
    decreases |vs|
  {
    if vs != [] {
      var init, last := vs[..|vs| - 1], |vs| - 1;
      ExtremumAttained(init, maximizing);
      if Extremum(vs, maximizing) != vs[last] {
        assert init != [];
        var j :| 0 <= j < |init| && init[j] == Extremum(init, maximizing);
        assert vs[j] == Extremum(vs, maximizing);
      }
    }
  }

  /** `Extremum` of values inside the `int` range stays inside it. */
  lemma InRangeExtremum(vs: seq<int>, maximizing: bool)
    requires InRange(vs)
    ensures IntMin <= Extremum(vs, maximizing) <= IntMax
  {
    ExtremumAttained(vs, maximizing);
  }

  /** One more value folded into the running extremum. */
  lemma ExtremumStep(vs: seq<int>, i: int, maximizing: bool)
    requires 0 <= i < |vs|
    ensures Extremum(vs[..i + 1], maximizing)
            == if maximizing then Max(Extremum(vs[..i], maximizing), vs[i]) else Min(Extremum(vs[..i], maximizing), vs[i])
  {
    assert vs[..i + 1][..i] == vs[..i];
  }

  /** A prefix never beats the whole list. */
  lemma ExtremumPrefix(vs: seq<int>, k: int, maximizing: bool)
    requires InRange(vs)
    requires 0 <= k <= |vs|
    ensures maximizing ==> Extremum(vs[..k], maximizing) <= Extremum(vs, maximizing)
    ensures !maximizing ==> Extremum(vs, maximizing) <= Extremum(vs[..k], maximizing)
  {
    ExtremumBounds(vs, maximizing);
    ExtremumAttained(vs[..k], maximizing);
    if k > 0 {
      var j :| 0 <= j < k && vs[..k][j] == Extremum(vs[..k], maximizing);
    }
  }

  /* ---------------- Properties of the best value ---------------- */

  /** No move of the list has a child value better than `Best`. */
  lemma BestBoundsMove(g: Grid, ms: seq<Move>, d: nat, maximizing: bool, m: Move)
    requires forall m :: m in ms ==> MoveInBounds(m)
    requires m in ms
    ensures maximizing ==> ChildValue(g, m, d, maximizing) <= Best(g, ms, d, maximizing)
    ensures !maximizing ==> Best(g, ms, d, maximizing) <= ChildValue(g, m, d, maximizing)
  {
    var vs := ChildValues(g, ms, d, maximizing);
    ExtremumBounds(vs, maximizing);
    var j :| 0 <= j < |ms| && ms[j] == m;
    assert vs[j] == ChildValue(g, m, d, maximizing);
  }

  /** Some move of a non-empty list has `Best` as its child value. */
  lemma BestAttainedBy(g: Grid, ms: seq<Move>, d: nat, maximizing: bool) returns (m: Move)
    requires forall m :: m in ms ==> MoveInBounds(m)
    requires ms != []
    ensures m in ms && ChildValue(g, m, d, maximizing) == Best(g, ms, d, maximizing)
  {
    var vs := ChildValues(g, ms, d, maximizing);
    assert InRange(vs);
    ExtremumAttained(vs, maximizing);
    var j :| 0 <= j < |vs| && vs[j] == Extremum(vs, maximizing);
    m := ms[j];
  }

  /** `Best` is the extremum of the child values: it bounds every one of
      them, and it is attained by a move of the list or, for an empty list,
      is the starting extreme. */
  lemma BestIsExtremum(g: Grid, ms: seq<Move>, d: nat, maximizing: bool)
    requires forall m :: m in ms ==> MoveInBounds(m)
    ensures maximizing ==> forall m :: m in ms ==> ChildValue(g, m, d, maximizing) <= Best(g, ms, d, maximizing)
    ensures !maximizing ==> forall m :: m in ms ==> Best(g, ms, d, maximizing) <= ChildValue(g, m, d, maximizing)
    ensures ms == [] ==> Best(g, ms, d, maximizing) == if maximizing then IntMin else IntMax
    ensures ms != [] ==> exists m :: m in ms && ChildValue(g, m, d, maximizing) == Best(g, ms, d, maximizing)
  {
    forall m | m in ms
      ensures maximizing ==> ChildValue(g, m, d, maximizing) <= Best(g, ms, d, maximizing)
      ensures !maximizing ==> Best(g, ms, d, maximizing) <= ChildValue(g, m, d, maximizing)
    {
      BestBoundsMove(g, ms, d, maximizing, m);
    }
    if ms != [] {
      var m := BestAttainedBy(g, ms, d, maximizing);
    }
  }

  /** Two lists that are reorderings of each other have the same length and
      the same members. */
  lemma SameMembers(ms: seq<Move>, ns: seq<Move>)
    requires multiset(ms) == multiset(ns)
    ensures |ms| == |ns|
    ensures forall m :: m in ms <==> m in ns
  {
    assert |ms| == |multiset(ms)| == |multiset(ns)| == |ns|;
    forall m
      ensures m in ms <==> m in ns
    {
      assert m in ms <==> m in multiset(ms);
      assert m in ns <==> m in multiset(ns);
    }
  }

  /** The order of the moves does not change their best value, so sorting the
      list before searching it is harmless. */
  lemma BestIgnoresOrder(g: Grid, ms: seq<Move>, ns: seq<Move>, d: nat, maximizing: bool)
    requires forall m :: m in ms ==> MoveInBounds(m)
    requires multiset(ms) == multiset(ns)
    ensures forall m :: m in ns ==> MoveInBounds(m)
    ensures Best(g, ms, d, maximizing) == Best(g, ns, d, maximizing)
  {
    SameMembers(ms, ns);
    if ms != [] {
      var a := BestAttainedBy(g, ms, d, maximizing);
      var b := BestAttainedBy(g, ns, d, maximizing);
      BestBoundsMove(g, ns, d, maximizing, a);
      BestBoundsMove(g, ms, d, maximizing, b);
    }
  }

  /* ---------------- Alpha-beta ---------------- */

  /** What an alpha-beta search with window (alpha, beta) promises about its
      result `v` relative to the exact value: inside the window it is exact,
      at or below alpha it is an upper bound, at or above beta a lower bound. */
  predicate FailSoft(v: int, alpha: int, beta: int, exact: int)
  {
    && (v <= alpha ==> exact <= v)
    && (alpha < v < beta ==> v == exact)
    && (beta <= v ==> v <= exact)
  }

  /** With the widest window the source uses, a fail-soft result is exact. */
  lemma FullWindowIsExact(v: int, exact: int)
    requires IntMin <= exact <= IntMax
    requires FailSoft(v, IntMin, IntMax, exact)
    ensures v == exact
  {
  }

  /** The source's `minimax`: the recursive search on board copies, cutting
      off a move list as soon as the window closes. */
  method AlphaBeta(g: Grid, depth: nat, alpha: int, beta: int, maximizing: bool)
    returns (v: int)
    requires IntMin <= alpha < beta <= IntMax
    ensures IntMin <= v <= IntMax
    ensures FailSoft(v, alpha, beta, Minimax(g, depth, maximizing))
    ensures depth == 0 ==> v == Evaluate(g)
    decreases depth, 1
  {
    if depth == 0 {
      v := EvaluatePosition(g);
    } else if IsCheckmate(g, maximizing) {
      v := MateScore(maximizing);
    } else if IsStalemate(g, maximizing) {
      v := 0;
    } else {
      var moves := GenerateAllMoves(g, maximizing);
      MinimaxUnfold(g, depth, maximizing);
      if maximizing {
        v := MaxLoop(g, moves, depth - 1, alpha, beta);
      } else {
        v := MinLoop(g, moves, depth - 1, alpha, beta);
      }
    }
  }

  /** The maximizing branch of `minimax`: raise alpha with every child and
      stop once it reaches beta. */
  method MaxLoop(g: Grid, moves: seq<Move>, d: nat, alpha: int, beta: int) returns (maxEval: int)
    requires forall m :: m in moves ==> MoveInBounds(m)
    requires IntMin <= alpha < beta <= IntMax
    ensures IntMin <= maxEval <= IntMax
    ensures FailSoft(maxEval, alpha, beta, Best(g, moves, d, true))
    decreases d + 1, 0
  {
    ghost var vals := ChildValues(g, moves, d, true);
    assert InRange(vals);
    maxEval := IntMin;
    var a := alpha;
    var i := 0;
    assert vals[..0] == [];
    while i < |moves|
      invariant MaxScanned(vals, i, alpha, beta, maxEval, a)
      decreases |moves| - i
    {
      var temp := SimulateMove(g, moves[i]);
      var eval := AlphaBeta(temp, d, a, beta, false);
      assert vals[i] == Minimax(temp, d, false);
      MaxScanStep(vals, i, alpha, beta, maxEval, a, eval);
      maxEval := Max(maxEval, eval);
      a := Max(a, eval);
      if beta <= a {
        return;
      }
      i := i + 1;
    }
    MaxScanDone(vals, alpha, beta, maxEval, a);
  }

  /** The maximizing loop after the first `i` child values: `a` is alpha
      raised by the best value so far, still below beta, and that value is
      exact once it is above the original alpha. */
  ghost predicate MaxScanned(vals: seq<int>, i: int, alpha: int, beta: int, maxEval: int, a: int)
  {
    && 0 <= i <= |vals|
    && IntMin <= maxEval <= IntMax
    && a == Max(alpha, maxEval) && a < beta
    && Extremum(vals[..i], true) <= maxEval
    && (maxEval > alpha ==> maxEval == Extremum(vals[..i], true))
  }

  /** One child folded into the maximizing loop: either the loop goes on
      with the same guarantees, or the cut-off result is already a lower
      bound on the whole list. */
  lemma MaxScanStep(vals: seq<int>, i: int, alpha: int, beta: int, maxEval: int, a: int, eval: int)
    requires InRange(vals) && IntMin <= alpha < beta <= IntMax
    requires MaxScanned(vals, i, alpha, beta, maxEval, a) && i < |vals|
    requires IntMin <= eval <= IntMax && FailSoft(eval, a, beta, vals[i])
    ensures Max(a, eval) < beta ==> MaxScanned(vals, i + 1, alpha, beta, Max(maxEval, eval), Max(a, eval))
    ensures beta <= Max(a, eval) ==> FailSoft(Max(maxEval, eval), alpha, beta, Extremum(vals, true))
  {
    ExtremumStep(vals, i, true);
    if beta <= Max(a, eval) {
      ExtremumPrefix(vals, i + 1, true);
    }
  }

  /** A maximizing loop that saw every child returns a fail-soft value. */
  lemma MaxScanDone(vals: seq<int>, alpha: int, beta: int, maxEval: int, a: int)
    requires MaxScanned(vals, |vals|, alpha, beta, maxEval, a)
    ensures FailSoft(maxEval, alpha, beta, Extremum(vals, true))
  {
    assert vals[..|vals|] == vals;
  }

  /** The minimizing branch of `minimax`: lower beta with every child and
      stop once it reaches alpha. */
  method MinLoop(g: Grid, moves: seq<Move>, d: nat, alpha: int, beta: int) returns (minEval: int)
    requires forall m :: m in moves ==> MoveInBounds(m)
    requires IntMin <= alpha < beta <= IntMax
    ensures IntMin <= minEval <= IntMax
    ensures FailSoft(minEval, alpha, beta, Best(g, moves, d, false))
    decreases d + 1, 0
  {
    ghost var vals := ChildValues(g, moves, d, false);
    assert InRange(vals);
    minEval := IntMax;
    var b := beta;
    var i := 0;
    assert vals[..0] == [];
    while i < |moves|
      invariant MinScanned(vals, i, alpha, beta, minEval, b)
      decreases |moves| - i
    {
      var temp := SimulateMove(g, moves[i]);
      var eval := AlphaBeta(temp, d, alpha, b, true);
      assert vals[i] == Minimax(temp, d, true);
      MinScanStep(vals, i, alpha, beta, minEval, b, eval);
      minEval := Min(minEval, eval);
      b := Min(b, eval);
      if b <= alpha {
        return;
      }
      i := i + 1;
    }
    MinScanDone(vals, alpha, beta, minEval, b);
  }

  /** The minimizing loop after the first `i` child values: `b` is beta
      lowered by the best value so far, still above alpha, and that value is
      exact once it is below the original beta. */
  ghost predicate MinScanned(vals: seq<int>, i: int, alpha: int, beta: int, minEval: int, b: int)
  {
    && 0 <= i <= |vals|
    && IntMin <= minEval <= IntMax
    && b == Min(beta, minEval) && alpha < b
    && minEval <= Extremum(vals[..i], false)
    && (minEval < beta ==> minEval == Extremum(vals[..i], false))
  }

  /** One child folded into the minimizing loop. */
  lemma MinScanStep(vals: seq<int>, i: int, alpha: int, beta: int, minEval: int, b: int, eval: int)
    requires InRange(vals) && IntMin <= alpha < beta <= IntMax
    requires MinScanned(vals, i, alpha, beta, minEval, b) && i < |vals|
    requires IntMin <= eval <= IntMax && FailSoft(eval, alpha, b, vals[i])
    ensures alpha < Min(b, eval) ==> MinScanned(vals, i + 1, alpha, beta, Min(minEval, eval), Min(b, eval))
    ensures Min(b, eval) <= alpha ==> FailSoft(Min(minEval, eval), alpha, beta, Extremum(vals, false))
  {
    ExtremumStep(vals, i, false);
    if Min(b, eval) <= alpha {
      ExtremumPrefix(vals, i + 1, false);
    }
  }

  /** A minimizing loop that saw every child returns a fail-soft value. */
  lemma MinScanDone(vals: seq<int>, alpha: int, beta: int, minEval: int, b: int)
    requires MinScanned(vals, |vals|, alpha, beta, minEval, b)
    ensures FailSoft(minEval, alpha, beta, Extremum(vals, false))
  {
    assert vals[..|vals|] == vals;
  }

  /** Called with the full `int` window, as the top-level search does, the
      recursion returns the exact minimax value. */
  method SearchFullWindow(g: Grid, depth: nat, maximizing: bool) returns (v: int)
    ensures v == Minimax(g, depth, maximizing)
  {
    v := AlphaBeta(g, depth, IntMin, IntMax, maximizing);
    FullWindowIsExact(v, Minimax(g, depth, maximizing));
  }

  /* ---------------- Move ordering ---------------- */

  /** Highest value first. */
  predicate SortedByValue(s: seq<Move>)
  {
    forall i, j :: 0 <= i < j < |s| ==> s[i].value >= s[j].value
  }

  /** The source's `sortMoves`: order the moves by decreasing value, in place. */
  method SortMoves(a: array<Move>)
    modifies a
    ensures SortedByValue(a[..])
    ensures multiset(a[..]) == multiset(old(a[..]))
  {
    for i := 0 to a.Length
      invariant SortedByValue(a[..i])
      invariant multiset(a[..]) == multiset(old(a[..]))
    {
      InsertDown(a, i);
    }
    assert a[..a.Length] == a[..];
  }

  /** One insertion step: sink `a[i]` into the sorted prefix `a[..i]`. */
  method InsertDown(a: array<Move>, i: int)
    requires 0 <= i < a.Length
    requires SortedByValue(a[..i])
    modifies a
    ensures SortedByValue(a[..i + 1])
    ensures multiset(a[..]) == multiset(old(a[..]))
  {
    var j := i;
    while j > 0 && a[j - 1].value < a[j].value
      invariant 0 <= j <= i
      invariant multiset(a[..]) == multiset(old(a[..]))
      invariant forall m, n :: 0 <= m < n <= i && m != j && n != j ==> a[m].value >= a[n].value
      invariant forall n :: j < n <= i ==> a[j].value > a[n].value
      decreases j
    {
      Swap(a, j - 1, j);
      j := j - 1;
    }
  }

  /** Exchange two entries of the array. */
  method Swap(a: array<Move>, p: int, q: int)
    requires 0 <= p < a.Length && 0 <= q < a.Length
    modifies a
    ensures a[..] == old(a[..])[p := old(a[q])][q := old(a[p])]
    ensures multiset(a[..]) == multiset(old(a[..]))
  {
    a[p], a[q] := a[q], a[p];
  }
}
