# NeroMate chess engine core, in Dafny

This project models the two move-choosing components of the NeroMate chess
bot and proves properties about them.

- **`ChessAI`** (chess_ai.cpp, chess_ai.h) is a fixed-depth engine. From a
  board snapshot it generates pseudo-legal moves piece by piece and filters
  them. It scores positions by material plus a pawn-advancement bonus. It
  searches with minimax and alpha-beta pruning, sorts the root moves by value
  and returns the best move for its side.
- **`SimpleAIBot`** (simple_ai_bot.cpp, simple_ai_bot.h) is the lightweight
  Black bot. It keeps a difficulty, a thinking delay, an on/off switch and a
  count of the human's moves. When its timer fires it answers with a canned
  four-digit pawn move.

The modules follow the program's structure:

- `Board`: the board as a value `Grid` (8x8 cells, each `Empty` or a
  `Piece` of a colour and a kind), the `Move` record, the `int` sentinels
  and the board copy one branch of the search makes (`SimulateMove`).
- `MoveGen`: the per-piece generators, the move filter and the board-wide
  generator. Each generator is a method with the source's loops, proved
  equal to a specification function. Lemmas then say exactly which squares
  each piece reaches.
- `Evaluation`: the piece weights, `evaluatePiece` and `evaluatePosition`,
  with colour symmetry and small concrete positions.
- `Search`: the minimax value as a specification (`Minimax`, `Best`), the
  source's alpha-beta recursion proved fail-soft against it, and `sortMoves`
  as an in-place array sort.
- `Engine`: the `ChessAI` class (difficulty, depth, `getBestMove`).
- `Difficulty`: the level clamp and the level-to-depth table.
- `SimpleBot`: the `SimpleAIBot` class, its move tables and the four-digit
  move text.

The source's board parameters are `const QString board[8][8]`, so boards
are values here. The copy that `getBestMove` and `minimax` make for each
move is written in place into a fresh array inside `Board.SimulateMove`.
The generators fill a `std::vector` passed by reference; here they take its
contents and return them with the new targets appended.

The engine's own comments say the difficulty level affects the search
depth (chess_ai.h:36 and :46). The code does otherwise, and the model follows
the code: `getBestMove` searches to its own `depth` argument (default 3), and
`maxDepth` is set but never read.

## Model

| member | source | states |
|---|---|---|
| Board.MakeMove | chess_ai.h:20-21 | A move built from four coordinates carries them unchanged and the default value 0. |
| Board.AfterMove | chess_ai.cpp:129-130 | After a move the origin is empty, the destination holds the moving piece, and every other square is unchanged. |
| Board.SimulateMove | chess_ai.cpp:119-130 | The array copy of the board with the piece moved in place is exactly the position after the move. |
| Difficulty.ClampDifficulty | chess_ai.cpp:23 | The level is forced into 1..5: unchanged inside, 1 below and 5 above. |
| Difficulty.ClampIdempotent | chess_ai.cpp:23 | Clamping an already clamped level changes nothing. |
| Difficulty.ClampMonotone | simple_ai_bot.cpp:26 | Clamping preserves the order of two requested levels. |
| Difficulty.DepthForLevel | chess_ai.cpp:10-17 | Levels 1..5 are assigned depth level + 1; the constructor's fallback is depth 3. |
| MoveGen.IsValidMove | chess_ai.cpp:383-407 | A move passes iff both squares are on the board, the origin holds a piece of the side to move and the destination does not hold a piece of the same colour. |
| MoveGen.GeneratePawnMoves | chess_ai.cpp:267-292 | Appends exactly the pawn targets (pushes, then the left and right captures) to the list it was given. |
| MoveGen.GeneratePawnCaptures | chess_ai.cpp:282-291 | The capture loop appends the left capture, then the right one. |
| MoveGen.PawnTargetsExactly | chess_ai.cpp:267-292 | A pawn reaches a square iff it is a single step ahead onto an empty square, a double step from the start row over two empty squares, or a diagonal step onto an opposing piece. |
| MoveGen.PawnMovesForward | chess_ai.cpp:269-270 | White pawns only move to lower rows and Black pawns only to higher rows. |
| MoveGen.GenerateKnightMoves | chess_ai.cpp:294-309 | Appends exactly the knight targets, in the order of the offset table. |
| MoveGen.JumpsExactly | chess_ai.cpp:298-308 | A square is emitted iff its offset is in the table and it is on the board without a piece of the mover's colour. |
| MoveGen.KnightTargetsExactly | chess_ai.cpp:294-309 | A knight reaches exactly the on-board (1,2) or (2,1) jumps that do not hold one of its own pieces. |
| MoveGen.GenerateKingMoves | chess_ai.cpp:364-381 | Appends exactly the king targets, row offset by row offset. |
| MoveGen.GenerateKingLine | chess_ai.cpp:367-379 | The inner loop appends the steps of one row offset, skipping the null step. |
| MoveGen.KingLineExactly | chess_ai.cpp:366-380 | The steps of one row offset are exactly the on-board squares in that row within one column, other than the king's own square, without an own piece. |
| MoveGen.KingTargetsExactly | chess_ai.cpp:364-381 | A king reaches exactly the on-board neighbouring squares that do not hold one of its own pieces. |
| MoveGen.WalkRay | chess_ai.cpp:316-330 | The inner loop appends the squares of one ray up to the edge or the first piece, the piece only if it is an opposing one. |
| MoveGen.GenerateSlidingMoves | chess_ai.cpp:315-331 | The direction loop appends the rays in the order of the direction table. |
| MoveGen.GenerateBishopMoves | chess_ai.cpp:311-332 | Appends exactly the four diagonal rays. |
| MoveGen.GenerateRookMoves | chess_ai.cpp:334-355 | Appends exactly the four straight rays. |
| MoveGen.GenerateQueenMoves | chess_ai.cpp:357-362 | Appends the rook's targets, then the bishop's. |
| MoveGen.RayExactly | chess_ai.cpp:316-330 | A ray emits a square iff it lies k steps along (k below 8), is on the board, every square before it is empty, and it does not hold an own piece. |
| MoveGen.RayReachable | chess_ai.cpp:320-329 | Every square a ray emits is on the board and free of the mover's pieces. |
| MoveGen.RaysReachable | chess_ai.cpp:315-331 | Every square a list of rays emits is on the board and free of the mover's pieces. |
| MoveGen.TargetsReachable | chess_ai.cpp:232-251 | Whatever the piece kind, every generated target is on the board and free of the mover's pieces. |
| MoveGen.KeepSound | chess_ai.cpp:254-259 | The filter only emits moves from the given square, with value 0, that pass isValidMove and go to one of the given targets. |
| MoveGen.SquareMovesSound | chess_ai.cpp:221-259 | Every move generated for a square is pseudo-legal, starts on that square and goes to a target of its piece's generator. |
| MoveGen.RowMovesSound | chess_ai.cpp:220-261 | Every move generated for a row is pseudo-legal and goes to a target of its piece's generator. |
| MoveGen.BoardMovesSound | chess_ai.cpp:219-262 | Every move generated for the first rows is pseudo-legal and goes to a target of its piece's generator. |
| MoveGen.AllMovesSound | chess_ai.cpp:214-265 | Every generated move is on the board, moves a piece of the side to move, does not land on an own piece, changes square and goes to a target of its piece's generator. |
| MoveGen.GeneratedMovesFollowRules | chess_ai.cpp:214-265 | Every generated pawn move goes towards promotion, every knight move is a (1,2) or (2,1) jump, every king move a step to a neighbour, and a piece of unknown kind never moves. |
| MoveGen.GenerateSquareMoves | chess_ai.cpp:221-259 | One square's step of the board loop yields exactly that square's filtered targets. |
| MoveGen.FilterTargets | chess_ai.cpp:254-259 | The filter loop keeps exactly the targets that pass isValidMove, in order. |
| MoveGen.GenerateRowMoves | chess_ai.cpp:220-261 | The column loop yields exactly the row's moves in column order. |
| MoveGen.GenerateAllMoves | chess_ai.cpp:214-265 | The double loop yields exactly the row-major list of all generated moves. |
| MoveGen.KeepKeepsAll | chess_ai.cpp:254-259 | For an own piece, the filter drops none of the generator's targets. |
| MoveGen.RowMovesInclude | chess_ai.cpp:220-261 | A move of any square of a row is in the row's list. |
| MoveGen.BoardMovesInclude | chess_ai.cpp:219-262 | A move of any square of the first rows is in their list. |
| MoveGen.TargetsAreGenerated | chess_ai.cpp:214-265 | Every target of a piece of the side to move appears as a move in the board-wide list. |
| Evaluation.WeightsOrdered | chess_ai.h:50-55 | The weights order pawn < knight < bishop < rook < queen < king, and only an unknown kind is worth 0. |
| Evaluation.EvaluatePiece | chess_ai.cpp:182-212 | An empty square scores 0; a White piece scores between 0 and a king's value and a Black piece the same range negated. |
| Evaluation.RowScore | chess_ai.cpp:172-176 | The score of n squares is bounded by n kings' worth either way. |
| Evaluation.BoardScore | chess_ai.cpp:171-177 | The score of n rows is bounded by 8n kings' worth either way. |
| Evaluation.Evaluate | chess_ai.cpp:168-180 | A position scores within 64 kings' worth, strictly inside the C++ `int` range, so the sum never overflows. |
| Evaluation.EvaluatePosition | chess_ai.cpp:168-180 | The row-major double loop skipping empty squares computes the position's score. |
| Evaluation.MirrorPiece | chess_ai.cpp:185-211 | A piece of the other colour on the mirrored row scores the negation. |
| Evaluation.MirrorRow | chess_ai.cpp:172-176 | A row of the mirrored board scores the negation of the original row. |
| Evaluation.EvaluateByRows | chess_ai.cpp:171-177 | The score is the sum of the eight row scores. |
| Evaluation.MirrorNegates | chess_ai.cpp:168-212 | The position seen from the other side scores exactly the negation. |
| Evaluation.SymmetricIsLevel | chess_ai.cpp:168-180 | A position equal to its own mirror image scores 0. |
| Evaluation.InitialIsLevel | chess_ai.cpp:168-180 | The starting position scores 0. |
| Evaluation.RowOfOne | chess_ai.cpp:172-176 | A row with at most one piece scores that piece once it is counted. |
| Evaluation.BoardOfOne | chess_ai.cpp:171-177 | A board with at most one piece scores that piece once its row is counted. |
| Evaluation.LonePieceScores | chess_ai.cpp:168-180 | A board with at most one piece scores exactly that piece. |
| Evaluation.EmptyIsLevel | chess_ai.cpp:168-180 | The empty board scores 0. |
| Evaluation.LonePawnScores | chess_ai.cpp:202-208 | A lone White pawn scores 110 on row 6 and 170 on row 0; a lone Black pawn on row 6 scores -160. |
| Search.IsCheckmate | chess_ai.cpp:414-417 | The checkmate test never reports mate. |
| Search.IsStalemate | chess_ai.cpp:419-422 | The stalemate test never reports stalemate. |
| Search.Minimax | chess_ai.cpp:96-166 | The minimax value of a position always lies within the C++ `int` range. |
| Search.MinimaxUnfold | chess_ai.cpp:112-113 | Above depth 0 the value is the best child value over the generated moves, all of which are on the board. |
| Search.ChildValue | chess_ai.cpp:129-133 | The value of the position after one move, searched with the other side to move, lies within the `int` range. |
| Search.Best | chess_ai.cpp:115-165 | The best child value over a move list lies within the `int` range. |
| Search.ExtremumBounds | chess_ai.cpp:134 | The running maximum (minimum) is at least (at most) every value folded in. |
| Search.ExtremumAttained | chess_ai.cpp:116-139 | The running extremum of in-range values is one of them, or the starting `int` extreme for no values. |
| Search.InRangeExtremum | chess_ai.cpp:116-139 | The running extremum of in-range values stays in range. |
| Search.ExtremumStep | chess_ai.cpp:134 | Folding one more value takes the larger (or smaller) of it and the running value. |
| Search.ExtremumPrefix | chess_ai.cpp:137 | Stopping early never yields more (for the maximizer) than the whole list would. |
| Search.BestBoundsMove | chess_ai.cpp:115-165 | No move of the list has a child value better than the best value. |
| Search.BestAttainedBy | chess_ai.cpp:115-165 | Some move of a non-empty list has the best value as its child value. |
| Search.BestIsExtremum | chess_ai.cpp:115-165 | The best value bounds every child value; it is attained by a move, or is the `int` extreme for no moves. |
| Search.SameMembers | chess_ai.cpp:51-52 | A reordering keeps the length and the members of the move list. |
| Search.BestIgnoresOrder | chess_ai.cpp:51-52 | Reordering the moves does not change the best value, so sorting before searching is harmless. |
| Search.FullWindowIsExact | chess_ai.cpp:76-77 | With the full `int` window a fail-soft result is the exact value. |
| Search.AlphaBeta | chess_ai.cpp:96-166 | The pruned search returns the exact minimax value inside the window, an upper bound at or below alpha and a lower bound at or above beta; at depth 0 it returns the evaluation. |
| Search.MaxLoop | chess_ai.cpp:115-139 | The maximizing loop with its cutoff is fail-soft for the best child value. |
| Search.MaxScanStep | chess_ai.cpp:132-137 | One maximizing step keeps the loop invariant, or on a cutoff already gives a fail-soft bound. |
| Search.MaxScanDone | chess_ai.cpp:139 | A maximizing loop that ran to the end is fail-soft for the best child value. |
| Search.MinLoop | chess_ai.cpp:140-165 | The minimizing loop with its cutoff is fail-soft for the best child value. |
| Search.MinScanStep | chess_ai.cpp:157-162 | One minimizing step keeps the loop invariant, or on a cutoff already gives a fail-soft bound. |
| Search.MinScanDone | chess_ai.cpp:164 | A minimizing loop that ran to the end is fail-soft for the best child value. |
| Search.SearchFullWindow | chess_ai.cpp:76-77 | The recursion called with INT_MIN and INT_MAX returns the exact minimax value. |
| Search.SortMoves | chess_ai.cpp:424-429 | The moves end up in non-increasing value order and are a permutation of the original ones. |
| Search.InsertDown | chess_ai.cpp:424-429 | One insertion step extends the sorted prefix by one and permutes the array. |
| Search.Swap | chess_ai.cpp:424-429 | Exchanging two entries permutes the array. |
| Engine.ChessAI.constructor | chess_ai.cpp:6-18 | A new engine plays the given side at level 3 with depth 4. |
| Engine.ChessAI.SetDifficulty | chess_ai.cpp:22-31 | The level is clamped into 1..5 and the depth becomes one more than the level. |
| Engine.ChessAI.GetBestMove | chess_ai.cpp:33-94 | No move gives the sentinel and one move gives that move. Otherwise the answer is the first move in sorted order with the best value, carries the minimax value of the position, and no move is better for the engine. |
| Engine.SearchRoot | chess_ai.cpp:51-93 | Sorting and then scanning gives the first move in sorted order whose child value is the best over all moves. |
| Engine.SortedCopy | chess_ai.cpp:51-52 | The sorted list is a permutation of the moves in non-increasing value order. |
| Engine.ScanStateIsScanned | chess_ai.cpp:54-84 | After k moves the root loop holds the best value so far and the first move reaching it, with every earlier move strictly worse. |
| Engine.ScanFinds | chess_ai.cpp:54-84 | After the loop no value is better than the one kept, and every earlier move is strictly worse. |
| Engine.ScanMakesRootChoice | chess_ai.cpp:51-93 | The root loop run over any reordering of the moves finds the best value of the original list. |
| Engine.ScanMoves | chess_ai.cpp:54-84 | The root loop ends in the state the scan specification gives. |
| Engine.ScanNext | chess_ai.cpp:58-83 | One root step searches the move with the full window and takes it only when strictly better. |
| SimpleBot.ParsePrinted | simple_ai_bot.cpp:170-181 | Every on-board move prints as four board digits that parse back to the same move. |
| SimpleBot.PrintParsed | simple_ai_bot.cpp:170-181 | A text parses iff it is four board digits, and then it prints back to itself. |
| SimpleBot.BlackPush | simple_ai_bot.cpp:147-148 | A Black pawn push from row 1 is an on-board move of value 0. |
| SimpleBot.BlackPushIsGenerated | simple_ai_bot.cpp:145-148 | On any board with a Black pawn on row 1 and the squares ahead empty, the engine's generator produces that push. |
| SimpleBot.BlackPushIsOpeningMove | simple_ai_bot.cpp:145-148 | Every canned push is a move the generator gives Black in the starting position. |
| SimpleBot.SimpleMoveAt | simple_ai_bot.cpp:162-164 | Entry c of the simple table is the single push of column c. |
| SimpleBot.DoublePushAt | simple_ai_bot.cpp:148 | Entry c of the double-push row is the double push of column c. |
| SimpleBot.RandomMoveAt | simple_ai_bot.cpp:146-151 | The random table has 32 entries; entry i pushes column i mod 8, two squares for 8..15 and one otherwise. |
| SimpleBot.GenerateRandomMove | simple_ai_bot.cpp:143-155 | The drawn index selects the push of column i mod 8, a double push for 8..15. |
| SimpleBot.ClampThinkingTime | simple_ai_bot.cpp:31 | The delay is at least 500 ms, unchanged when the request is already at least that. |
| SimpleBot.SimpleAIBot.constructor | simple_ai_bot.cpp:6-15 | A new bot plays Black at level 3 with 1500 ms, is switched off and has seen no move. |
| SimpleBot.SimpleAIBot.SetDifficulty | simple_ai_bot.cpp:25-28 | The level is clamped into 1..5. |
| SimpleBot.SimpleAIBot.SetThinkingTime | simple_ai_bot.cpp:30-33 | The delay is raised to at least 500 ms. |
| SimpleBot.SimpleAIBot.EnableAI | simple_ai_bot.cpp:35-38 | The switch takes the given value. |
| SimpleBot.SimpleAIBot.OnHumanMove | simple_ai_bot.cpp:40-64 | The move is recorded and counted; an answer is scheduled exactly when the bot is on. |
| SimpleBot.SimpleAIBot.StartGame | simple_ai_bot.cpp:66-70 | The count and the last move are reset. |
| SimpleBot.SimpleAIBot.StopGame | simple_ai_bot.cpp:72-92 | The count and the last move are reset and the bot is switched off. |
| SimpleBot.SimpleAIBot.GenerateSimpleMove | simple_ai_bot.cpp:157-168 | The answer is the single push of column moveCount mod 8. |
| SimpleBot.SimpleAIBot.MakeMove | simple_ai_bot.cpp:94-141 | A switched-off bot announces nothing; otherwise it announces the random move at level 1 or an unlisted level, and the simple move at levels 2..5. |
| SimpleBot.SimpleAIBot.IsValidMove | simple_ai_bot.cpp:170-181 | A text is accepted iff it has four characters, each a digit from 0 to 7. |
| SimpleBot.AnnouncedMovesAreOpeningMoves | simple_ai_bot.cpp:108-127 | Whatever the level, count or draw, the announced text is well formed, passes the bot's own check and names a move the engine generates for Black in the starting position. |

## Left out

- Qt plumbing is not modelled: signals (`aiThinking`, `aiMessage`, `aiMoveReady`), `qDebug` logging, `QObject` parents and the destructors.
- Timers are not modelled. `OnHumanMove` returns whether an answer is scheduled. `MakeMove` is the timer's slot, called directly.
- `QRandomGenerator::bounded(32)` becomes the parameter `randomIndex`, required to lie in 0..31.
- The null check on `thinkingTimer` in `makeMove` is not modelled. The constructor always creates the timer.
- The `try`/`catch` paths in `makeMove` and `stopGame` are not modelled. Nothing inside them throws in the modelled state.
- The `Piece* piece_board` and `last_moved` parameters are not modelled. Every function that takes them only copies or forwards them and never reads them.
- Boards are values (`Grid`), because the source passes them as `const` arrays. Only the per-branch copy is an in-place array, inside `Board.SimulateMove`.
- Piece strings become `Cell`. A colour letter other than `w` or `b` is not modelled. A kind letter other than P N B R Q K becomes `Other`, worth 0 with no moves, as the source's switches give it.
- `moveToString`, `isInCheck` and the remaining files (ai_bot_controller.cpp, ai_integration_example.cpp, ai_test.cpp, test_simple_ai.cpp) are not part of this model.
- Engine.ChessAI.GetBestMove: requires `depth >= 1` whenever there are two or more moves. At depth 0 the source calls `minimax` with depth -1, which never reaches its depth-0 leaf.
- Engine.ChessAI.GetBestMove: the search uses the `depth` argument, as the source does. `maxDepth` is kept but not read.
- Engine.ChessAI.GetBestMove: `std::sort` is not stable. The model states only that the searched order is a permutation sorted by value, not which permutation the library picks. Every generated move has value 0, so the sort decides nothing the model relies on.
- Search.AlphaBeta: requires `alpha < beta`. The source's callers pass the full window, and it recurses only while `alpha < beta` holds.
- Search.Minimax: the checkmate and stalemate branches are modelled through the stubs, which always answer false, so the ±10000 and 0 scores are never reached.
- SimpleBot.SimpleAIBot.IsValidMove: accepts only ASCII digits. `QChar::isDigit` also accepts other Unicode decimal digits, and their `digitValue` can be 0..7.
- SimpleBot.SimpleAIBot.MakeMove: requires `moveCount >= 0`. The source's counter is a C++ `int` that would wrap after 2^31 human moves; the model's counter is unbounded.
- SimpleBot.SimpleAIBot: the `isAITurn` field is set by the constructor and never read, so it plays no part in any contract beyond the constructor's.
- The canned moves are proved legal only in the starting position, or on any board where that pawn and the squares ahead are as at the start. The bot never looks at the board, as the source does not.
