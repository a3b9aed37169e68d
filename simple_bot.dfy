/** The lightweight Black bot: it keeps a little game state, waits for the
    human's move and answers with a canned pawn move chosen by its level.

    A move travels as four digits: from-row, from-col, to-row, to-col, each
    in 0 .. 7. Every canned move is a Black pawn push from row 1, which is a
    legal move of the starting position. */
module SimpleBot {
  import opened Board
  import opened MoveGen
  import opened Difficulty

  datatype Option<T> = None | Some(value: T)

  /* ---------------- The four-digit move format ---------------- */

  function DigitChar(n: int): char
    requires 0 <= n <= 9
  {
    ('0' as int + n) as char
  }

  function DigitValue(c: char): int
  {
    c as int - '0' as int
  }

  /** A digit naming a row or column of the board. */
  predicate IsBoardDigit(c: char)
  {
    '0' <= c <= '7'
  }

  /** What the bot's `isValidMove` accepts: four characters, each a digit
      from 0 to 7. */
  predicate WellFormed(s: string)
  {
    |s| == 4 && forall i :: 0 <= i < 4 ==> IsBoardDigit(s[i])
  }

  /** The text of an on-board move. */
  function MoveText(m: Move): (s: string)
    requires MoveInBounds(m)
  {
    [DigitChar(m.fromRow), DigitChar(m.fromCol), DigitChar(m.toRow), DigitChar(m.toCol)]
  }

  /** The move a text names, if it is well formed. */
  function ParseMove(s: string): (r: Option<Move>)
  {
    if WellFormed(s) then
      Some(Board.MakeMove(DigitValue(s[0]), DigitValue(s[1]), DigitValue(s[2]), DigitValue(s[3])))
    else None
  }

  /** Every on-board move prints as a well-formed text that parses back to it. */
  lemma ParsePrinted(m: Move)
    requires MoveInBounds(m) && m.value == 0
    ensures WellFormed(MoveText(m))
    ensures ParseMove(MoveText(m)) == Some(m)
  {
  }

  /** A text parses exactly when it is well formed, and then it names an
      on-board move that prints back as the same text. */
  lemma PrintParsed(s: string)
    ensures ParseMove(s).Some? <==> WellFormed(s)
    ensures WellFormed(s) ==> MoveInBounds(ParseMove(s).value) && MoveText(ParseMove(s).value) == s
  {
    if WellFormed(s) {
      var m := ParseMove(s).value;
      assert forall i :: 0 <= i < 4 ==> DigitChar(DigitValue(s[i])) == s[i];
      assert MoveText(m) == [s[0], s[1], s[2], s[3]];
    }
  }

  /* ---------------- Canned moves ---------------- */

  /** Black's pawn on column `col` pushed `steps` squares from its starting row. */
  function BlackPush(col: int, steps: int): (m: Move)
    requires 0 <= col < 8 && 1 <= steps <= 2
    ensures MoveInBounds(m) && m.value == 0
  {
    Board.MakeMove(1, col, 1 + steps, col)
  }

  /** A Black pawn on its starting row with free squares ahead of it may be
      pushed one square, or two; the generator offers the push. */
  lemma BlackPushIsGenerated(g: Grid, col: int, steps: int)
    requires 0 <= col < 8 && 1 <= steps <= 2
    requires g[1][col] == Piece(Black, Pawn) && g[2][col] == Empty && g[3][col] == Empty
    ensures BlackPush(col, steps) in AllMoves(g, false)
  {
    var t := (1 + steps, col);
    PawnTargetsExactly(g, 1, col, false, t);
    TargetsAreGenerated(g, false, 1, col, t);
  }

  /** Every push of a Black pawn from its starting row is a move the
      generator offers in the starting position. */
  lemma BlackPushIsOpeningMove(col: int, steps: int)
    requires 0 <= col < 8 && 1 <= steps <= 2
    ensures BlackPush(col, steps) in AllMoves(InitialGrid(), false)
  {
    var g := InitialGrid();
    assert g[1] == PawnRank(Black) && g[2] == EmptyRank() && g[3] == EmptyRank();
    BlackPushIsGenerated(g, col, steps);
  }

  /** The eight single pushes `generateSimpleMove` cycles through. */
  const SimpleMoves: seq<string> := ["1020", "1121", "1222", "1323", "1424", "1525", "1626", "1727"]

  /** The double pushes, the second row of the random table. */
  const DoublePushes: seq<string> := ["1030", "1131", "1232", "1333", "1434", "1535", "1636", "1737"]

  /** The 32 entries `generateRandomMove` draws from, row by row: single
      pushes, double pushes, then the single pushes twice more. */
  const RandomMoves: seq<string> := SimpleMoves + DoublePushes + SimpleMoves + SimpleMoves

  /** Entry `c` of the simple table is the single push of column `c`. */
  lemma SimpleMoveAt(c: int)
    requires 0 <= c < 8
    ensures |SimpleMoves| == 8 && SimpleMoves[c] == MoveText(BlackPush(c, 1))
  {
    assert DigitChar(c) == "01234567"[c];
  }

  /** Entry `c` of the double-push row is the double push of column `c`. */
  lemma DoublePushAt(c: int)
    requires 0 <= c < 8
    ensures |DoublePushes| == 8 && DoublePushes[c] == MoveText(BlackPush(c, 2))
  {
    assert DigitChar(c) == "01234567"[c];
  }

  /** Entry `i` of the random table pushes the pawn of column `i mod 8`, two
      squares for entries 8 .. 15 and one square otherwise. */
  lemma RandomMoveAt(i: int)
    requires 0 <= i < 32
    ensures |RandomMoves| == 32
    ensures RandomMoves[i] == MoveText(BlackPush(i % 8, if 8 <= i < 16 then 2 else 1))
  {
    if i < 8 {
      SimpleMoveAt(i);
      assert RandomMoves[i] == SimpleMoves[i];
    } else if i < 16 {
      DoublePushAt(i - 8);
      assert RandomMoves[i] == DoublePushes[i - 8];
    } else if i < 24 {
      SimpleMoveAt(i - 16);
      assert RandomMoves[i] == SimpleMoves[i - 16];
    } else {
      SimpleMoveAt(i - 24);
      assert RandomMoves[i] == SimpleMoves[i - 24];
    }
  }

  /** The source's `generateRandomMove` with the random draw as a parameter. */
  function GenerateRandomMove(randomIndex: int): (move: string)
    requires 0 <= randomIndex < 32
    ensures move == MoveText(BlackPush(randomIndex % 8, if 8 <= randomIndex < 16 then 2 else 1))
  {
    RandomMoveAt(randomIndex);
    RandomMoves[randomIndex]
  }

  /** The thinking delay the setter stores: never below 500 ms. */
  function ClampThinkingTime(milliseconds: int): (t: int)
    ensures t >= 500
    ensures milliseconds >= 500 ==> t == milliseconds
    ensures milliseconds < 500 ==> t == 500
  {
    if milliseconds < 500 then 500 else milliseconds
  }

  /* ---------------- The bot ---------------- */

  class SimpleAIBot {
    var difficulty: int
    var thinkingTime: int
    var aiEnabled: bool
    /** Set by the constructor and never read or changed afterwards. */
    var isAITurn: bool
    var moveCount: int
    var lastHumanMove: string
    /** The bot always plays Black. */
    const isBlackPlayer: bool

    /** What every operation keeps: a level in 1 .. 5, a delay of at least
        500 ms and a count of human moves that is never negative. */
    predicate Valid()
      reads this
    {
      1 <= difficulty <= 5 && thinkingTime >= 500 && moveCount >= 0
    }

    /** Level 3, 1.5 s of thinking, switched off, no move seen yet. */
    constructor()
      ensures difficulty == 3 && thinkingTime == 1500
      ensures !aiEnabled && !isAITurn
      ensures moveCount == 0 && lastHumanMove == ""
      ensures isBlackPlayer
      ensures Valid()
    {
      difficulty := 3;
      thinkingTime := 1500;
      aiEnabled := false;
      isAITurn := false;
      moveCount := 0;
      lastHumanMove := "";
      isBlackPlayer := true;
    }

    method SetDifficulty(level: int)
      requires Valid()
      modifies this`difficulty
      ensures difficulty == ClampDifficulty(level)
      ensures Valid()
    {
      difficulty := ClampDifficulty(level);
    }

    method SetThinkingTime(milliseconds: int)
      requires Valid()
      modifies this`thinkingTime
      ensures thinkingTime == ClampThinkingTime(milliseconds)
      ensures Valid()
    {
      thinkingTime := if 500 < milliseconds then milliseconds else 500;
    }

    method EnableAI(enabled: bool)
      modifies this`aiEnabled
      ensures aiEnabled == enabled
    {
      aiEnabled := enabled;
    }

    /** Record the human's move and count it; the bot schedules its answer
        (the delayed timer start) exactly when it is enabled. */
    method OnHumanMove(move: string) returns (scheduled: bool)
      requires Valid()
      modifies this`lastHumanMove, this`moveCount
      ensures lastHumanMove == move && moveCount == old(moveCount) + 1
      ensures scheduled == aiEnabled
      ensures Valid()
    {
      lastHumanMove := move;
      moveCount := moveCount + 1;
      scheduled := aiEnabled;
    }

    method StartGame()
      requires Valid()
      modifies this`moveCount, this`lastHumanMove
      ensures moveCount == 0 && lastHumanMove == ""
      ensures Valid()
    {
      moveCount := 0;
      lastHumanMove := "";
    }

    /** Reset the game and switch the bot off. */
    method StopGame()
      requires Valid()
      modifies this`moveCount, this`lastHumanMove, this`aiEnabled
      ensures moveCount == 0 && lastHumanMove == "" && !aiEnabled
      ensures Valid()
    {
      moveCount := 0;
      lastHumanMove := "";
      aiEnabled := false;
    }

    /** The source's `generateSimpleMove`: the single push of column
        `moveCount mod 8`, so the answers repeat every eight moves. */
    function GenerateSimpleMove(): (move: string)
      reads this
      requires moveCount >= 0
      ensures move == MoveText(BlackPush(moveCount % 8, 1))
    {
      SimpleMoveAt(moveCount % 8);
      SimpleMoves[moveCount % 8]
    }

    /** The timer's slot: nothing when the bot is off; otherwise the move it
        announces, a random one at level 1 (and for a level outside 1 .. 5)
        and the simple one at levels 2 to 5. */
    method MakeMove(randomIndex: int) returns (announced: Option<string>)
      requires 0 <= randomIndex < 32 && moveCount >= 0
      ensures !aiEnabled ==> announced == None
      ensures aiEnabled && 2 <= difficulty <= 5 ==> announced == Some(GenerateSimpleMove())
      ensures aiEnabled && !(2 <= difficulty <= 5) ==> announced == Some(GenerateRandomMove(randomIndex))
    {
      if !aiEnabled {
        return None;
      }
      var move: string;
      match difficulty {
        case 1 => move := GenerateRandomMove(randomIndex);
        case 2 => move := GenerateSimpleMove();
        case 3 => move := GenerateSimpleMove();
        case 4 => move := GenerateSimpleMove();
        case 5 => move := GenerateSimpleMove();
        case _ => move := GenerateRandomMove(randomIndex);
      }
      announced := Some(move);
    }

    /** The source's `isValidMove`: four characters, each a digit 0 .. 7. */
    method IsValidMove(move: string) returns (ok: bool)
      ensures ok == WellFormed(move)
    {
      if |move| != 4 {
        return false;
      }
      for i := 0 to 4
        invariant forall j :: 0 <= j < i ==> IsBoardDigit(move[j])
      {
        if !('0' <= move[i] <= '9') {
          return false;
        }
        var digit := DigitValue(move[i]);
        if digit < 0 || digit > 7 {
          return false;
        }
      }
      return true;
    }
  }

  /** Whatever the level, the draw or the count, an enabled bot announces a
      well-formed move naming a legal opening move of Black's, one its own
      check accepts. */
  lemma AnnouncedMovesAreOpeningMoves(difficulty: int, moveCount: int, randomIndex: int)
    requires 0 <= randomIndex < 32 && moveCount >= 0
    ensures var move := if 2 <= difficulty <= 5 then MoveText(BlackPush(moveCount % 8, 1))
                        else GenerateRandomMove(randomIndex);
            && WellFormed(move)
            && ParseMove(move).Some?
            && ParseMove(move).value in AllMoves(InitialGrid(), false)
  {
    var col, steps :=
      if 2 <= difficulty <= 5 then moveCount % 8 else randomIndex % 8,
      if 2 <= difficulty <= 5 || !(8 <= randomIndex < 16) then 1 else 2;
    ParsePrinted(BlackPush(col, steps));
    BlackPushIsOpeningMove(col, steps);
  }
}
