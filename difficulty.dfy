/** Difficulty levels shared by both bots. */
module Difficulty {

  /** A requested level forced into 1 .. 5. */
  function ClampDifficulty(level: int): (r: int)
    ensures 1 <= r <= 5
    ensures 1 <= level <= 5 ==> r == level
    ensures level < 1 ==> r == 1
    ensures level > 5 ==> r == 5
  {
    if level < 1 then 1 else if level > 5 then 5 else level
  }

  /** Clamping twice is clamping once. */
  lemma ClampIdempotent(level: int)
    ensures ClampDifficulty(ClampDifficulty(level)) == ClampDifficulty(level)
  {
  }

  /** Clamping never reverses the order of two requests. */
  lemma ClampMonotone(a: int, b: int)
    requires a <= b
    ensures ClampDifficulty(a) <= ClampDifficulty(b)
  {
  }

  /** The search depth the engine's switch assigns to a level; the switch in
      the constructor falls back to 3 for a level it does not list. */
  function DepthForLevel(level: int): (d: int)
    ensures 1 <= level <= 5 ==> d == level + 1
    ensures !(1 <= level <= 5) ==> d == 3
  {
    match level
    case 1 => 2
    case 2 => 3
    case 3 => 4
    case 4 => 5
    case 5 => 6
    case _ => 3
  }
}
