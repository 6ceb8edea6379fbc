/**
 * The level table: the gravity delay, in milliseconds, for each game level,
 * and the clamped lookup `getDelay` (src/constants/levels.ts).
 */
module Levels {

  const MinLevel: int := 1
  const MaxLevel: int := 10

  /** `LEVEL_DELAYS`: a record from level number to delay in milliseconds. */
  const LevelDelays: map<int, int> :=
    map[1 := 500, 2 := 450, 3 := 400, 4 := 350, 5 := 300,
        6 := 250, 7 := 200, 8 := 150, 9 := 100, 10 := 50]

  function Min(a: int, b: int): int { if a <= b then a else b }
  function Max(a: int, b: int): int { if a >= b then a else b }

  /** The level clamped into the table's range 1..10. */
  function Clamp(level: int): (c: int)
    ensures MinLevel <= c <= MaxLevel
    ensures MinLevel <= level <= MaxLevel ==> c == level
    ensures level < MinLevel ==> c == MinLevel
    ensures level > MaxLevel ==> c == MaxLevel
  {
    Max(MinLevel, Min(MaxLevel, level))
  }

  /** Every level of the table is a key, and the delays fall by 50 ms per level from 500 ms. */
  lemma TableShape()
    ensures forall l :: l in LevelDelays <==> MinLevel <= l <= MaxLevel
    ensures forall l :: MinLevel <= l <= MaxLevel ==> LevelDelays[l] == 550 - 50 * l
  {
  }

  /** `getDelay`: clamp the level into 1..10, then look it up in the table. */
  function GetDelay(level: int): (d: int)
    ensures d == 550 - 50 * Clamp(level)
  {
    TableShape();
    LevelDelays[Clamp(level)]
  }

  /** On the table's own range, the delay is 550 - 50 * level. */
  lemma DelayOnTable(level: int)
    requires MinLevel <= level <= MaxLevel
    ensures level in LevelDelays
    ensures GetDelay(level) == LevelDelays[level] == 550 - 50 * level
  {
    TableShape();
  }

  /** For every integer level, the delay is the table entry of the clamped level. */
  lemma DelayIsClampedLookup(level: int)
    ensures Clamp(level) in LevelDelays
    ensures GetDelay(level) == LevelDelays[Clamp(level)]
  {
    TableShape();
  }

  /** Levels below the table get the slowest delay, levels above it the fastest. */
  lemma DelayOutsideTable(level: int)
    ensures level < MinLevel ==> GetDelay(level) == 500
    ensures level > MaxLevel ==> GetDelay(level) == 50
  {
  }

  /** The delay never grows with the level, and strictly falls inside the table. */
  lemma DelayMonotonic(a: int, b: int)
    requires a <= b
    ensures GetDelay(b) <= GetDelay(a)
    ensures MinLevel <= a < b <= MaxLevel ==> GetDelay(b) < GetDelay(a)
  {
  }

  /** Every delay is a multiple of 50 ms between 50 ms and 500 ms. */
  lemma DelayRange(level: int)
    ensures 50 <= GetDelay(level) <= 500
    ensures GetDelay(level) % 50 == 0
  {
  }

  /** Clamping before the lookup changes nothing: the clamp is idempotent. */
  lemma ClampIdempotent(level: int)
    ensures Clamp(Clamp(level)) == Clamp(level)
    ensures GetDelay(Clamp(level)) == GetDelay(level)
  {
  }
}
