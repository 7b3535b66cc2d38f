/**
 * Streak progression: a level clamped to 1..10 selects a multiplier and a
 * status label; a hit advances the level, a miss or a bank resets it.
 */
module Streak {
  import opened Types
  import opened Constants

  /** The level clamped into [MIN_STREAK_LEVEL, MAX_STREAK_LEVEL]. */
  function Clamp(level: int): (c: int)
    ensures MIN_STREAK_LEVEL <= c <= MAX_STREAK_LEVEL
    ensures MIN_STREAK_LEVEL <= level <= MAX_STREAK_LEVEL ==> c == level
    ensures level <= MIN_STREAK_LEVEL ==> c == MIN_STREAK_LEVEL
    ensures level >= MAX_STREAK_LEVEL ==> c == MAX_STREAK_LEVEL
  {
    if level < MIN_STREAK_LEVEL then MIN_STREAK_LEVEL
    else if level > MAX_STREAK_LEVEL then MAX_STREAK_LEVEL
    else level
  }

  /** The multiplier of a level: in range it is the table entry, outside it the nearest end. */
  function GetStreakMultiplier(level: int): (m: int)
    ensures 1 <= level <= 10 ==> m == GetStreakMultipliers()[level - 1]
    ensures level <= 1 ==> m == 1
    ensures level >= 10 ==> m == 120
    ensures 1 <= m <= 120
  {
    var multipliers := GetStreakMultipliers();
    multipliers[Clamp(level) - 1]
  }

  /** A higher level never has a lower multiplier. */
  lemma MultiplierMonotone(a: int, b: int)
    requires a <= b
    ensures GetStreakMultiplier(a) <= GetStreakMultiplier(b)
  {
    var m := GetStreakMultipliers();
    StreakMultipliersIncreasing();
    var i, j := Clamp(a) - 1, Clamp(b) - 1;
    if i < j {
      assert m[i] < m[j];
    }
  }

  /** One level up after a hit, saturating at MAX_STREAK_LEVEL. */
  function IncrementStreakLevel(currentLevel: int): (next: int)
    ensures next <= MAX_STREAK_LEVEL
    ensures currentLevel < MAX_STREAK_LEVEL ==> next == currentLevel + 1
    ensures currentLevel >= MAX_STREAK_LEVEL ==> next == MAX_STREAK_LEVEL
    ensures MIN_STREAK_LEVEL <= currentLevel <= MAX_STREAK_LEVEL ==>
              MIN_STREAK_LEVEL <= next <= MAX_STREAK_LEVEL && next >= currentLevel
  {
    if MAX_STREAK_LEVEL < currentLevel + 1 then MAX_STREAK_LEVEL else currentLevel + 1
  }

  datatype StreakReset = StreakReset(level: int, multiplier: int)

  /** The streak after a miss or a bank: level 1 at its own multiplier, which is 1. */
  function ResetStreak(): (r: StreakReset)
    ensures r.level == MIN_STREAK_LEVEL && r.multiplier == GetStreakMultiplier(r.level) == 1
  {
    StreakReset(MIN_STREAK_LEVEL, GetStreakMultiplier(MIN_STREAK_LEVEL))
  }

  /** The status label of a level, clamped exactly as the multiplier is. */
  function GetStreakStatus(level: int): (status: string)
    ensures status in STREAK_STATUS_LABELS
    ensures level <= 1 ==> status == STREAK_STATUS_LABELS[0]
    ensures level >= 10 ==> status == STREAK_STATUS_LABELS[9]
  {
    STREAK_STATUS_LABELS[Clamp(level) - 1]
  }

  /** Label and multiplier of a level sit at the same position of their tables. */
  lemma StatusMatchesMultiplier(level: int)
    ensures exists i :: 0 <= i < MAX_STREAK_LEVEL &&
              GetStreakStatus(level) == STREAK_STATUS_LABELS[i] &&
              GetStreakMultiplier(level) == STREAK_MULTIPLIERS[i]
  {
    var i := Clamp(level) - 1;
    assert GetStreakStatus(level) == STREAK_STATUS_LABELS[i];
  }

  lemma MultiplierTable()
    ensures GetStreakMultiplier(1) == 1 && GetStreakMultiplier(2) == 2
    ensures GetStreakMultiplier(3) == 4 && GetStreakMultiplier(4) == 8
    ensures GetStreakMultiplier(5) == 15 && GetStreakMultiplier(6) == 25
    ensures GetStreakMultiplier(7) == 40 && GetStreakMultiplier(8) == 60
    ensures GetStreakMultiplier(9) == 80 && GetStreakMultiplier(10) == 120
    ensures GetStreakMultiplier(0) == 1 && GetStreakMultiplier(-5) == 1
    ensures GetStreakMultiplier(11) == 120 && GetStreakMultiplier(999) == 120
    ensures IncrementStreakLevel(1) == 2 && IncrementStreakLevel(9) == 10
    ensures IncrementStreakLevel(10) == 10 && IncrementStreakLevel(15) == 10
  {
  }

  /** The status labels of levels 1, 4, 5 and 10, and of the clamped levels 0 and 11. */
  lemma StatusExamples()
    ensures GetStreakStatus(1) == "Старт" && GetStreakStatus(4) == "В огне!"
    ensures GetStreakStatus(5) == "Элита" && GetStreakStatus(10) == "БОГ ИГРЫ"
    ensures GetStreakStatus(0) == "Старт" && GetStreakStatus(11) == "БОГ ИГРЫ"
  {
  }
}
