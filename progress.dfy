/**
 * Experience points and level, as `updateUserXP` recomputes them when a badge
 * is awarded. XP are integers; Dafny's `/` by the positive constant 100 rounds
 * down, as `Math.floor(newXP / 100)` does, negative totals included.
 */
module Progress {
  import opened Wrappers

  datatype XpLevel = XpLevel(xpTotal: int, level: int)

  /** `Math.floor(xp / 100) + 1`: level n covers the totals from 100(n-1) up to 100n - 1. */
  function Level(xp: int): (level: int)
    ensures 100 * (level - 1) <= xp < 100 * level
  {
    xp / 100 + 1
  }

  /** `(profile?.xp_total || 0) + xpToAdd` and the level of that total. */
  function AwardXp(storedTotal: Option<int>, xpToAdd: int): (r: XpLevel)
    ensures r.xpTotal - xpToAdd == storedTotal.GetOr(0)
    ensures 100 * (r.level - 1) <= r.xpTotal < 100 * r.level
  {
    var newXp := storedTotal.GetOr(0) + xpToAdd;
    XpLevel(newXp, Level(newXp))
  }

  /** 95 XP plus 10 gives 105 XP, which is level 2. */
  lemma AwardXpExample()
    ensures AwardXp(Some(95), 10) == XpLevel(105, 2)
  {
  }

  /** The level never drops when the total grows. */
  lemma LevelMonotone(x: int, y: int)
    requires x <= y
    ensures Level(x) <= Level(y)
  {
  }

  /** Two awards in a row add up to one award of their sum. */
  lemma AwardXpAdditive(storedTotal: Option<int>, a: int, b: int)
    ensures AwardXp(Some(AwardXp(storedTotal, a).xpTotal), b) == AwardXp(storedTotal, a + b)
  {
  }

  /** A non-negative award never lowers the level. */
  lemma AwardNeverLowersLevel(storedTotal: Option<int>, xpToAdd: int)
    requires xpToAdd >= 0
    ensures AwardXp(storedTotal, xpToAdd).level >= Level(storedTotal.GetOr(0))
  {
    LevelMonotone(storedTotal.GetOr(0), AwardXp(storedTotal, xpToAdd).xpTotal);
  }
}
