/**
 The level curve (src/experience/experience-level.ts): level n costs 40 * n^1.8 points, rounded to the
 nearest integer, and a level is found by searching the thresholds upwards. Rounding 40 * n^1.8 to k
 means 2k - 1 <= 80 * n^1.8 < 2k + 1; raised to the fifth power both sides are integers.
 */
module ExperienceCurve {
  import opened Common

  const MAX_USER_LEVEL := 50

  function Pow(x: nat, e: nat): nat {
    if e == 0 then 1 else x * Pow(x, e - 1)
  }

  /** (80 * n^1.8)^5. */
  function Scaled(n: nat): nat {
    Pow(80, 5) * Pow(n, 9)
  }

  /** `k` is 40 * n^1.8 rounded to the nearest integer. */
  predicate IsRounded(k: nat, n: nat) {
    k >= 1 && Pow(2 * k - 1, 5) <= Scaled(n) < Pow(2 * k + 1, 5)
  }

  // ----- Powers -----

  lemma {:induction false} PowPositive(x: nat, e: nat)
    requires x > 0
    ensures Pow(x, e) > 0
  {
    if e > 0 {
      PowPositive(x, e - 1);
      assert x * Pow(x, e - 1) > 0;
    }
  }

  lemma {:induction false} PowMonotone(x: nat, y: nat, e: nat)
    requires x <= y
    ensures Pow(x, e) <= Pow(y, e)
  {
    if e > 0 {
      PowMonotone(x, y, e - 1);
      MultiplyBoth(x, y, Pow(x, e - 1), Pow(y, e - 1));
    }
  }

  lemma MultiplyBoth(a: nat, b: nat, c: nat, d: nat)
    requires a <= b && c <= d
    ensures a * c <= b * d
  {
  }

  lemma Regroup(x: nat, y: nat, a: nat, b: nat)
    ensures x * y * (a * b) == x * a * (y * b)
  {
  }

  lemma StrictProduct(a: nat, b: nat, c: nat)
    requires a < b && c > 0
    ensures a * c < b * c
  {
  }

  lemma {:induction false} PowProduct(x: nat, y: nat, e: nat)
    ensures Pow(x * y, e) == Pow(x, e) * Pow(y, e)
  {
    if e > 0 {
      PowProduct(x, y, e - 1);
      Regroup(x, y, Pow(x, e - 1), Pow(y, e - 1));
    }
  }

  lemma {:induction false} PowSum(x: nat, d: nat, e: nat)
    ensures Pow(x, d + e) == Pow(x, d) * Pow(x, e)
  {
    if d > 0 {
      PowSum(x, d - 1, e);
      var a, b := Pow(x, d - 1), Pow(x, e);
      assert x * (a * b) == x * a * b;
    }
  }

  lemma {:induction false} PowGrows(x: nat, y: nat, e: nat)
    requires x < y && e > 0
    ensures Pow(x, e) < Pow(y, e)
  {
    PowMonotone(x, y, e - 1);
    PowPositive(y, e - 1);
    var a, b := Pow(x, e - 1), Pow(y, e - 1);
    MultiplyBoth(x, x, a, b);
    StrictProduct(x, y, b);
  }

  // ----- The rounded threshold -----

  /** Search from below: the odd number after 2k - 1 is tried until its fifth power is too large. */
  function RoundFrom(a: nat, k: nat): (r: nat)
    requires k >= 1 && Pow(2 * k - 1, 5) <= a
    ensures r >= k && Pow(2 * r - 1, 5) <= a < Pow(2 * r + 1, 5)
    decreases a + 1 - Pow(2 * k - 1, 5)
  {
    PowGrows(2 * k - 1, 2 * k + 1, 5);
    if a < Pow(2 * k + 1, 5) then k else RoundFrom(a, k + 1)
  }

  function XpRequired(n: nat): (k: nat)
    requires n >= 1
    ensures IsRounded(k, n)
  {
    ScaledIsLarge(n);
    RoundFrom(Scaled(n), 1)
  }

  /** There is one nearest integer, so `XpRequired` is determined by the inequality alone. */
  lemma RoundingIsUnique(n: nat, k: nat)
    requires n >= 1 && IsRounded(k, n)
    ensures k == XpRequired(n)
  {
    var r := XpRequired(n);
    if k < r {
      PowMonotone(2 * k + 1, 2 * r - 1, 5);
    } else if r < k {
      PowMonotone(2 * r + 1, 2 * k - 1, 5);
    }
  }

  lemma ReachedFrom(n: nat, k: nat)
    requires n >= 1 && k >= 1 && Pow(2 * k - 1, 5) <= Scaled(n)
    ensures k <= XpRequired(n)
  {
    var r := XpRequired(n);
    if r < k {
      PowMonotone(2 * r + 1, 2 * k - 1, 5);
    }
  }

  /** 2n + 1 <= 80 * n^1.8, so the threshold is above the level. */
  lemma ScaledIsLarge(n: nat)
    requires n >= 1
    ensures 1 <= Pow(2 * n + 1, 5) <= Scaled(n) && Pow(1, 5) == 1
  {
    PowPositive(2 * n + 1, 5);
    PowMonotone(2 * n + 1, 80 * n, 5);
    PowProduct(80, n, 5);
    PowSum(n, 5, 4);
    PowPositive(n, 4);
    assert Pow(1, 5) == 1;
    hide Pow;
    MultiplyBoth(Pow(n, 5), Pow(n, 5), 1, Pow(n, 4));
    MultiplyBoth(Pow(80, 5), Pow(80, 5), Pow(n, 5), Pow(n, 9));
  }

  /** Every level costs more than the one before, for all levels, not only the fifty in use. */
  lemma ThresholdsIncrease(n: nat)
    requires n >= 1
    ensures XpRequired(n) < XpRequired(n + 1)
  {
    hide Pow, XpRequired;
    var k := XpRequired(n);
    ScaledIsLarge(n);
    ReachedFrom(n, n + 1);
    var x := 2 * k - 1;
    assert (x + 2) * n <= x * (n + 1);
    PowMonotone((x + 2) * n, x * (n + 1), 5);
    PowProduct(x + 2, n, 5);
    PowProduct(x, n + 1, 5);
    Cancel(n, Pow(x, 5), Pow(x + 2, 5));
    ReachedFrom(n + 1, k + 1);
  }

  /** From y * n^5 <= x * (n + 1)^5 and x <= 80^5 * n^9 follows y <= 80^5 * (n + 1)^9. */
  lemma Cancel(n: nat, x: nat, y: nat)
    requires n >= 1 && x <= Scaled(n) && y * Pow(n, 5) <= x * Pow(n + 1, 5)
    ensures y <= Scaled(n + 1)
  {
    hide Pow;
    var c, p, q, a, b := Pow(80, 5), Pow(n, 5), Pow(n, 4), Pow(n + 1, 5), Pow(n + 1, 4);
    PowSum(n, 5, 4);
    PowSum(n + 1, 5, 4);
    PowPositive(n, 5);
    PowMonotone(n, n + 1, 4);
    MultiplyBoth(x, c * (p * q), a, a);
    Rearrange(c, p, q, a);
    if c * a * q < y {
      StrictProduct(c * a * q, y, p);
    }
    MultiplyBoth(c * a, c * a, q, b);
  }

  lemma Rearrange(c: nat, p: nat, q: nat, a: nat)
    ensures c * (p * q) * a == c * a * q * p
  {
  }

  lemma {:induction false} ThresholdsAreOrdered(m: nat, n: nat)
    requires 1 <= m <= n
    ensures XpRequired(m) <= XpRequired(n)
    ensures m < n ==> XpRequired(m) < XpRequired(n)
    decreases n
  {
    if m < n {
      ThresholdsAreOrdered(m, n - 1);
      ThresholdsIncrease(n - 1);
    }
  }

  // ----- The level of a total -----

  datatype LevelError = RangeError

  function XpRequiredForLevel(level: int): (r: Result<nat, LevelError>)
    ensures r.Ok? <==> 1 <= level <= MAX_USER_LEVEL
    ensures r.Ok? ==> IsRounded(r.value, level)
  {
    if level < 1 || level > MAX_USER_LEVEL then Err(RangeError) else Ok(XpRequired(level))
  }

  datatype Tier = UNRANKED | BEGINNER | CONSISTENT | DEDICATED | VETERAN

  function TierForLevel(level: nat): Tier {
    if level < 1 then UNRANKED
    else if level <= 10 then BEGINNER
    else if level <= 25 then CONSISTENT
    else if level <= 40 then DEDICATED
    else VETERAN
  }

  function Threshold(level: nat): nat {
    if level == 0 then 0 else XpRequired(level)
  }

  /** The level a total stands for: the largest of the fifty whose threshold it reaches, or 0. */
  ghost predicate IsLevelOf(level: nat, xp: nat) {
    && level <= MAX_USER_LEVEL
    && forall n :: 1 <= n <= MAX_USER_LEVEL ==> (XpRequired(n) <= xp <==> n <= level)
  }

  function LevelUpTo(xp: nat, max: nat): (level: nat)
    ensures level <= max
  {
    if max == 0 || XpRequired(max) <= xp then max else LevelUpTo(xp, max - 1)
  }

  function LevelOf(xp: nat): nat {
    LevelUpTo(xp, MAX_USER_LEVEL)
  }

  lemma {:induction false} LevelUpToIsLargest(xp: nat, max: nat, n: nat)
    requires 1 <= n <= max
    ensures XpRequired(n) <= xp <==> n <= LevelUpTo(xp, max)
  {
    if XpRequired(max) <= xp {
      ThresholdsAreOrdered(n, max);
    } else if n < max {
      LevelUpToIsLargest(xp, max - 1, n);
    }
  }

  lemma LevelAt(level: nat, xp: nat, n: nat)
    requires IsLevelOf(level, xp)
    ensures level <= MAX_USER_LEVEL && (1 <= n <= MAX_USER_LEVEL ==> (XpRequired(n) <= xp <==> n <= level))
  {
  }

  lemma LevelOfIsTheLevel(xp: nat, level: nat)
    ensures IsLevelOf(LevelOf(xp), xp)
    ensures IsLevelOf(level, xp) ==> level == LevelOf(xp)
  {
    forall n | 1 <= n <= MAX_USER_LEVEL ensures XpRequired(n) <= xp <==> n <= LevelOf(xp) {
      LevelUpToIsLargest(xp, MAX_USER_LEVEL, n);
    }
    hide IsLevelOf;
    if IsLevelOf(level, xp) && level != LevelOf(xp) {
      var n: nat := if level < LevelOf(xp) then LevelOf(xp) else level;
      LevelAt(level, xp, n);
      LevelAt(LevelOf(xp), xp, n);
    }
  }

  /** More points never cost a level. */
  lemma LevelIsMonotone(a: nat, b: nat)
    requires a <= b
    ensures LevelOf(a) <= LevelOf(b)
  {
    LevelOfIsTheLevel(a, 0);
    LevelOfIsTheLevel(b, 0);
    hide IsLevelOf;
    var n := LevelOf(a);
    LevelAt(n, a, n);
    LevelAt(LevelOf(b), b, n);
  }

  datatype ExperienceLevel = ExperienceLevel(level: nat, tier: Tier, totalXp: nat, currentLevelXp: nat,
                                             nextLevelXp: Option<nat>, xpIntoLevel: int, xpToNextLevel: Option<int>)

  /**
   The upward search stops at the right level for every total: the one before the first threshold not
   reached. Points into the level and points still missing add up to the gap between the thresholds.
   */
  method CalculateExperienceLevel(totalXp: real) returns (r: ExperienceLevel)
    ensures r.totalXp == if totalXp < 0.0 then 0 else totalXp.Floor
    ensures IsLevelOf(r.level, r.totalXp) && r.level == LevelOf(r.totalXp)
    ensures r.currentLevelXp == Threshold(r.level) && (r.level == 0 ==> r.currentLevelXp == 0)
    ensures r.tier == UNRANKED <==> r.level == 0
    ensures r.tier == BEGINNER <==> 1 <= r.level <= 10
    ensures r.tier == CONSISTENT <==> 11 <= r.level <= 25
    ensures r.tier == DEDICATED <==> 26 <= r.level <= 40
    ensures r.tier == VETERAN <==> 41 <= r.level <= 50
    ensures r.nextLevelXp.None? <==> r.level == MAX_USER_LEVEL
    ensures r.nextLevelXp.None? <==> r.xpToNextLevel.None?
    ensures r.nextLevelXp.Some? ==> r.nextLevelXp.value == Threshold(r.level + 1)
    ensures r.xpIntoLevel == r.totalXp - r.currentLevelXp && r.xpIntoLevel >= 0
    ensures r.xpToNextLevel.Some? ==>
              && r.xpToNextLevel.value > 0
              && r.xpIntoLevel + r.xpToNextLevel.value == Threshold(r.level + 1) - Threshold(r.level)
  {
    hide IsRounded;
    var safeXp: nat := if totalXp.Floor < 0 then 0 else totalXp.Floor;
    var level := 0;
    var candidate := 1;
    while candidate <= MAX_USER_LEVEL
      invariant 1 <= candidate <= MAX_USER_LEVEL + 1 && level == candidate - 1
      invariant forall n :: 1 <= n <= level ==> XpRequired(n) <= safeXp
    {
      if safeXp < XpRequired(candidate) {
        forall n | candidate <= n <= MAX_USER_LEVEL ensures safeXp < XpRequired(n) {
          ThresholdsAreOrdered(candidate, n);
        }
        break;
      }
      level := candidate;
      candidate := candidate + 1;
    }
    LevelOfIsTheLevel(safeXp, level);
    var current := if level == 0 then 0 else XpRequired(level);
    var next := if level == MAX_USER_LEVEL then None else Some(XpRequired(level + 1));
    assert next.Some? ==> safeXp < XpRequired(level + 1);
    r := ExperienceLevel(level, TierForLevel(level), safeXp, current, next, safeXp - current,
                         if next.None? then None else Some(next.value - safeXp));
  }
}
