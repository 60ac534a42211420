/**
 The XP ledger of one user (src/experience/experience-ledger.service.ts): entries deduplicated by source,
 a running total with its level, and the rewards that level has earned.
 */
module ExperienceLedger {
  import opened Common
  import Curve = ExperienceCurve

  type ModuleKey = string
  type RewardId = nat

  /** Source type and reference, which with the user make the dedupe key. */
  datatype Source = Lesson(key: ModuleKey) | Introduction | DailyReward(date: nat)

  datatype Reward = Reward(active: bool, minimumLevel: Option<int>)
  datatype Account = Account(totalXp: nat, currentLevel: nat)
  datatype Grant = Grant(granted: bool, pointsGranted: nat, level: nat)
  datatype GrantError = RangeError

  // ----- What a level has earned -----

  predicate IsEarned(reward: Reward, level: nat) {
    reward.active && reward.minimumLevel.Some? && reward.minimumLevel.value <= level
  }

  ghost function Earned(rewards: map<RewardId, Reward>, level: nat): map<RewardId, int> {
    map r | r in rewards && IsEarned(rewards[r], level) :: rewards[r].minimumLevel.value
  }

  /** The unlocked rewards are the active ones whose minimum level is reached, each with that level. */
  ghost predicate HoldsExactly(rewards: map<RewardId, Reward>, unlocks: map<RewardId, int>, level: nat) {
    && (forall r :: r in unlocks <==>
          r in rewards && rewards[r].active && rewards[r].minimumLevel.Some? && rewards[r].minimumLevel.value <= level)
    && (forall r :: r in unlocks ==> unlocks[r] == rewards[r].minimumLevel.value)
  }

  lemma EarnedIsHeld(rewards: map<RewardId, Reward>, level: nat)
    ensures HoldsExactly(rewards, Earned(rewards, level), level)
  {
  }

  /** The account follows from the entries: their sum, the level of that sum, and exactly its rewards. */
  ghost predicate Consistent(rewards: map<RewardId, Reward>, entries: map<Source, nat>, account: Option<Account>, unlocks: map<RewardId, int>) {
    match account
    case None => entries == map[] && unlocks == map[]
    case Some(a) =>
      && entries != map[] && a.totalXp == SumOf(entries)
      && a.currentLevel == Curve.LevelOf(a.totalXp) && unlocks == Earned(rewards, a.currentLevel)
  }

  class Ledger {
    const rewards: map<RewardId, Reward>
    var entries: map<Source, nat>
    var account: Option<Account>
    var unlocks: map<RewardId, int>

    ghost predicate Valid()
      reads this
    {
      Consistent(rewards, entries, account, unlocks)
    }

    function TotalXp(): nat
      reads this
    {
      if account.None? then 0 else account.value.totalXp
    }

    constructor (rewards: map<RewardId, Reward>)
      ensures Valid() && this.rewards == rewards && entries == map[]
    {
      this.rewards := rewards;
      entries, account, unlocks := map[], None, map[];
    }

    method Profile() returns (profile: Curve.ExperienceLevel)
      ensures profile.totalXp == TotalXp() && profile.level == Curve.LevelOf(TotalXp())
    {
      profile := Curve.CalculateExperienceLevel(TotalXp() as real);
    }

    /** A source pays once: the first grant adds its points to everything, any later one changes nothing. */
    method Give(source: Source, points: int) returns (r: Result<Grant, GrantError>)
      requires Valid()
      modifies this
      ensures Valid()
      ensures r.Err? <==> points <= 0
      ensures entries == if points > 0 && source !in old(entries) then old(entries)[source := points] else old(entries)
      ensures r.Ok? ==> r.value.granted == (source !in old(entries)) && r.value.level == Curve.LevelOf(TotalXp())
      ensures TotalXp() == old(TotalXp()) + if r.Ok? then r.value.pointsGranted else 0
      ensures r.Ok? ==> r.value.pointsGranted == if r.value.granted then points else 0
      ensures account.Some? ==> HoldsExactly(rewards, unlocks, account.value.currentLevel)
      ensures entries == old(entries) ==> account == old(account) && unlocks == old(unlocks)
    {
      if account.Some? {
        EarnedIsHeld(rewards, account.value.currentLevel);
      }
      if points <= 0 {
        return Err(RangeError);
      }
      if source in entries {
        var known := Profile();
        return Ok(Grant(false, 0, known.level));
      }
      hide SumOf, Earned, HoldsExactly, Curve.LevelOf, Curve.IsLevelOf, Curve.Threshold;
      SumWith(entries, source, points);
      EmptySum<Source>();
      entries := entries[source := points];
      var created := account.None?;
      var totalXp := if created then points else account.value.totalXp + points;
      ghost var before: nat := if created then 0 else account.value.totalXp;
      Curve.LevelIsMonotone(before, totalXp);
      account := Some(Account(totalXp, 0));
      var level := Profile();
      account := Some(Account(totalXp, level.level));
      UnlockEarnedRewards(level.level, Curve.LevelOf(before));
      EarnedIsHeld(rewards, level.level);
      r := Ok(Grant(true, points, level.level));
    }

    /** Rewards already unlocked are left as they are; the others of this level are added. */
    method UnlockEarnedRewards(level: nat, ghost before: nat)
      requires before <= level && (unlocks == map[] || unlocks == Earned(rewards, before))
      modifies this`unlocks
      ensures unlocks == Earned(rewards, level)
    {
      ghost var known := unlocks;
      var found := map r | r in rewards && IsEarned(rewards[r], level) :: rewards[r].minimumLevel.value;
      var left := found.Keys;
      while left != {}
        invariant left <= found.Keys && known.Keys <= found.Keys
        invariant unlocks.Keys == known.Keys + (found.Keys - left)
        invariant forall r :: r in unlocks ==> unlocks[r] == found[r]
      {
        var r :| r in left;
        left := left - {r};
        if r !in unlocks {
          unlocks := unlocks[r := found[r]];
        }
      }
    }

    /** The daily reward: at most once a date. */
    method ClaimDailyReward(date: nat, points: int) returns (r: Result<Grant, GrantError>, conflict: bool)
      requires Valid()
      modifies this
      ensures Valid()
      ensures entries == if points > 0 && DailyReward(date) !in old(entries) then old(entries)[DailyReward(date) := points] else old(entries)
      ensures conflict <==> points > 0 && DailyReward(date) in old(entries)
    {
      r := Give(DailyReward(date), points);
      conflict := r.Ok? && !r.value.granted;
    }
  }
}
