/**
 * The reward economics of `NFTGenerator.generate_metadata`: the tier is clamped
 * to a rarity, three fixed tables give the numeric rewards, and the activity
 * picks a perk string.
 */
module TierCatalog {
  import opened Wrappers
  import opened Text

  /** Common, Rare, Legendary, Mythic. */
  type Rarity = r: int | 0 <= r <= 3

  /** Tiers 0, 1 and 2 keep their number; every other int, negative ones included, is 3. */
  function RarityOf(tier: int): (r: Rarity)
    ensures 0 <= tier <= 3 ==> r == tier
    ensures tier < 0 || tier > 3 ==> r == 3
  {
    if tier == 0 then 0 else if tier == 1 then 1 else if tier == 2 then 2 else 3
  }

  const VotingPowerTable: map<Rarity, nat> := map[0 := 10, 1 := 40, 2 := 100, 3 := 200]
  const StakingBoostTable: map<Rarity, nat> := map[0 := 5, 1 := 10, 2 := 15, 3 := 20]
  const FeeDiscountTable: map<Rarity, nat> := map[0 := 0, 1 := 3, 2 := 5, 3 := 10]

  /** The numeric part of a reward: a function of the tier alone. */
  datatype Reward = Reward(rarity: Rarity, votingPower: nat, stakingBoost: nat, feeDiscount: nat)

  function RewardFor(tier: int): (r: Reward)
    ensures r.rarity == RarityOf(tier)
  {
    var rarity := RarityOf(tier);
    Reward(rarity, VotingPowerTable[rarity], StakingBoostTable[rarity], FeeDiscountTable[rarity])
  }

  /** The whole schedule: {10,40,100,200}, {5,10,15,20} and {0,3,5,10}. */
  lemma RewardSchedule()
    ensures RewardFor(0) == Reward(0, 10, 5, 0)
    ensures RewardFor(1) == Reward(1, 40, 10, 3)
    ensures RewardFor(2) == Reward(2, 100, 15, 5)
    ensures RewardFor(3) == Reward(3, 200, 20, 10)
  {
  }

  /** Every reward grows strictly with the rarity. */
  lemma RewardsStrictlyIncrease(lower: int, higher: int)
    requires 0 <= lower < higher <= 3
    ensures RewardFor(lower).votingPower < RewardFor(higher).votingPower
    ensures RewardFor(lower).stakingBoost < RewardFor(higher).stakingBoost
    ensures RewardFor(lower).feeDiscount < RewardFor(higher).feeDiscount
  {
    RewardSchedule();
  }

  /** Above tier 3 nothing grows any more, and a negative tier earns the top rewards. */
  lemma RewardsClamp(tier: int)
    requires tier < 0 || tier > 3
    ensures RewardFor(tier) == RewardFor(3)
  {
  }

  /** `{...}.get(activity, "custom_badge")` over the four known activities. */
  function Perk(activity: string, reward: Reward): string {
    if activity == "complete_course" then "voting_power_" + Decimal(reward.votingPower)
    else if activity == "trading_volume" then "fee_discount_" + Decimal(reward.feeDiscount) + "%"
    else if activity == "subscribe" then "staking_boost_" + Decimal(reward.stakingBoost) + "%"
    else if activity == "referral" then "referral_badge"
    else "custom_badge"
  }

  const KnownActivities: set<string> := {"complete_course", "trading_volume", "subscribe", "referral"}

  lemma PerkByActivity(activity: string, reward: Reward)
    ensures activity == "complete_course" ==> Perk(activity, reward) == "voting_power_" + Decimal(reward.votingPower)
    ensures activity == "trading_volume" ==> Perk(activity, reward) == "fee_discount_" + Decimal(reward.feeDiscount) + "%"
    ensures activity == "subscribe" ==> Perk(activity, reward) == "staking_boost_" + Decimal(reward.stakingBoost) + "%"
    ensures activity == "referral" ==> Perk(activity, reward) == "referral_badge"
    ensures activity !in KnownActivities ==> Perk(activity, reward) == "custom_badge"
  {
  }

  /** The fallback perk is given exactly to the activities outside the table. */
  lemma CustomBadgeExactlyForUnknown(activity: string, reward: Reward)
    ensures Perk(activity, reward) == "custom_badge" <==> activity !in KnownActivities
  {
    var p := Perk(activity, reward);
    if activity in KnownActivities {
      assert p[0] != 'c';
    }
  }

  /** A numeric perk spells its reward in decimal, and it reads back to that reward. */
  lemma PerkSpellsReward(reward: Reward)
    ensures var p := Perk("complete_course", reward);
      p[..13] == "voting_power_" && ParseNat(p[13..]) == Some((reward.votingPower, ""))
    ensures var p := Perk("trading_volume", reward);
      p[..13] == "fee_discount_" && ParseNat(p[13..]) == Some((reward.feeDiscount, "%"))
    ensures var p := Perk("subscribe", reward);
      p[..14] == "staking_boost_" && ParseNat(p[14..]) == Some((reward.stakingBoost, "%"))
  {
    assert Perk("complete_course", reward) == "voting_power_" + Decimal(reward.votingPower) + "";
    SpelledAmount("voting_power_", reward.votingPower, "");
    SpelledAmount("fee_discount_", reward.feeDiscount, "%");
    SpelledAmount("staking_boost_", reward.stakingBoost, "%");
  }

  /** A head, an amount in decimal and a suffix: the amount reads back after the head. */
  lemma SpelledAmount(head: string, amount: nat, suffix: string)
    requires suffix == [] || !IsDigit(suffix[0])
    ensures var p := head + Decimal(amount) + suffix;
      p[..|head|] == head && ParseNat(p[|head|..]) == Some((amount, suffix))
  {
    var p := head + Decimal(amount) + suffix;
    assert p[|head|..] == Decimal(amount) + suffix;
    ParseNatDecimal(amount, suffix);
  }
}
