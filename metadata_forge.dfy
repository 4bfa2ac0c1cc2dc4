/**
 * `NFTGenerator.generate_metadata`: the reward NFT's metadata for one activity
 * event, anchored to content-addressed storage. The text model and the IPFS
 * `add` are collaborators passed in as functions: `generate` maps a prompt to
 * the decoded model output, `put` maps a document to the content id IPFS
 * returns for it.
 */
module MetadataForge {
  import opened Wrappers
  import opened Text
  import opened Json
  import opened TierCatalog

  /** `metadata_dict`: the seven fields that are stored. */
  datatype Metadata = Metadata(
    name: string,
    description: string,
    rarity: Rarity,
    perks: string,
    votingPower: nat,
    stakingBoost: nat,
    feeDiscount: nat)

  /** `{**metadata_dict, "ipfs_cid": cid}`: what `generate_metadata` returns. */
  datatype Nft = Nft(metadata: Metadata, ipfsCid: string)

  /** The dict's pairs in insertion order. */
  function Fields(m: Metadata): seq<Member> {
    [("name", Str(m.name)),
     ("description", Str(m.description)),
     ("rarity", Num(m.rarity)),
     ("perks", Str(m.perks)),
     ("voting_power", Num(m.votingPower)),
     ("staking_boost", Num(m.stakingBoost)),
     ("fee_discount", Num(m.feeDiscount))]
  }

  function NftFields(n: Nft): seq<Member> {
    Fields(n.metadata) + [("ipfs_cid", Str(n.ipfsCid))]
  }

  /** `json.dumps(metadata_dict)`: the document handed to storage. */
  function Document(m: Metadata): string { Dumps(Fields(m)) }

  /** `json.dumps(metadata)` of the returned dict, as `log_activity` serialises it. */
  function Serialize(n: Nft): string { Dumps(NftFields(n)) }

  /** The prompt given to the text model. */
  function Prompt(activity: string, tier: int, userId: string): string {
    "Create unique NFT metadata for " + activity + " for user " + userId + " in tier " + IntToString(tier)
  }

  /** `f"{activity.replace('_', ' ').title()} NFT"`. */
  function DisplayName(activity: string): string {
    Title(ReplaceChar(activity, '_', ' ')) + " NFT"
  }

  /**
   * The name keeps the activity's letters and their count, turns every `_` into a
   * space, capitalises exactly the first letter of each word and ends in " NFT".
   */
  lemma DisplayNameShape(activity: string)
    ensures var name := DisplayName(activity);
      && |name| == |activity| + 4 && name[|activity|..] == " NFT"
      && (forall i :: 0 <= i < |activity| && activity[i] == '_' ==> name[i] == ' ')
      && (forall i :: 0 <= i < |activity| && !IsCased(activity[i]) && activity[i] != '_' ==> name[i] == activity[i])
      && (forall i :: 0 <= i < |activity| && IsCased(activity[i]) ==>
            IsCased(name[i]) && Lower(name[i]) == Lower(activity[i])
            && (IsUpper(name[i]) <==> i == 0 || !IsCased(activity[i - 1])))
  {
    var spaced := ReplaceChar(activity, '_', ' ');
    var t := Title(spaced);
    var name := t + " NFT";
    forall i | 0 <= i < |activity|
      ensures name[i] == t[i] && IsCased(spaced[i]) == IsCased(activity[i])
    {
    }
    forall i | 0 <= i < |activity| && IsCased(activity[i])
      ensures IsCased(name[i]) && Lower(name[i]) == Lower(activity[i])
        && (IsUpper(name[i]) <==> i == 0 || !IsCased(activity[i - 1]))
    {
      assert IsCased(spaced[i]) && name[i] == t[i];
      if i > 0 {
        assert IsCased(spaced[i - 1]) == IsCased(activity[i - 1]);
      }
    }
    assert name[|activity|..] == " NFT";
  }

  function GenerateMetadata(generate: string -> string, put: string -> string,
                            activity: string, tier: int, userId: string): Nft
  {
    var description := generate(Prompt(activity, tier, userId));
    var reward := RewardFor(tier);
    var metadata := Metadata(
      DisplayName(activity), description, reward.rarity, Perk(activity, reward),
      reward.votingPower, reward.stakingBoost, reward.feeDiscount);
    Nft(metadata, put(Document(metadata)))
  }

  // ---------------------------------------------------------------------------
  // Properties
  // ---------------------------------------------------------------------------

  /** The rewards come from the catalogue for the tier; the perk from the activity. */
  lemma ForgedRewards(generate: string -> string, put: string -> string,
                      activity: string, tier: int, userId: string)
    ensures var m := GenerateMetadata(generate, put, activity, tier, userId).metadata;
      && m.rarity == RarityOf(tier)
      && m.votingPower == VotingPowerTable[m.rarity]
      && m.stakingBoost == StakingBoostTable[m.rarity]
      && m.feeDiscount == FeeDiscountTable[m.rarity]
      && m.perks == Perk(activity, RewardFor(tier))
      && m.name == DisplayName(activity)
      && m.description == generate(Prompt(activity, tier, userId))
  {
  }

  /** The numeric rewards depend on the tier only, never on the activity or the user. */
  lemma RewardsIgnoreActivity(generate: string -> string, put: string -> string,
                              activity1: string, activity2: string, tier: int,
                              user1: string, user2: string)
    ensures var m1 := GenerateMetadata(generate, put, activity1, tier, user1).metadata;
      var m2 := GenerateMetadata(generate, put, activity2, tier, user2).metadata;
      m1.rarity == m2.rarity && m1.votingPower == m2.votingPower
      && m1.stakingBoost == m2.stakingBoost && m1.feeDiscount == m2.feeDiscount
  {
  }

  /** The stored document decodes to exactly the seven fields, and the id is its address. */
  lemma DocumentHoldsSevenFields(generate: string -> string, put: string -> string,
                                 activity: string, tier: int, userId: string)
    ensures var n := GenerateMetadata(generate, put, activity, tier, userId);
      && n.ipfsCid == put(Document(n.metadata))
      && ParseObject(Document(n.metadata)) == Some(Fields(n.metadata))
      && |Fields(n.metadata)| == 7
  {
    DumpsRoundTrip(Fields(GenerateMetadata(generate, put, activity, tier, userId).metadata));
  }

  /** The returned dict is the stored one extended by `ipfs_cid`, and serialises losslessly. */
  lemma SerializeRoundTrip(n: Nft)
    ensures ParseObject(Serialize(n)) == Some(Fields(n.metadata) + [("ipfs_cid", Str(n.ipfsCid))])
    ensures AllPrintableAscii(Serialize(n))
  {
    DumpsRoundTrip(NftFields(n));
    DumpsPrintableAscii(NftFields(n));
  }

  lemma {:induction false} FieldsInjective(m1: Metadata, m2: Metadata)
    ensures Fields(m1) == Fields(m2) ==> m1 == m2
  {
    if Fields(m1) == Fields(m2) {
      assert Fields(m1)[0] == Fields(m2)[0] && Fields(m1)[1] == Fields(m2)[1];
      assert Fields(m1)[2] == Fields(m2)[2] && Fields(m1)[3] == Fields(m2)[3];
      assert Fields(m1)[4] == Fields(m2)[4] && Fields(m1)[5] == Fields(m2)[5];
      assert Fields(m1)[6] == Fields(m2)[6];
    }
  }

  /** Different metadata never produce the same stored document. */
  lemma DocumentInjective(m1: Metadata, m2: Metadata)
    ensures Document(m1) == Document(m2) <==> m1 == m2
  {
    DumpsInjective(Fields(m1), Fields(m2));
    FieldsInjective(m1, m2);
  }

  /** Content addressing: forging the same metadata twice yields the same id, whatever `put` is. */
  lemma SameMetadataSameCid(generate: string -> string, put: string -> string,
                            activity1: string, tier1: int, user1: string,
                            activity2: string, tier2: int, user2: string)
    ensures var n1 := GenerateMetadata(generate, put, activity1, tier1, user1);
      var n2 := GenerateMetadata(generate, put, activity2, tier2, user2);
      n1.metadata == n2.metadata ==> n1.ipfsCid == n2.ipfsCid
  {
  }

  /**
   * When `put` gives distinct documents distinct ids, an id identifies its metadata:
   * two forged NFTs share an id exactly when their metadata are equal.
   */
  lemma CidIdentifiesMetadata(generate: string -> string, put: string -> string,
                              activity1: string, tier1: int, user1: string,
                              activity2: string, tier2: int, user2: string)
    requires forall d1, d2 :: put(d1) == put(d2) ==> d1 == d2
    ensures var n1 := GenerateMetadata(generate, put, activity1, tier1, user1);
      var n2 := GenerateMetadata(generate, put, activity2, tier2, user2);
      n1.ipfsCid == n2.ipfsCid <==> n1.metadata == n2.metadata
  {
    var n1 := GenerateMetadata(generate, put, activity1, tier1, user1);
    var n2 := GenerateMetadata(generate, put, activity2, tier2, user2);
    DocumentInjective(n1.metadata, n2.metadata);
  }

  predicate IsLowerWord(w: string) { |w| > 0 && forall i :: 0 <= i < |w| ==> IsLower(w[i]) }

  /** A one-word activity is capitalised. */
  lemma DisplayNameOfWord(w: string)
    requires IsLowerWord(w)
    ensures DisplayName(w) == [Upper(w[0])] + w[1..] + " NFT"
  {
    var spaced := ReplaceChar(w, '_', ' ');
    var t, expected := Title(spaced), [Upper(w[0])] + w[1..];
    forall i | 0 <= i < |w| ensures spaced[i] == w[i] {
      assert IsLower(w[i]);
    }
    forall i | 0 <= i < |w| ensures t[i] == expected[i] {
      assert IsLower(w[i]);
      if i > 0 {
        assert IsLower(w[i - 1]);
      }
    }
  }

  /** A two-word snake_case activity becomes two capitalised words. */
  lemma DisplayNameOfSnakeCase(w1: string, w2: string)
    requires IsLowerWord(w1) && IsLowerWord(w2)
    ensures DisplayName(w1 + "_" + w2) == [Upper(w1[0])] + w1[1..] + " " + [Upper(w2[0])] + w2[1..] + " NFT"
  {
    var a := w1 + "_" + w2;
    var k := |w1|;
    var t := Title(ReplaceChar(a, '_', ' '));
    var u1, u2 := [Upper(w1[0])] + w1[1..], [Upper(w2[0])] + w2[1..];
    var expected := u1 + " " + u2;
    forall i | 0 <= i < |a| ensures t[i] == expected[i] {
      var spaced := ReplaceChar(a, '_', ' ');
      if i < k {
        assert a[i] == w1[i] && IsLower(w1[i]) && spaced[i] == w1[i];
        assert expected[i] == u1[i];
        if i > 0 {
          assert a[i - 1] == w1[i - 1] && IsLower(w1[i - 1]) && spaced[i - 1] == w1[i - 1];
        }
      } else if i == k {
        assert a[i] == '_' && spaced[i] == ' ';
      } else {
        var j := i - k - 1;
        assert a[i] == w2[j] && IsLower(w2[j]) && spaced[i] == w2[j];
        assert expected[i] == u2[j];
        if j > 0 {
          assert a[i - 1] == w2[j - 1] && IsLower(w2[j - 1]) && spaced[i - 1] == w2[j - 1];
        } else {
          assert a[i - 1] == '_' && spaced[i - 1] == ' ';
        }
      }
    }
    assert t == expected;
    assert [Upper(w1[0])] + w1[1..] + " " + [Upper(w2[0])] + w2[1..] == expected;
  }

  // The names of the activities the activity loop reports, and of the subscription reward.

  lemma TradingVolumeName(activity: string)
    requires activity == "trading_volume"
    ensures DisplayName(activity) == "Trading Volume NFT"
  {
    assert activity == "trading" + "_" + "volume";
    SnakeCaseName("trading", "volume", "Trading Volume NFT");
  }

  lemma CompleteCourseName(activity: string)
    requires activity == "complete_course"
    ensures DisplayName(activity) == "Complete Course NFT"
  {
    assert activity == "complete" + "_" + "course";
    SnakeCaseName("complete", "course", "Complete Course NFT");
  }

  /** `DisplayNameOfSnakeCase` with the expected name given. */
  lemma SnakeCaseName(w1: string, w2: string, name: string)
    requires IsLowerWord(w1) && IsLowerWord(w2)
    requires name == [Upper(w1[0])] + w1[1..] + " " + [Upper(w2[0])] + w2[1..] + " NFT"
    ensures DisplayName(w1 + "_" + w2) == name
  {
    DisplayNameOfSnakeCase(w1, w2);
  }

  lemma ReferralName(activity: string)
    requires activity == "referral"
    ensures DisplayName(activity) == "Referral NFT"
  {
    assert Upper(activity[0]) == 'R' && activity[1..] == "eferral";
    WordName(activity, "Referral NFT");
  }

  lemma SubscribeName(activity: string)
    requires activity == "subscribe"
    ensures DisplayName(activity) == "Subscribe NFT"
  {
    assert Upper(activity[0]) == 'S' && activity[1..] == "ubscribe";
    WordName(activity, "Subscribe NFT");
  }

  /** `DisplayNameOfWord` with the expected name given. */
  lemma WordName(w: string, name: string)
    requires IsLowerWord(w)
    requires name == [Upper(w[0])] + w[1..] + " NFT"
    ensures DisplayName(w) == name
  {
    DisplayNameOfWord(w);
  }
}
