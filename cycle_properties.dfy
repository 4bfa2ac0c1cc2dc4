/**
 * What one pass of `trading_loop` does, stated over the specification functions
 * `CycleCalls` and `CycleResult` that `RewardBot.Cycle` is proved against.
 */
module CycleProperties {
  import opened Wrappers
  import opened Json
  import opened MetadataForge
  import opened ActivityScheduler

  // ---------------------------------------------------------------------------
  // Making calls in turn until one raises
  // ---------------------------------------------------------------------------

  /** When every call returns, all of them are issued and the pass completes. */
  lemma AllReturn<T>(cs: seq<T>, succeeds: T -> bool)
    requires forall j :: 0 <= j < |cs| ==> succeeds(cs[j])
    ensures Attempted(cs, succeeds) == cs
    ensures FirstFailure(cs, succeeds) == None
  {
    AttemptsUpTo(cs, |cs|, succeeds);
    assert cs[..|cs|] == cs && cs[|cs|..] == [];
  }

  /** When call `k` is the first to raise, calls `0..k` are issued, and nothing after it. */
  lemma StopsAtFirstFailure<T>(cs: seq<T>, k: nat, succeeds: T -> bool)
    requires k < |cs|
    requires forall j :: 0 <= j < k ==> succeeds(cs[j])
    requires !succeeds(cs[k])
    ensures Attempted(cs, succeeds) == cs[..k + 1]
    ensures FirstFailure(cs, succeeds) == Some(cs[k])
  {
    AttemptsUpTo(cs, k, succeeds);
    AttemptStep(cs, k, succeeds);
    assert cs[..k] + [cs[k]] == cs[..k + 1];
  }

  /** A failure is reported exactly when some call raises, and it is the first such call. */
  lemma {:induction false} FirstFailureIsFirst<T>(cs: seq<T>, succeeds: T -> bool)
    ensures FirstFailure(cs, succeeds).None? <==> forall j :: 0 <= j < |cs| ==> succeeds(cs[j])
    ensures FirstFailure(cs, succeeds).Some? ==>
      exists k :: 0 <= k < |cs| && cs[k] == FirstFailure(cs, succeeds).value && !succeeds(cs[k])
        && forall j :: 0 <= j < k ==> succeeds(cs[j])
  {
    if cs != [] {
      FirstFailureIsFirst(cs[1..], succeeds);
      if succeeds(cs[0]) {
        forall j | 0 <= j < |cs| - 1 ensures cs[1..][j] == cs[j + 1] {}
        if FirstFailure(cs[1..], succeeds).Some? {
          var k :| 0 <= k < |cs[1..]| && cs[1..][k] == FirstFailure(cs[1..], succeeds).value
            && !succeeds(cs[1..][k]) && forall j :: 0 <= j < k ==> succeeds(cs[1..][j]);
          assert cs[k + 1] == FirstFailure(cs, succeeds).value && !succeeds(cs[k + 1]);
          assert forall j :: 0 <= j < k + 1 ==> succeeds(cs[j]) by {
            forall j | 0 <= j < k + 1 ensures succeeds(cs[j]) {
              if j > 0 { assert cs[j] == cs[1..][j - 1]; }
            }
          }
        } else {
          forall j | 0 <= j < |cs| ensures succeeds(cs[j]) {
            if j > 0 { assert cs[j] == cs[1..][j - 1]; }
          }
        }
      } else {
        assert !succeeds(cs[0]);
      }
    }
  }

  /**
   * What a pass issues is a prefix of its plan: all of it when no call raises,
   * otherwise everything up to and including the first call that raises.
   */
  lemma AttemptedIsPrefix<T>(cs: seq<T>, succeeds: T -> bool)
    ensures Attempted(cs, succeeds) <= cs
    ensures FirstFailure(cs, succeeds).None? ==> Attempted(cs, succeeds) == cs
    ensures FirstFailure(cs, succeeds).Some? ==>
      var a := Attempted(cs, succeeds);
      |a| > 0 && a[|a| - 1] == FirstFailure(cs, succeeds).value
        && forall j :: 0 <= j < |a| - 1 ==> succeeds(a[j])
  {
    FirstFailureIsFirst(cs, succeeds);
    if FirstFailure(cs, succeeds).None? {
      AllReturn(cs, succeeds);
    } else {
      var k :| 0 <= k < |cs| && cs[k] == FirstFailure(cs, succeeds).value && !succeeds(cs[k])
        && forall j :: 0 <= j < k ==> succeeds(cs[j]);
      StopsAtFirstFailure(cs, k, succeeds);
    }
  }

  // ---------------------------------------------------------------------------
  // One pass
  // ---------------------------------------------------------------------------

  /** Free and negative tiers always go on; a paid tier goes on while its expiry has not passed. */
  lemma GateTable(sub: Subscription, now: real)
    ensures sub.tier <= 0 ==> !SkipsCycle(sub, now)
    ensures sub.tier > 0 ==> (SkipsCycle(sub, now) <==> (sub.expiry as real) < now)
  {
  }

  /** A pass whose subscription read raised, or that the gate skips, reports nothing. */
  lemma GatedPassOnlyQueries(env: Collaborators, wallet: string, acts: seq<(string, int)>,
                             reply: Option<Subscription>, now: real)
    requires reply.None? || SkipsCycle(reply.value, now)
    ensures CycleCalls(env, wallet, acts, reply, now) == [SubscriptionQuery(wallet)]
    ensures reply.None? ==> CycleResult(env, wallet, acts, reply, now) == Raised(SubscriptionQuery(wallet))
    ensures reply.Some? ==> CycleResult(env, wallet, acts, reply, now) == Skipped
  {
    assert [SubscriptionQuery(wallet)] + [] == [SubscriptionQuery(wallet)];
  }

  /** A pass that goes on and meets no exception reports every activity, in order, after the query. */
  lemma FullPass(env: Collaborators, wallet: string, acts: seq<(string, int)>, sub: Subscription, now: real)
    requires !SkipsCycle(sub, now)
    requires forall j :: 0 <= j < |acts| ==> env.succeeds(TrackCalls(env, wallet, acts)[j])
    ensures CycleCalls(env, wallet, acts, Some(sub), now) == [SubscriptionQuery(wallet)] + TrackCalls(env, wallet, acts)
    ensures CycleResult(env, wallet, acts, Some(sub), now) == Completed
  {
    AllReturn(TrackCalls(env, wallet, acts), env.succeeds);
  }

  /** The first report that raises ends the pass: the later activities are not reported. */
  lemma PassStopsAtFailure(env: Collaborators, wallet: string, acts: seq<(string, int)>,
                           sub: Subscription, now: real, k: nat)
    requires !SkipsCycle(sub, now)
    requires k < |acts|
    requires forall j :: 0 <= j < k ==> env.succeeds(TrackCalls(env, wallet, acts)[j])
    requires !env.succeeds(TrackCalls(env, wallet, acts)[k])
    ensures CycleCalls(env, wallet, acts, Some(sub), now) == [SubscriptionQuery(wallet)] + TrackCalls(env, wallet, acts)[..k + 1]
    ensures CycleResult(env, wallet, acts, Some(sub), now) == Raised(TrackCalls(env, wallet, acts)[k])
  {
    StopsAtFirstFailure(TrackCalls(env, wallet, acts), k, env.succeeds);
  }

  /** Which subscription let the pass through has no bearing on what it reports. */
  lemma TierDoesNotShapeReports(env: Collaborators, wallet: string, acts: seq<(string, int)>,
                                sub1: Subscription, sub2: Subscription, now: real)
    requires !SkipsCycle(sub1, now) && !SkipsCycle(sub2, now)
    ensures CycleCalls(env, wallet, acts, Some(sub1), now) == CycleCalls(env, wallet, acts, Some(sub2), now)
    ensures CycleResult(env, wallet, acts, Some(sub1), now) == CycleResult(env, wallet, acts, Some(sub2), now)
  {
  }

  /** Each report is a `track_activity` call signed by the wallet, carrying the activity and its count. */
  lemma ReportShape(env: Collaborators, wallet: string, acts: seq<(string, int)>, j: nat)
    requires j < |acts|
    ensures var c := TrackCalls(env, wallet, acts)[j];
      && c.moduleName == "LiquiMind::RewardNFT" && c.functionName == "track_activity"
      && c.signer == Some(wallet) && |c.args| == 4
      && c.args[..3] == [StrArg(wallet), StrArg(acts[j].0), IntArg(acts[j].1)]
      && c.args[3] == BytesArg(Payload(env, wallet, acts[j].0))
  {
  }

  /**
   * Over the bot's table a full pass reports, in this order, `trading_volume` with
   * 5 * 10^18, `complete_course` with 1 and `referral` with 1.
   */
  lemma BotTableReports(env: Collaborators, wallet: string, acts: seq<(string, int)>)
    requires acts == Activities
    ensures var cs := TrackCalls(env, wallet, acts);
      && |cs| == 3
      && cs[0].args[1..3] == [StrArg("trading_volume"), IntArg(5_000_000_000_000_000_000)]
      && cs[1].args[1..3] == [StrArg("complete_course"), IntArg(1)]
      && cs[2].args[1..3] == [StrArg("referral"), IntArg(1)]
  {
    var cs := TrackCalls(env, wallet, acts);
    forall j | 0 <= j < 3 ensures cs[j].args[1..3] == [StrArg(acts[j].0), IntArg(acts[j].1)] {
      ReportShape(env, wallet, acts, j);
    }
  }

  /**
   * The payload is the encrypted JSON text of the reward forged at tier 1: whatever
   * decrypts the encryption reads back the eight fields, and the rewards are the
   * tier-1 ones (rarity 1, voting power 40, staking boost 10, fee discount 3).
   */
  lemma PayloadIsTierOneReward(env: Collaborators, wallet: string, activity: string, decrypt: Bytes -> string)
    requires forall s :: decrypt(env.encrypt(s)) == s
    ensures var n := GenerateMetadata(env.generate, env.put, activity, RewardTier, wallet);
      && ParseObject(decrypt(Payload(env, wallet, activity))) == Some(NftFields(n))
      && n.metadata.rarity == 1 && n.metadata.votingPower == 40
      && n.metadata.stakingBoost == 10 && n.metadata.feeDiscount == 3
  {
    var n := GenerateMetadata(env.generate, env.put, activity, RewardTier, wallet);
    SerializeRoundTrip(n);
    ForgedRewards(env.generate, env.put, activity, RewardTier, wallet);
  }

  /** The reward forged for the `j`-th activity of a pass. */
  function Forged(env: Collaborators, wallet: string, acts: seq<(string, int)>, j: nat): Nft
    requires j < |acts|
  {
    GenerateMetadata(env.generate, env.put, acts[j].0, RewardTier, wallet)
  }

  /**
   * A wallet on tier 1 whose expiry has not passed, and a chain that accepts every
   * call: the pass queries once and reports the three activities, each payload reading
   * back as a tier-1 reward, and the three rewards are told apart by their names.
   */
  lemma EndToEnd(env: Collaborators, wallet: string, acts: seq<(string, int)>,
                 sub: Subscription, now: real, decrypt: Bytes -> string)
    requires acts == Activities
    requires sub.tier == 1 && (sub.expiry as real) >= now
    requires forall c :: env.succeeds(c)
    requires forall s :: decrypt(env.encrypt(s)) == s
    ensures var calls := CycleCalls(env, wallet, acts, Some(sub), now);
      && |calls| == 4 && calls[0] == SubscriptionQuery(wallet)
      && calls[1..] == TrackCalls(env, wallet, acts)
    ensures CycleResult(env, wallet, acts, Some(sub), now) == Completed
    ensures forall j :: 0 <= j < 3 ==>
      var m := Forged(env, wallet, acts, j).metadata;
      && TrackCalls(env, wallet, acts)[j].args[3] == BytesArg(Payload(env, wallet, acts[j].0))
      && ParseObject(decrypt(Payload(env, wallet, acts[j].0))) == Some(NftFields(Forged(env, wallet, acts, j)))
      && m.rarity == 1 && m.votingPower == 40 && m.stakingBoost == 10 && m.feeDiscount == 3
    ensures Forged(env, wallet, acts, 0).metadata.name == "Trading Volume NFT"
    ensures Forged(env, wallet, acts, 1).metadata.name == "Complete Course NFT"
    ensures Forged(env, wallet, acts, 2).metadata.name == "Referral NFT"
  {
    var cs := TrackCalls(env, wallet, acts);
    FullPass(env, wallet, acts, sub, now);
    forall j | 0 <= j < 3
      ensures var m := Forged(env, wallet, acts, j).metadata;
        && cs[j].args[3] == BytesArg(Payload(env, wallet, acts[j].0))
        && ParseObject(decrypt(Payload(env, wallet, acts[j].0))) == Some(NftFields(Forged(env, wallet, acts, j)))
        && m.rarity == 1 && m.votingPower == 40 && m.stakingBoost == 10 && m.feeDiscount == 3
    {
      ReportShape(env, wallet, acts, j);
      PayloadIsTierOneReward(env, wallet, acts[j].0, decrypt);
    }
    ForgedName(env, wallet, acts, 0, "Trading Volume NFT");
    ForgedName(env, wallet, acts, 1, "Complete Course NFT");
    ForgedName(env, wallet, acts, 2, "Referral NFT");
  }

  lemma ForgedName(env: Collaborators, wallet: string, acts: seq<(string, int)>, j: nat, name: string)
    requires acts == Activities && j < 3
    requires j == 0 ==> name == "Trading Volume NFT"
    requires j == 1 ==> name == "Complete Course NFT"
    requires j == 2 ==> name == "Referral NFT"
    ensures Forged(env, wallet, acts, j).metadata.name == name
  {
    ForgedRewards(env.generate, env.put, acts[j].0, RewardTier, wallet);
    if j == 0 {
      TradingVolumeName(acts[j].0);
    } else if j == 1 {
      CompleteCourseName(acts[j].0);
    } else {
      ReferralName(acts[j].0);
    }
  }
}
