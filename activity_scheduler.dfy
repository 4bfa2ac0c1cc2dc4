/**
 * One pass of `trading_loop` and the `log_activity` calls it makes: read the
 * wallet's subscription, skip the pass when a paid subscription has expired,
 * and otherwise report the three fixed activities to the chain in order, each
 * with metadata forged at tier 1 and encrypted.
 *
 * The chain is seen through the calls the bot issues, kept in order in a log.
 * The collaborators (text model, IPFS `add`, Fernet encryption of the UTF-8
 * text, and whether a chain call returns or raises: `succeeds`) are passed in as functions.
 */
module ActivityScheduler {
  import opened Wrappers
  import opened MetadataForge

  type Byte = b: int | 0 <= b < 256
  type Bytes = seq<Byte>

  datatype Arg = StrArg(s: string) | IntArg(i: int) | BytesArg(b: Bytes)

  /** `call_function(module, function, args[, {"signer": account}])`. */
  datatype ChainCall = ChainCall(moduleName: string, functionName: string, args: seq<Arg>, signer: Option<string>)

  /** The `(tier, expiry, mind_cost)` triple `get_subscription` returns. */
  datatype Subscription = Subscription(tier: int, expiry: int, cost: int)

  datatype Collaborators = Collaborators(
    generate: string -> string,
    put: string -> string,
    encrypt: string -> Bytes,
    succeeds: ChainCall -> bool)

  /** The activities dict, in its insertion order. */
  const Activities: seq<(string, int)> :=
    [("trading_volume", 5_000_000_000_000_000_000), ("complete_course", 1), ("referral", 1)]

  /** The tier `log_activity` forges every reward at. */
  const RewardTier: int := 1

  /** The pass is skipped exactly when the expiry has passed and the tier is a paid one. */
  predicate SkipsCycle(sub: Subscription, now: real) {
    (sub.expiry as real) < now && sub.tier > 0
  }

  function SubscriptionQuery(wallet: string): ChainCall {
    ChainCall("LiquiMind::Subscription", "get_subscription", [StrArg(wallet)], None)
  }

  /** `encrypt_data(json.dumps(metadata))` for the metadata forged for `activity`. */
  function Payload(env: Collaborators, wallet: string, activity: string): Bytes {
    env.encrypt(Serialize(GenerateMetadata(env.generate, env.put, activity, RewardTier, wallet)))
  }

  /** The chain call `log_activity(wallet, activity, count)` makes. */
  function TrackActivity(env: Collaborators, wallet: string, activity: string, count: int): ChainCall {
    ChainCall("LiquiMind::RewardNFT", "track_activity",
              [StrArg(wallet), StrArg(activity), IntArg(count), BytesArg(Payload(env, wallet, activity))],
              Some(wallet))
  }

  /** The `track_activity` calls of a pass over `acts`, one per activity, in order. */
  function TrackCalls(env: Collaborators, wallet: string, acts: seq<(string, int)>): seq<ChainCall> {
    seq(|acts|, i requires 0 <= i < |acts| => TrackActivity(env, wallet, acts[i].0, acts[i].1))
  }

  /** How a pass ends: skipped at the gate, done, or left by the exception a call raised. */
  datatype CycleOutcome = Skipped | Completed | Raised(call: ChainCall)

  /** The calls issued when `cs` are made in turn and the first one that raises ends the pass. */
  function Attempted<T>(cs: seq<T>, succeeds: T -> bool): seq<T> {
    if cs == [] then []
    else [cs[0]] + (if succeeds(cs[0]) then Attempted(cs[1..], succeeds) else [])
  }

  /** The first call of `cs` that raises, if any. */
  function FirstFailure<T>(cs: seq<T>, succeeds: T -> bool): Option<T> {
    if cs == [] then None
    else if succeeds(cs[0]) then FirstFailure(cs[1..], succeeds)
    else Some(cs[0])
  }

  function Ending(failure: Option<ChainCall>): CycleOutcome {
    if failure.None? then Completed else Raised(failure.value)
  }

  /** Making the `i`-th call of what is left: it is issued, and the rest follow only if it returns. */
  lemma AttemptStep<T>(cs: seq<T>, i: nat, succeeds: T -> bool)
    requires i < |cs|
    ensures Attempted(cs[i..], succeeds)
      == [cs[i]] + (if succeeds(cs[i]) then Attempted(cs[i + 1..], succeeds) else [])
    ensures FirstFailure(cs[i..], succeeds)
      == if succeeds(cs[i]) then FirstFailure(cs[i + 1..], succeeds) else Some(cs[i])
  {
    assert cs[i..][1..] == cs[i + 1..];
  }

  /** When the first `i` calls return, all of them are issued and the pass goes on with the rest. */
  lemma {:induction false} AttemptsUpTo<T>(cs: seq<T>, i: nat, succeeds: T -> bool)
    requires i <= |cs|
    requires forall j :: 0 <= j < i ==> succeeds(cs[j])
    ensures Attempted(cs, succeeds) == cs[..i] + Attempted(cs[i..], succeeds)
    ensures FirstFailure(cs, succeeds) == FirstFailure(cs[i..], succeeds)
  {
    if i == 0 {
      assert cs[i..] == cs && cs[..i] == [];
    } else {
      AttemptsUpTo(cs, i - 1, succeeds);
      var front, c, back := cs[..i - 1], cs[i - 1], Attempted(cs[i..], succeeds);
      assert Attempted(cs[i - 1..], succeeds) == [c] + back
        && FirstFailure(cs[i - 1..], succeeds) == FirstFailure(cs[i..], succeeds) by {
        AttemptStep(cs, i - 1, succeeds);
        assert succeeds(c);
      }
      assert front + ([c] + back) == cs[..i] + back by {
        AppendAssoc(front, [c], back);
        assert front + [c] == cs[..i];
      }
    }
  }

  /** One more call of a pass: issued, then either the pass goes on after it or it is the failure. */
  lemma AttemptNext<T>(cs: seq<T>, done: seq<T>, i: nat, succeeds: T -> bool)
    requires i < |cs|
    requires Attempted(cs, succeeds) == done + Attempted(cs[i..], succeeds)
    requires FirstFailure(cs, succeeds) == FirstFailure(cs[i..], succeeds)
    ensures succeeds(cs[i]) ==>
      Attempted(cs, succeeds) == (done + [cs[i]]) + Attempted(cs[i + 1..], succeeds)
      && FirstFailure(cs, succeeds) == FirstFailure(cs[i + 1..], succeeds)
    ensures !succeeds(cs[i]) ==>
      Attempted(cs, succeeds) == done + [cs[i]] && FirstFailure(cs, succeeds) == Some(cs[i])
  {
    AttemptStep(cs, i, succeeds);
    if succeeds(cs[i]) {
      AppendAssoc(done, [cs[i]], Attempted(cs[i + 1..], succeeds));
    } else {
      assert [cs[i]] + [] == [cs[i]];
    }
  }

  lemma AppendAssoc<T>(a: seq<T>, b: seq<T>, c: seq<T>)
    ensures (a + b) + c == a + (b + c)
  {
  }

  /** Every call a pass issues; `reply` is None when reading the subscription raised. */
  function CycleCalls(env: Collaborators, wallet: string, acts: seq<(string, int)>, reply: Option<Subscription>, now: real): seq<ChainCall> {
    [SubscriptionQuery(wallet)]
      + (if reply.None? || SkipsCycle(reply.value, now) then []
         else Attempted(TrackCalls(env, wallet, acts), env.succeeds))
  }

  function CycleResult(env: Collaborators, wallet: string, acts: seq<(string, int)>, reply: Option<Subscription>, now: real): CycleOutcome {
    if reply.None? then Raised(SubscriptionQuery(wallet))
    else if SkipsCycle(reply.value, now) then Skipped
    else Ending(FirstFailure(TrackCalls(env, wallet, acts), env.succeeds))
  }

  /** The bot's signing account and the chain calls it has issued. */
  class RewardBot {
    const wallet: string
    /** The activities dict of `trading_loop`. */
    const activities: seq<(string, int)>
    var calls: seq<ChainCall>

    constructor (wallet: string)
      ensures this.wallet == wallet && activities == Activities && calls == []
    {
      this.wallet := wallet;
      activities := Activities;
      calls := [];
    }

    /** `log_activity`: one `track_activity` call; `raised` when the chain call raised. */
    method LogActivity(activity: string, count: int, env: Collaborators) returns (raised: bool)
      modifies this
      ensures calls == old(calls) + [TrackActivity(env, wallet, activity, count)]
      ensures raised == !env.succeeds(TrackActivity(env, wallet, activity, count))
    {
      var call := TrackActivity(env, wallet, activity, count);
      calls := calls + [call];
      raised := !env.succeeds(call);
    }

    /** One pass of the `while True` body of `trading_loop` (its sleep aside). */
    method Cycle(reply: Option<Subscription>, now: real, env: Collaborators) returns (outcome: CycleOutcome)
      modifies this
      ensures calls == old(calls) + CycleCalls(env, wallet, activities, reply, now)
      ensures outcome == CycleResult(env, wallet, activities, reply, now)
    {
      var query := SubscriptionQuery(wallet);
      calls := calls + [query];
      if reply.None? {
        return Raised(query);
      }
      var sub := reply.value;
      if SkipsCycle(sub, now) {
        return Skipped;
      }
      ghost var before := calls;
      outcome := ReportActivities(env);
      AppendAssoc(old(calls), [query], calls[|before|..]);
    }

    /** The `for activity, count in activities.items()` loop: one `log_activity` each, until one raises. */
    method ReportActivities(env: Collaborators) returns (outcome: CycleOutcome)
      modifies this
      ensures calls == old(calls) + Attempted(TrackCalls(env, wallet, activities), env.succeeds)
      ensures outcome == Ending(FirstFailure(TrackCalls(env, wallet, activities), env.succeeds))
    {
      var planned := TrackCalls(env, wallet, activities);
      ghost var done := [];
      outcome := Completed;
      var i := 0;
      while i < |activities| && outcome == Completed
        invariant 0 <= i <= |activities|
        invariant outcome.Completed? || outcome.Raised?
        invariant calls == old(calls) + done
        invariant outcome.Completed? ==>
          Attempted(planned, env.succeeds) == done + Attempted(planned[i..], env.succeeds)
          && FirstFailure(planned, env.succeeds) == FirstFailure(planned[i..], env.succeeds)
        invariant outcome.Raised? ==>
          Attempted(planned, env.succeeds) == done && FirstFailure(planned, env.succeeds) == Some(outcome.call)
      {
        AttemptNext(planned, done, i, env.succeeds);
        var raised := LogActivity(activities[i].0, activities[i].1, env);
        var call := planned[i];
        AppendAssoc(old(calls), done, [call]);
        if raised {
          outcome := Raised(call);
        }
        done := done + [call];
        i := i + 1;
      }
      if outcome.Completed? {
        assert planned[i..] == [];
        assert done + [] == done;
      }
      assert Attempted(planned, env.succeeds) == done;
    }
  }
}
