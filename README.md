# LiquiMind reward bot: a Dafny model

This project models the reward side of the LiquiMind bot, `backend/bot/main.py`.
Each pass of the bot's `trading_loop` does the following:
- It reads the wallet's subscription from the chain.
- It skips the pass when a paid subscription has expired.
- Otherwise it reports three fixed activities to the `LiquiMind::RewardNFT` contract, in order.

Each report goes through `log_activity`. That function forges NFT metadata at tier 1 with `NFTGenerator.generate_metadata`. It then encrypts the metadata's JSON text and submits it, signed by the bot's account. Beside the loop sits `fetch_chain_gpt_courses`, a course list cached for one hour.

The modules follow the parts of that code:

| file | module | models |
|---|---|---|
| `wrappers.dfy` | `Wrappers` | the `Option` type |
| `text.dfy` | `Text` | the string operations applied to metadata: `str(n)` in an f-string, `str.replace` of one character, `str.title()` |
| `json.dfy` | `Json` | `json.dumps` of a flat dict of strings and ints, with the default separators and `ensure_ascii` escaping, plus a reference decoder |
| `tier_catalog.dfy` | `TierCatalog` | the tier-to-rarity clamp, the three reward tables and the perk lookup of `generate_metadata` |
| `metadata_forge.dfy` | `MetadataForge` | `generate_metadata`: prompt, name, rewards, perk, the stored document and its content id |
| `activity_cache.dfy` | `ActivityCache` | `fetch_chain_gpt_courses`, as a pure step function `Lookup` and a class `CourseCache` that holds the record |
| `activity_scheduler.dfy` | `ActivityScheduler` | `log_activity` and one pass of `trading_loop`, as the class `RewardBot` whose log of chain calls grows |
| `cycle_properties.dfy` | `CycleProperties` | what one pass does: the gate, the order of the reports, the stop at the first failure, the payload |

## How the model is built

Collaborators are parameters of type function:
- `generate`: the text model, from prompt to decoded text;
- `put`: the IPFS `add`, from document to content id;
- `encrypt`: Fernet applied to the UTF-8 text;
- `succeeds`: whether a chain call returns or raises.

The chain is seen through the calls the bot makes. `RewardBot.calls` records every `call_function` in order.

An exception inside the loop is an outcome, not a crash. `Raised(call)` names the call whose exception leaves the loop.

Time is a `real` parameter:
- The cache step takes two clock readings, because the source reads `datetime.now()` once for the freshness test (line 70) and again for the record it writes (line 76).
- A pass takes one reading, for the gate at line 121.

Where the code does something a reader might not expect (the model follows the code):
- **Cache writes on failed replies.** When the course API answers with a status other than 200, the code writes a new record with an empty course list (lines 74-76). The list is then served for an hour. The record is not written only on success. The record stays as it was only when the request itself raises, or when a 200 reply has a body that is not a JSON object.
- **No failure isolation.** There is no `try` around `log_activity` (lines 124-125). A call that raises ends the pass and leaves `trading_loop`, so the later activities of that pass are not reported. `PassStopsAtFailure` shows this.
- **Tier 1 always.** `log_activity` forges every reward at tier 1 whatever the subscription tier is (line 82). So the tier only decides whether the pass runs (`TierDoesNotShapeReports`).
- **Gate for non-positive tiers.** The gate lets every pass through when `tier <= 0`, negative tiers included. For a positive tier it lets the pass through when `expiry >= now` (line 121, `GateTable`).
- **Any int is a tier.** `generate_metadata` accepts any int as a tier. Every tier other than 0, 1 and 2 gets rarity 3, negative tiers included (line 41, `RewardsClamp`).
- **No pause on a skip.** A skipped pass goes straight back to the top of the loop without the 60-second pause (line 122 `continue`). The model treats each pass on its own, so this shows only as the `Skipped` outcome.

## Model

| member | source | states |
|---|---|---|
| `Text.Decimal` | backend/bot/main.py:46-48 | `str(n)` of a non-negative int is a non-empty string of digits with no leading zero unless `n` is 0 |
| `Text.DecimalRoundTrip` | backend/bot/main.py:46-48 | reading the digits of `str(n)` as a decimal number gives back `n` |
| `Text.DecimalInjective` | backend/bot/main.py:46-48 | two numbers have the same decimal text exactly when they are equal |
| `Text.ParseNatDecimal` | backend/bot/main.py:46-48 | after `str(n)`, any text that does not start with a digit leaves the number readable, with that text left over |
| `Text.IntToString` | backend/bot/main.py:37 | definition of `str(tier)` in the prompt; specified by `Text.IntToStringInjective` |
| `Text.IntToStringInjective` | backend/bot/main.py:37 | the tier's text is never empty, starts with `-` exactly for a negative tier, and two tiers share a text only when they are equal |
| `Text.ReplaceChar` | backend/bot/main.py:52 | definition of `replace('_', ' ')`; specified by `Text.ReplaceCharByPieces`, `Text.ReplaceCharLeavesNoFrom` and `MetadataForge.DisplayNameShape` |
| `Text.ReplaceCharByPieces` | backend/bot/main.py:52 | `replace` maps the empty text to itself, replaces a lone matching character and keeps any other, and works piece by piece over a concatenation |
| `Text.ReplaceCharLeavesNoFrom` | backend/bot/main.py:52 | after replacing a character by a different one, none of it is left, so replacing again changes nothing |
| `Text.Title` | backend/bot/main.py:52 | `title()`: same length; every character keeps its letter up to case and its casedness; a cased character is upper case exactly when the character before it is not cased; uncased characters are kept |
| `Text.TitleIdempotent` | backend/bot/main.py:52 | applying `title()` twice gives the same text as once |
| `Text.TitleChar` | backend/bot/main.py:52 | the case `title()` gives one character: it keeps its letter up to case and its casedness; a letter is upper case unless it follows a cased character, lower case after one; an uncased character is kept |
| `Json.HexRoundTrip` | backend/bot/main.py:60 | the `k` hex digits of a `\uXXXX` escape read back to the code they encode |
| `Json.EscapeChar` | backend/bot/main.py:60 | definition of the `ensure_ascii` escape of one character; specified by `Json.EscapeCharRoundTrip` and `Json.EscapePrintable` |
| `Json.Dumps` | backend/bot/main.py:60 | definition of `json.dumps` of a flat dict; specified by `Json.DumpsRoundTrip`, `Json.DumpsInjective` and `Json.DumpsPrintableAscii` |
| `Json.Escape` | backend/bot/main.py:60 | definition of the `ensure_ascii` escaping of a whole string; specified by `Json.EscapePrintable` and `Json.EscapeRoundTrip` |
| `Json.ValueText` | backend/bot/main.py:60 | definition of a serialised string or int value; specified by `Json.ValueRoundTrip` |
| `Json.MemberText` | backend/bot/main.py:60 | definition of one serialised `"key": value` pair; specified by `Json.MemberRoundTrip` |
| `Json.MembersText` | backend/bot/main.py:60 | definition of the pairs separated by `, ` and closed by `}`; specified by `Json.MembersRoundTrip` |
| `Json.EscapePrintable` | backend/bot/main.py:60 | with `ensure_ascii`, the escaped text of any string is printable ASCII throughout |
| `Json.EscapeCharRoundTrip` | backend/bot/main.py:60 | every character's escape (short escapes, `\uXXXX`, surrogate pairs above the Basic Multilingual Plane) reads back to that character |
| `Json.EscapeRoundTrip` | backend/bot/main.py:60 | a string's escaped body, closed by a quote, reads back to the string, with what follows left over |
| `Json.ValueRoundTrip` | backend/bot/main.py:60 | a serialised string or int value reads back to itself |
| `Json.MemberRoundTrip` | backend/bot/main.py:60 | one `"key": value` pair reads back to the pair |
| `Json.MembersRoundTrip` | backend/bot/main.py:60 | the pairs, separated by `, ` and closed by `}`, read back to the same pairs in the same order |
| `Json.DumpsRoundTrip` | backend/bot/main.py:60 | decoding `json.dumps(d)` gives back exactly the dict's pairs in insertion order |
| `Json.DumpsInjective` | backend/bot/main.py:60 | distinct dicts never serialise to the same text |
| `Json.DumpsPrintableAscii` | backend/bot/main.py:86 | the serialised metadata handed to encryption is printable ASCII |
| `TierCatalog.RarityOf` | backend/bot/main.py:41 | tiers 0 to 3 keep their number as the rarity; every other int, negative ones included, is rarity 3 |
| `TierCatalog.RewardSchedule` | backend/bot/main.py:41-44 | the rewards of rarities 0 to 3: voting power 10/40/100/200, staking boost 5/10/15/20, fee discount 0/3/5/10 |
| `TierCatalog.RewardsStrictlyIncrease` | backend/bot/main.py:42-44 | for tiers 0 to 3, each of the three rewards grows strictly with the tier |
| `TierCatalog.RewardsClamp` | backend/bot/main.py:41 | a tier outside 0 to 3 earns exactly the rewards of tier 3 |
| `TierCatalog.PerkByActivity` | backend/bot/main.py:45-50 | the perk string of each of the four known activities, and `custom_badge` for any other |
| `TierCatalog.CustomBadgeExactlyForUnknown` | backend/bot/main.py:50 | the perk is `custom_badge` if and only if the activity is not one of the four known ones |
| `TierCatalog.PerkSpellsReward` | backend/bot/main.py:46-48 | each numeric perk is its fixed prefix followed by its reward in decimal, which reads back to that reward |
| `TierCatalog.SpelledAmount` | backend/bot/main.py:46-48 | a prefix, an amount in decimal and a non-digit suffix: the amount reads back after the prefix |
| `TierCatalog.RewardFor` | backend/bot/main.py:41-44 | definition of the three reward lookups; specified by `TierCatalog.RewardSchedule`, `TierCatalog.RewardsStrictlyIncrease` and `TierCatalog.RewardsClamp` |
| `TierCatalog.Perk` | backend/bot/main.py:45-50 | definition of the perk lookup; specified by `TierCatalog.PerkByActivity`, `TierCatalog.CustomBadgeExactlyForUnknown` and `TierCatalog.PerkSpellsReward` |
| `MetadataForge.Prompt` | backend/bot/main.py:37 | definition of the prompt f-string; specified by `Text.IntToStringInjective` for the tier it embeds |
| `MetadataForge.DisplayName` | backend/bot/main.py:52 | definition of the NFT name; specified by `MetadataForge.DisplayNameShape` and the per-activity name lemmas below |
| `MetadataForge.GenerateMetadata` | backend/bot/main.py:36-61 | definition of `generate_metadata`; specified by `MetadataForge.ForgedRewards`, `MetadataForge.DocumentHoldsSevenFields`, `MetadataForge.SerializeRoundTrip` and `MetadataForge.SameMetadataSameCid` |
| `MetadataForge.Fields` | backend/bot/main.py:51-59 | definition of `metadata_dict`, its seven pairs in insertion order; specified by `MetadataForge.FieldsInjective` |
| `MetadataForge.Document` | backend/bot/main.py:60 | definition of `json.dumps(metadata_dict)`, the document handed to storage; specified by `MetadataForge.DocumentHoldsSevenFields` and `MetadataForge.DocumentInjective` |
| `MetadataForge.NftFields` | backend/bot/main.py:61 | definition of `{**metadata_dict, "ipfs_cid": cid}`; specified by `MetadataForge.SerializeRoundTrip` |
| `MetadataForge.Serialize` | backend/bot/main.py:86 | definition of `json.dumps(metadata)` in `log_activity`; specified by `MetadataForge.SerializeRoundTrip` |
| `MetadataForge.DisplayNameShape` | backend/bot/main.py:52 | the NFT name is four characters longer than the activity and ends in ` NFT`; each `_` of the activity becomes a space, every other uncased character is kept, and each letter is kept up to case and is upper case exactly when it starts a word |
| `MetadataForge.DisplayNameOfWord` | backend/bot/main.py:52 | a lower-case word gets its first letter capitalised and ` NFT` appended |
| `MetadataForge.DisplayNameOfSnakeCase` | backend/bot/main.py:52 | `a_b`, for lower-case words, becomes `A B NFT` with each word capitalised |
| `MetadataForge.TradingVolumeName` | backend/bot/main.py:52 | `trading_volume` is named `Trading Volume NFT` |
| `MetadataForge.CompleteCourseName` | backend/bot/main.py:52 | `complete_course` is named `Complete Course NFT` |
| `MetadataForge.ReferralName` | backend/bot/main.py:52 | `referral` is named `Referral NFT` |
| `MetadataForge.SubscribeName` | backend/bot/main.py:52 | `subscribe` is named `Subscribe NFT` |
| `MetadataForge.SnakeCaseName` | backend/bot/main.py:52 | a two-word snake-case activity is named by its capitalised words and ` NFT` |
| `MetadataForge.WordName` | backend/bot/main.py:52 | a one-word activity is named by the capitalised word and ` NFT` |
| `MetadataForge.ForgedRewards` | backend/bot/main.py:36-59 | the forged metadata takes its rarity and rewards from the tables for the tier, its perk from the activity, its name from the activity and its description from the model's output for the prompt |
| `MetadataForge.RewardsIgnoreActivity` | backend/bot/main.py:41-44 | the rarity and the numeric rewards depend on the tier only, not on the activity or the user |
| `MetadataForge.DocumentHoldsSevenFields` | backend/bot/main.py:51-60 | the stored document decodes to exactly the seven fields, and the returned id is what storage gave for that document |
| `MetadataForge.SerializeRoundTrip` | backend/bot/main.py:61 | the returned dict is the seven fields followed by `ipfs_cid`; its JSON text reads back to exactly those eight pairs and is printable ASCII |
| `MetadataForge.FieldsInjective` | backend/bot/main.py:51-59 | equal field lists come only from equal metadata |
| `MetadataForge.DocumentInjective` | backend/bot/main.py:51-60 | two metadata values give the same stored document exactly when they are equal |
| `MetadataForge.SameMetadataSameCid` | backend/bot/main.py:60 | content addressing: two forgings with equal metadata get the same id, whatever storage does |
| `MetadataForge.CidIdentifiesMetadata` | backend/bot/main.py:60 | when storage gives distinct documents distinct ids, two forged NFTs have the same id exactly when their metadata are equal |
| `ActivityCache.ResponseCourses` | backend/bot/main.py:73-74 | definition of what one request yields; specified by `ActivityCache.MissRefreshes` |
| `ActivityCache.IsFresh` | backend/bot/main.py:70 | definition of the one-hour freshness test; specified by `ActivityCache.HitServesCache` and `ActivityCache.ExpiresAtTtl` |
| `ActivityCache.HitServesCache` | backend/bot/main.py:70-71 | a record younger than one hour is returned as it is, with no request and no change to the record |
| `ActivityCache.MissRefreshes` | backend/bot/main.py:67-77 | with no record, or one at least an hour old, exactly one request is made; a list read without error replaces the record wholesale, an empty list from a non-200 reply included; an error leaves the record untouched; the request raises exactly when the API cannot be reached or a 200 body is not an object; a non-200 status yields and stores the empty list; a 200 object yields its `courses` field, or the empty list when it has none |
| `ActivityCache.RefreshThenHit` | backend/bot/main.py:65-77 | within an hour of a refresh, the next call is served from the record just written, with no request |
| `ActivityCache.ExpiresAtTtl` | backend/bot/main.py:70 | a record exactly 3600 seconds old is refreshed; one a second younger is served |
| `ActivityCache.CourseCache.Empty` | backend/bot/main.py:67 | there is no record yet and no request has been made |
| `ActivityCache.CourseCache.Loaded` | backend/bot/main.py:67-69 | the record is the one left by an earlier run, and no request has been made |
| `ActivityCache.Lookup` | backend/bot/main.py:65-77 | definition of one call of `fetch_chain_gpt_courses` on values; specified by `ActivityCache.HitServesCache`, `ActivityCache.MissRefreshes`, `ActivityCache.RefreshThenHit` and `ActivityCache.ExpiresAtTtl` |
| `ActivityCache.CourseCache.GetCourses` | backend/bot/main.py:65-77 | the new record, the result and the count of requests are those of one `Lookup` step; a fresh record is returned with nothing changed |
| `ActivityScheduler.SkipsCycle` | backend/bot/main.py:121 | definition of the gate; specified by `CycleProperties.GateTable` |
| `ActivityScheduler.SubscriptionQuery` | backend/bot/main.py:116-120 | definition of the `get_subscription` call; specified by `CycleProperties.GatedPassOnlyQueries` and `CycleProperties.EndToEnd` |
| `ActivityScheduler.Payload` | backend/bot/main.py:82-86 | definition of the encrypted payload; specified by `CycleProperties.PayloadIsTierOneReward` |
| `ActivityScheduler.TrackActivity` | backend/bot/main.py:83-88 | definition of one `track_activity` call; specified by `CycleProperties.ReportShape` |
| `ActivityScheduler.Attempted` | backend/bot/main.py:124-125 | definition of the calls a pass issues; specified by `CycleProperties.AllReturn`, `CycleProperties.StopsAtFirstFailure` and `CycleProperties.AttemptedIsPrefix` |
| `ActivityScheduler.FirstFailure` | backend/bot/main.py:124-125 | definition of the call that ends a pass; specified by `CycleProperties.FirstFailureIsFirst` |
| `ActivityScheduler.CycleCalls` | backend/bot/main.py:114-125 | definition of the calls of one pass; specified by `CycleProperties.GatedPassOnlyQueries`, `CycleProperties.FullPass` and `CycleProperties.PassStopsAtFailure` |
| `ActivityScheduler.CycleResult` | backend/bot/main.py:114-125 | definition of how one pass ends; specified by `CycleProperties.GatedPassOnlyQueries`, `CycleProperties.FullPass` and `CycleProperties.PassStopsAtFailure` |
| `ActivityScheduler.TrackCalls` | backend/bot/main.py:123-125 | definition of the planned reports of a pass; specified by `CycleProperties.ReportShape` and `CycleProperties.BotTableReports` |
| `ActivityScheduler.AttemptStep` | backend/bot/main.py:124-125 | making the next call: it is issued, and the calls after it are made only if it returns |
| `ActivityScheduler.AttemptsUpTo` | backend/bot/main.py:124-125 | when the first `i` calls all return, they are all issued, and the pass continues with the rest |
| `ActivityScheduler.AttemptNext` | backend/bot/main.py:124-125 | one more call: either the pass continues after it, or it is the failure and the pass ends with it |
| `ActivityScheduler.RewardBot.constructor` | backend/bot/main.py:113 | a bot signing with the account `wallet`, with the activities table of `trading_loop` and no calls yet |
| `ActivityScheduler.RewardBot.LogActivity` | backend/bot/main.py:79-88 | exactly one `track_activity` call is added; whether it raised is the chain's answer for that call |
| `ActivityScheduler.RewardBot.ReportActivities` | backend/bot/main.py:123-125 | the calls added are the planned reports up to and including the first one that raises, and the outcome names that call, or is `Completed` when none raises |
| `ActivityScheduler.RewardBot.Cycle` | backend/bot/main.py:114-125 | one pass adds exactly the subscription query and then the reports of `CycleCalls`, and ends as `CycleResult` says |
| `CycleProperties.AllReturn` | backend/bot/main.py:124-125 | when every call returns, every call is issued and there is no failure |
| `CycleProperties.StopsAtFirstFailure` | backend/bot/main.py:124-125 | when call `k` is the first to raise, exactly calls 0 to `k` are issued, and `k` is the failure |
| `CycleProperties.FirstFailureIsFirst` | backend/bot/main.py:124-125 | there is no failure exactly when every call returns; a failure is a call that raises and every call before it returns |
| `CycleProperties.AttemptedIsPrefix` | backend/bot/main.py:124-125 | what a pass issues is a prefix of its plan: all of it with no failure, otherwise ending at the failure, with every earlier call returning |
| `CycleProperties.GateTable` | backend/bot/main.py:121-122 | a tier of 0 or below always goes on; a positive tier is skipped exactly when its expiry has passed |
| `CycleProperties.GatedPassOnlyQueries` | backend/bot/main.py:116-122 | a pass whose subscription read raised, or that is skipped, issues only the query and reports nothing |
| `CycleProperties.FullPass` | backend/bot/main.py:114-125 | a pass that goes on and meets no exception issues the query and then every report in order, and completes |
| `CycleProperties.PassStopsAtFailure` | backend/bot/main.py:124-125 | the first report that raises ends the pass: the reports after it are not made |
| `CycleProperties.TierDoesNotShapeReports` | backend/bot/main.py:82 | any two subscriptions that let the pass through lead to the same calls and the same outcome |
| `CycleProperties.ReportShape` | backend/bot/main.py:83-88 | each report calls `LiquiMind::RewardNFT::track_activity`, signed by the wallet, with the wallet, the activity, the count and the encrypted payload |
| `CycleProperties.BotTableReports` | backend/bot/main.py:123-125 | over the bot's table, the reports are `trading_volume` with 5 * 10^18, then `complete_course` with 1, then `referral` with 1 |
| `CycleProperties.PayloadIsTierOneReward` | backend/bot/main.py:82-86 | whatever inverts the encryption reads the payload back as the eight fields of the reward forged at tier 1: rarity 1, voting power 40, staking boost 10, fee discount 3 |
| `CycleProperties.ForgedName` | backend/bot/main.py:52 | the NFT names of the bot's three activities |
| `CycleProperties.EndToEnd` | backend/bot/main.py:114-125 | a tier-1 wallet whose expiry has not passed, and a chain that accepts every call: a query and three reports in order, every payload a tier-1 reward, the three NFTs named apart |

## Left out

- `AITuner` (lines 90-109) and the `asyncio.gather` of `main` (lines 128-132): model training and concurrency are outside this model.
- The sleeps (line 126) and the endless repetition of `trading_loop`: one pass is modelled, and passes follow each other in the log of calls.
- I/O as state:
  - The cache file is modelled as in-memory state.
  - `SupraClient.init` and `SupraAccount.from_mnemonic` (lines 80-81, 112-113) are not modelled.
  - The wallet address is the bot's account, fixed at construction.
- `ActivityScheduler.RewardBot.LogActivity`: always records the `track_activity` call. In the code, a step before `call_function` can raise instead: `SupraClient.init`, `SupraAccount.from_mnemonic`, the text model (whose call at line 39 passes the misspelled `num_return_tensors`), IPFS `add` or the encryption (lines 80-86). Such a pass ends with no `track_activity` call for that activity, which the model does not capture.
- `CycleProperties.TierDoesNotShapeReports`: `encrypt` is a deterministic function parameter, whereas Fernet draws a random IV and embeds the current time in each token (lines 26-28). So the "same calls" equality holds only under that abstraction. What carries over to real Fernet is that the decrypted payloads are equal (`CycleProperties.PayloadIsTierOneReward`).
- Opaque collaborators: the text model (lines 38-40), IPFS `add` (line 60), Fernet encryption (lines 26-28) and the chain's verdict on a call are function parameters. Their internals are not modelled.
- Real timestamps: clocks are `real` readings passed in. Floating-point rounding of `timestamp()` is not modelled.
- `Text.Title`: casing covers ASCII letters only. Other characters are treated as uncased, whereas Python's `str.title()` also cases non-ASCII letters.
- `Json.Dumps`: covers only what `generate_metadata` serialises: string keys, and string or non-negative int values. Negative ints, floats and nesting are not modelled.
- `ActivityCache.ResponseCourses`: takes the `courses` field to be a list. Other JSON types in that field are not modelled.
