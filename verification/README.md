# TeaElephantMemory: a verified model

A Dafny model of the parts of TeaElephantMemory where its guarantees span several functions, whole
runs or every interleaving, and proofs of those guarantees:

- **Scoring** (`Scoring.dfy`): the score of a tea, the greedy scan for the best one, its logging twin.
- **Consumption** (`Consumption.dfy`): the in-memory store with its in-place compaction, and the
  Postgres store as a set of rows. **History** (`History.dfy`): on which windows the two agree, and
  when a penalty computed from a pruned history is the penalty of the full one.
- **DayCache** (`DayCache.dfy`): the per-user cache that expires at local midnight, as an object and
  as a machine in which any number of lookups and fills interleave.
- **TeaOfTheDay**, **TeaOfTheDayRuns**: the resolver from cache probe to cache fill, and what every
  sequential run of it guarantees.
- **Subscribers** (`Subscribers.dfy`): the registry, removal in place, channels, contiguous delivery.
  The registries of `internal/managers/tag/subscribers` and `internal/managers/tea/subscribers` hold
  the same algorithm and are covered by it.
- **TagManager** (`TagManager.dfy`): mutators, eight bounded queues and the loop, as a step machine.
  **TagManagerRuns** (`TagManagerRuns.dfy`): from a mutator call to what its subscribers receive, and back.
- **KeyBuilder** (`KeyBuilder.dfy`): all key layouts, the consumption key and its parser.
- **Basics** (`Basics.dfy`): byte strings and their order, identifiers, instants.

Instants are unbounded integers counting nanoseconds from the Unix epoch; the zero `time.Time` is the
instant it denotes, and `Time.Sub` saturates as in Go. Names are byte strings. What comes from outside
is a parameter: clocks, the signed-in user, storage results and failures, AI scores, which contexts are
done when polled, and which steps a scheduler picks. A local time zone is any function from instants to
days whose days start later and later.

Findings worth knowing:

- The selection prefers a known expiration over an unknown one only when the known one is listed
  later. What matters is a "sleeper": an undated top scorer whose name precedes that of the best dated
  top scorer. The winner is the lexicographic optimum exactly when no sleeper is listed after the last
  optimum (`Scoring.WinnerIsOptimalIffAwake`), and independent of the listing order exactly when there
  is none (`Scoring.OrderIndependentIffSettled`, with the concrete `Scoring.MixedExpirationsDependOnOrder`).
- The expiry bonuses are 3 and 1 in the code; `docs/TEA_OF_THE_DAY_FEATURE.md` says 5 and 2. The model
  follows the code.
- With every delete successful, the stores differ in exactly the events that a later cutoff hits exactly
  (`>` in memory, `>=` in Postgres); in a window beyond the cutoffs they differ in multiplicities exactly
  if a call in it was repeated (`History.DifferenceIsOnCutoff`, `History.StoresAgreeUnlessRepeated`).
- Consumption keys sort chronologically only among times of one sign, and parsing clamps times before
  the epoch to the largest one.
- A category deletion is enqueued after the deletions of its tags but published after them exactly if,
  when the loop gets to it, the queue of tag deletions holds only later ones
  (`TagManager.TagsPassedIffQueueIsLater`); every category with a tag can overtake it
  (`TagManager.PublishingMayInvert`).
- Reusing a subscriber channel always ends in a panic, no later than when all contexts are done
  (`Subscribers.ReusedChannelPanics`).

## Model

| member | source | states |
|---|---|---|
| Scoring.ClampedAIScore | internal/scoring/scoring.go:45-60 | The score lies in 0..15, is 0 for a tea the AI did not score, is the AI's own when that lies there, and sits on the bound the AI's overshoots otherwise |
| Scoring.RecentPenalty | internal/scoring/scoring.go:62-78 | 5 exactly for a tea drunk in the last 24 hours or later, 3 exactly between 24 and 48, in exact time although Sub saturates |
| Scoring.ExpirationBonus | internal/scoring/scoring.go:80-95 | 3 exactly for a known expiration within 7 days or past, 1 exactly within 7 to 30 days |
| Scoring.CandidateName | internal/scoring/scoring.go:150-158 | The loop returns the name of the first candidate with the id, or the empty name |
| Basics.LexLessAtDifference | internal/scoring/scoring.go:116 | The order of strings.Compare: at the first position where two strings differ, the smaller one has ended or has the smaller byte |
| Basics.LexLessExtension | internal/scoring/scoring.go:116 | A string precedes exactly its proper extensions among its extensions |
| Scoring.BetterCandidate | internal/scoring/scoring.go:97-118 | The higher score wins; of equal scores a known expiration beats an unknown or later one; an undated current candidate, or one of the same expiration, is compared by name, a name beating its own extensions |
| Scoring.SelectBest | internal/scoring/scoring.go:126-148 | The returned score is the AI score plus recent penalty plus expiration bonus of a candidate with the returned id, no candidate has a greater sum, and the choice is the one the selection theorems are about |
| Scoring.WinnerHasMaximalScore | internal/scoring/scoring.go:126-148 | There is a winner exactly if there is a candidate, it is one of them, and none scores higher, for any expirations and repeated ids |
| Scoring.NilIdIsForgotten | internal/scoring/scoring.go:141-144 | A candidate with the nil id can score higher and still lose |
| Scoring.MaximalIffForgottenAreMatched | internal/scoring/scoring.go:126-148 | For any ids, nil and repeated ones included, no candidate outscores the winner if and only if every nil-id pick that the scan overwrites is followed by a candidate scoring as high |
| Scoring.AtLeastIsTotalPreorder | internal/scoring/scoring.go:97-118 | Score high, expiration early with unknown last, name low is a total preorder whose ties agree on all three |
| Scoring.WinnerIsOptimalIffAwake | internal/scoring/scoring.go:97-148 | For any expirations, the winner ranks at least as high as every candidate in the lexicographic order if and only if no sleeper is listed after the last optimum |
| Scoring.WinnerInPlainOrder | internal/scoring/scoring.go:97-148 | With all expirations known or none, every candidate has a smaller sum than the winner, or the same and a later expiration, or the same twice and a name that does not precede the winner's |
| Scoring.WinnerIsFirstAwake | internal/scoring/scoring.go:97-148 | An optimal candidate is the winner if and only if no sleeper follows it and one separates it from each optimum before it |
| Scoring.WinnerIsOptimal | internal/scoring/scoring.go:97-148 | In particular, without a sleeper the winner is the lexicographic optimum |
| Scoring.WinnerIsFirstOptimum | internal/scoring/scoring.go:97-148 | Without a sleeper the winner is the optimal candidate listed first |
| Scoring.UniformExpirationsAreSettled | internal/scoring/scoring.go:106-117 | With all expirations known, or none, there is no sleeper |
| Scoring.SleeperBreaksTie | internal/scoring/scoring.go:106-117 | A sleeper lets one permutation choose the dated tea and another the undated one |
| Scoring.OrderIndependentIffSettled | internal/scoring/scoring.go:97-148 | Every permutation gives the same score, expiration and name if and only if there is no sleeper |
| Scoring.MixedExpirationsDependOnOrder | internal/scoring/scoring.go:106-117 | Two concrete candidates of equal score where the later one listed wins |
| Scoring.LoserIsIrrelevant | internal/scoring/scoring.go:126-148 | Without a sleeper, removing any losing tea leaves winner and score unchanged, whatever the names |
| Scoring.WinnerSurvivesPraise | internal/scoring/scoring.go:45-60 | Raising only the winner's AI score leaves it the winner, for any expirations and names |
| Scoring.SelectBestWithLogging | internal/scoring/scoring.go:175-234 | Same id and score as the plain selector for every input; with a callback one entry per candidate with the sum of its three parts, and one for the winner, whose total is the score returned |
| Consumption.CompactInPlace | internal/consumption/store.go:53-58 | Filtering into events[:0] while ranging over events loses and reorders nothing |
| Consumption.RetainedIsSurvivors | internal/consumption/store.go:42-63 | After any calls in any time order the store holds, in insertion order, exactly the events later than the cutoff of every call from their own on |
| Consumption.RetainedMembers | internal/consumption/store.go:42-63 | Membership form of the closed form |
| Consumption.MemoryStore.constructor | internal/consumption/store.go:34-40 | A positive retention is kept, any other becomes 30 days; the store starts empty |
| Consumption.MemoryStore.Record | internal/consumption/store.go:42-63 | Afterwards the user has exactly the old and the new events later than the cutoff; keeps every user's slice equal to what retention leaves of that user's calls; the new event stays, other users are untouched |
| Consumption.MemoryStore.Recent | internal/consumption/store.go:65-81 | Returns the stored events not before since, each as often as stored, newest first |
| Consumption.PGStore.constructor | internal/consumption/pg_store.go:33-38 | A positive retention is kept, any other becomes 30 days; the store is opened on a table with any rows |
| Consumption.PGStore.Zero | internal/consumption/pg_store.go:24-27 | The zero value, the only store without queries, which answers every call with the nil-database error |
| Consumption.EveryTableHasHistory | internal/consumption/pg_store.go:33-38 | Any table content is what some earlier inserts left, so the theorems about insert histories cover every opened table |
| Consumption.PGStore.Record | internal/consumption/pg_store.go:42-61 | Which error each failing statement gives, and exactly which rows the table holds afterwards |
| Consumption.PGStore.Recent | internal/consumption/pg_store.go:64-83 | Each matching row once, newest first, or the error and nothing |
| Consumption.NewestFirstOf | pkg/pgstore/queries.go:889-893 | The sorted query lists exactly the selected rows, without repeats |
| History.TableMembers | internal/consumption/pg_store.go:51-58 | Closed form of the table, also when some retention deletes failed |
| History.MemoryWithinTable | internal/consumption/store.go:42-63 | Whatever the in-memory store still holds, the table holds too |
| History.DifferenceIsOnCutoff | internal/consumption/pg_store.go:55-58 | With all deletes successful, an event is in the table only if and only if, from its last copy on, some cutoff equals its time and none lies after it |
| History.StoresAgree | internal/consumption/store.go:50-80 | From the same calls both Recent results hold the same events for every window after the cutoffs, even if deletes failed |
| History.StoresAgreeIffNoneOnCutoff | internal/consumption/pg_store.go:55-83 | For any window, with all deletes successful, both results hold the same events if and only if no event of the window has its last copy exactly on a later cutoff and behind none |
| History.AgreementWindowIsTight | internal/consumption/store.go:55 | For any earlier window start there are calls on which the stores disagree |
| History.SinceOfRetained | internal/consumption/store.go:50-76 | Beyond the cutoffs the pruned history reads exactly like the full one, order and repetitions included |
| History.StoresAgreeUnlessRepeated | pkg/pgstore/queries.go:860-893 | Beyond the cutoffs both Recent results are equal as multisets if and only if no call in the window was repeated |
| History.RepeatsDiffer | pkg/pgstore/queries.go:860-863 | A repeated call is stored twice in memory and once in the table |
| History.LastByTea | pkg/api/v2/graphql/schema.resolvers.go:582-587 | The fold maps exactly the teas drunk to their latest time, whatever the order of the events |
| History.MemoryPenaltyIsExact | internal/consumption/store.go:42-81 | Prune, 96-hour window, fold and penalty give the penalty of the complete history for every tea, if the cutoffs lie before the last 48 hours |
| History.MemoryPenaltyBoundIsTight | internal/scoring/scoring.go:62-78 | At the bound, a history exists whose pruning hides a penalty |
| History.TablePenaltyIsExact | internal/consumption/pg_store.go:42-83 | The same for the Postgres store, also at the bound itself |
| History.TablePenaltyBoundIsTight | internal/consumption/pg_store.go:55-58 | One step beyond the table's bound, a history exists whose deletion hides a penalty |
| DayCache.FixedOffsetIsValid | pkg/api/v2/graphql/teaoftheday_cache.go:33-38 | Every fixed offset is a valid zone |
| DayCache.LivesThroughItsDay | pkg/api/v2/graphql/teaoftheday_cache.go:33-38 | An entry set at s is fresh at t exactly if t is not on a later local day |
| DayCache.Cache.Get | pkg/api/v2/graphql/teaoftheday_cache.go:41-65 | A fresh entry is returned and kept; otherwise nothing is returned and the user's entry is gone |
| DayCache.Cache.Set | pkg/api/v2/graphql/teaoftheday_cache.go:68-74 | The user's entry is replaced, all others stay |
| DayCache.EntriesComeFromLatestSet | pkg/api/v2/graphql/teaoftheday_cache.go:41-74 | In every interleaving an entry is the one the user's latest Set wrote |
| DayCache.DeletesOnlyExpired | pkg/api/v2/graphql/teaoftheday_cache.go:52-60 | A delete removes only an entry whose day was over at the deleter's own time |
| DayCache.FreshSetSurvives | pkg/api/v2/graphql/teaoftheday_cache.go:41-74 | No Set is lost until someone looks at or after its expiry |
| DayCache.LookupRefinesLatestSet | pkg/api/v2/graphql/teaoftheday_cache.go:41-65 | A lookup not earlier than the others hits exactly if the latest Set is of its day or later, and returns its value |
| DayCache.HitIsLatestSet | pkg/api/v2/graphql/teaoftheday_cache.go:41-65 | With arbitrary clocks, a hit is the value of the latest Set, not from an earlier day |
| TeaOfTheDay.AddRecordAggregates | pkg/api/v2/graphql/schema.resolvers.go:546-564 | One more record keeps the aggregation invariant |
| TeaOfTheDay.AggregateAllIsRight | pkg/api/v2/graphql/schema.resolvers.go:525-566 | One candidate per tea in order of first appearance with its first name and earliest expiration; the earliest record is the first that expires earliest; the index numbers the candidates |
| TeaOfTheDay.CandidateInPlainTerms | pkg/api/v2/graphql/schema.resolvers.go:546-564 | Each candidate has the name on the first record of its tea and the smallest expiration on any, and no other candidate has its id |
| TeaOfTheDay.CandidatesInPlainOrder | pkg/api/v2/graphql/schema.resolvers.go:546-564 | Every tea on a record has a candidate, and every candidate listed before it has an earlier record |
| TeaOfTheDay.FlattenMembers | pkg/api/v2/graphql/schema.resolvers.go:533-546 | The records considered are exactly those of the collections listed |
| TeaOfTheDay.AggregateRecord | pkg/api/v2/graphql/schema.resolvers.go:546-564 | The loop body, with its guarded index lookup, adds one record |
| TeaOfTheDay.AggregateRecords | pkg/api/v2/graphql/schema.resolvers.go:533-566 | The nested loops meet the aggregation invariant over the records of all collections, or stop at a failing listing |
| TeaOfTheDay.WinnerHasRecord | pkg/api/v2/graphql/schema.resolvers.go:642-646 | The selected id always has a record, so the nil check after selection cannot fire |
| TeaOfTheDay.Resolver.Answer | pkg/api/v2/graphql/schema.resolvers.go:499-651 | Every request is a legal turn: which outcome, what is cached, evicted and recorded, in every failure case |
| TeaOfTheDay.OutcomeOfTurn | pkg/api/v2/graphql/schema.resolvers.go:499-651 | Exactly when a request fails unauthenticated, by storage or for want of teas, or hits the cache, and that nothing is recorded then |
| TeaOfTheDay.FreshAnswerOfTurn | pkg/api/v2/graphql/schema.resolvers.go:634-650 | A fresh answer is a record of the user's collections dated now; its tea, not the record, is recorded once if the insert succeeds, and it is cached to the start of the next local day in any case |
| TeaOfTheDay.LookBackOfTurn | pkg/api/v2/graphql/schema.resolvers.go:574-587 | The penalties read the latest time of each tea drunk in the last 96 hours, or nothing when the query fails |
| TeaOfTheDay.TurnKeepsOthers | pkg/api/v2/graphql/schema.resolvers.go:505-517 | No turn touches another user's cache entry |
| TeaOfTheDay.Resolver.Remember | pkg/api/v2/graphql/schema.resolvers.go:638-650 | The answer is recorded and cached until its midnight, and cached also when recording fails; other users keep their entries |
| TeaOfTheDay.Resolver.LastConsumed | pkg/api/v2/graphql/schema.resolvers.go:574-587 | The latest consumption per tea in the look-back window, or nothing when the query fails |
| TeaOfTheDayRuns.EntryHasOrigin | pkg/api/v2/graphql/schema.resolvers.go:649 | A cached entry is what an earlier turn answered the same user |
| TeaOfTheDayRuns.DayIsStable | pkg/api/v2/graphql/schema.resolvers.go:505-517 | In every run all answers to one user on one local day are the same, and later ones change nothing |
| TeaOfTheDayRuns.RecordedOncePerDay | pkg/api/v2/graphql/schema.resolvers.go:638-650 | Record is called for a user and day if and only if there is an answer, and only once |
| TeaOfTheDayRuns.PenaltiesAreExact | pkg/api/v2/graphql/schema.resolvers.go:574-587 | Along every run pruning and the look-back window change no penalty |
| TeaOfTheDayRuns.AnsweredTeaIsRecorded | pkg/api/v2/graphql/schema.resolvers.go:638 | In every run a recorded turn adds exactly its answered tea, at its own time, to its user's history, and nothing to any other |
| TeaOfTheDayRuns.AnsweredTeaIsPenalised | pkg/api/v2/graphql/schema.resolvers.go:574-587 | At a later fresh turn with a working look-back the answered tea counts 5 less within 24 hours and at least 3 less within 48 |
| TeaOfTheDayRuns.DefaultRetentionSuffices | cmd/server/main.go:114 | A store opened with retention 0 keeps at least the 48 hours these theorems need |
| TeaOfTheDayRuns.FreshAnswerIsBest | pkg/api/v2/graphql/schema.resolvers.go:499-651 | Every fresh answer is an earliest-expiring record of its tea among all collections, and no tea of the user at its earliest expiration has a greater sum of AI score, penalty from the complete history, and bonus |
| TeaOfTheDayRuns.FreshAnswerIsOptimal | pkg/api/v2/graphql/schema.resolvers.go:499-651 | Every fresh answer is the lexicographic optimum (score, expiration, name) of the user's teas against the complete history if and only if no sleeper is listed after the last optimum |
| Subscribers.RemoveInPlace | common/subscribers/generic_subscriber.go:47-51 | The descending loop on the array, with overlapping sources and targets, performs one swap-removal per mark |
| Subscribers.RemovalKeepsLive | common/subscribers/generic_subscriber.go:35-51 | For every slice and done-set exactly the live subscribers remain, each as often as before |
| Subscribers.CleanIsIdempotent | common/subscribers/generic_subscriber.go:31-52 | Cleaning again with the same done contexts changes neither slots nor channels |
| Subscribers.SendEachDelivers | common/subscribers/generic_subscriber.go:59-61 | A message reaches each registered channel once, at the end, and no other channel |
| Subscribers.RunsAreSound | common/subscribers/generic_subscriber.go:31-73 | With fresh channels no run sends on a closed channel or closes one twice, and closed means pushed and no longer registered |
| Subscribers.RunsAreTallied | common/subscribers/generic_subscriber.go:31-73 | In every run without a panic each push of a channel is accounted for by a slot that holds it or by its one close |
| Subscribers.ReusedChannelPanics | common/subscribers/generic_subscriber.go:37-41 | A run after which all contexts get done ends without a panic if and only if no channel was pushed twice |
| Subscribers.DeliveryIsContiguous | common/subscribers/generic_subscriber.go:31-73 | In every run each channel has received exactly what was published between its Push and its removal |
| Subscribers.SubscribersImpl.Push | common/subscribers/generic_subscriber.go:65-73 | The subscriber comes last in the slice; the object follows the machine, for any channel; a full array is replaced by a larger one |
| Subscribers.SubscribersImpl.SendAll | common/subscribers/generic_subscriber.go:55-62 | Each registered channel gets the message once, at the end, and no other does; the object follows the machine, and does not panic if no channel was pushed twice |
| Subscribers.SubscribersImpl.CleanDone | common/subscribers/generic_subscriber.go:31-52 | Exactly the channels found done are closed; the object follows the machine in place, keeps the live subscribers, and does not panic if no channel was pushed twice |
| TagManager.StreamsAreConserved | internal/managers/tag/loop.go:12-35 | On each stream what was enqueued is what the loop took followed by what is queued, in order, with at most 100 queued |
| TagManager.CallsSendTheirPlan | internal/managers/tag/manager.go:94-215 | Each call has sent a prefix of its events and still holds the rest |
| TagManager.CategoryDeletedAfterItsTags | internal/managers/tag/manager.go:129-142 | Once a category deletion is enqueued, its call enqueued all removed tags before, in order |
| TagManager.RunsHandleWhatTheyTake | internal/managers/tag/loop.go:12-35 | In every run the handled events are those taken, each once and in order, but for the one in hand |
| TagManager.RunsPublishWhatTheyHandle | internal/managers/tag/loop.go:12-80 | Each stream publishes exactly the rendered messages of its handled events, in order; where handling looks the tag or tea up and fails, nothing |
| TagManager.RegistriesAreCleaned | internal/managers/tag/loop.go:82-92 | After every handled event each of the eight registries is cleaned exactly once |
| TagManager.ManagerNeverPanics | internal/managers/tag/manager.go:217-271 | No registry of the manager sends on a closed channel or closes one twice |
| TagManager.SubscribersSeeTheStream | internal/managers/tag/manager.go:217-271 | Every subscription receives a contiguous slice of what its stream publishes, which renders a prefix of what was enqueued, in order |
| TagManager.AllHandledIffQueueEmpty | internal/managers/tag/loop.go:12-35 | With none of its events in hand, a stream has handled all that was enqueued if and only if its queue is empty |
| TagManager.PassedIsHandled | internal/managers/tag/loop.go:12-35 | An enqueued event counts as handled when it stands at its own rank among the handled events of its stream |
| TagManager.TagsPassedIffQueueIsLater | internal/managers/tag/manager.go:129-142 | Whenever no tag deletion is in hand, a category deletion's tags have all been handled if and only if the queue of tag deletions holds only events enqueued after the last of them |
| TagManager.CategoryPublishedLastIff | internal/managers/tag/loop.go:14-30 | At every publication of a category deletion in every run, its tags were handled before if and only if that condition holds |
| TagManager.PublishingMayInvert | internal/managers/tag/loop.go:14-30 | For every category with at least one tag, a run that enqueues all deletions and publishes the category's before the last tag's |
| TagManagerRuns.MutatorSends | internal/managers/tag/manager.go:94-215 | Once a mutator has returned it has sent its own event on its own queue and nothing on any other; if storage failed, nothing at all |
| TagManagerRuns.MutatorIsHeard | internal/managers/tag/loop.go:12-80 | Once the loop has caught up, whoever subscribed to the mutator's stream before the call and is still registered has received its message, with the category or tea that storage returned when it was handled |
| TagManagerRuns.MessageHasOrigin | internal/managers/tag/loop.go:12-80 | Every message of a stream comes from a call of that stream's own mutators that storage accepted, with its own id, tag, category or tea |
| TagManagerRuns.SubscriptionIsRegistered | internal/managers/tag/manager.go:217-271 | A subscription joins the end of its own stream's registry and no other |
| TagManagerRuns.QueueFills | internal/managers/tag/manager.go:289-296 | A queue can hold any number of events up to 100 |
| TagManagerRuns.FullQueueBlocks | internal/managers/tag/manager.go:289-296 | A send to a queue of 100 waits |
| KeyBuilder.KeyLayout | common/key_value/key_builder/prefix.go:3-29 | The bytes of every key: the letters of its kind, then its arguments in order |
| KeyBuilder.ConsumptionKeyLayout | common/key_value/key_builder/builder.go:54-68 | The consumption key is "ix", the user, the time as a big-endian two's complement word of eight bytes, and the tea |
| KeyBuilder.ScansFind | common/key_value/key_builder/builder.go:50-199 | Each prefix constructor begins exactly the keys of its kind and argument |
| KeyBuilder.AppendPrefix | common/key_value/key_builder/builder.go:182-191 | The copying loop yields the prefix followed by the data |
| KeyBuilder.ConsumptionKeyOrder | common/key_value/key_builder/builder.go:54-68 | Byte order of one user's keys is time, then tea, among times of one sign; times before the epoch come last |
| KeyBuilder.ParseConsumptionKey | common/key_value/key_builder/builder.go:214-238 | Accepts exactly keys with the prefix and room for time and id, clamps the time, ignores extra bytes |
| KeyBuilder.ParseOfBuilt | common/key_value/key_builder/builder.go:214-238 | Parsing a built key returns its tea always and its time exactly if it is not before the epoch |
| KeyBuilder.BuiltOfParse | common/key_value/key_builder/builder.go:54-68 | Rebuilding an accepted key returns it exactly if it has no extra bytes and its time word needed no clamping |
| KeyBuilder.KeysAreDistinct | common/key_value/key_builder/builder.go:50-199 | No two full keys collide, whatever their kinds and arguments |
| KeyBuilder.HeadTellsKind | common/key_value/key_builder/prefix.go:3-29 | Each kind of key has a prefix of its own |
| KeyBuilder.ScansAreExact | common/key_value/key_builder/builder.go:50-199 | Each scan prefix is a prefix of exactly the keys of its kind and argument, and of no other key |

## Left out

- Scoring.WinnerHasMaximalScore: assumes non-nil ids, because the code uses the nil id for "no best yet"; Scoring.NilIdIsForgotten shows a list with a nil id where the claim fails, and Scoring.MaximalIffForgottenAreMatched when it holds.
- TeaOfTheDayRuns.FreshAnswerIsBest: assumes that no tea has the nil id, for the same reason, and that the look-back query succeeded.
- TeaOfTheDayRuns.RecordedOncePerDay: is about sequential requests; two concurrent misses of one user may both record.
- DayCache.FreshSetSurvives: speaks about entries, not about the memory the cached pointer refers to.
- TagManager.StreamsAreConserved: the manager is modelled as steps over values, because its goroutines share it; a send to an unbuffered subscriber channel is one completed rendezvous, so a reader that went away and blocks the loop is not modelled.
- Consumption.SortNewestFirst: stands for the library's sort; only order and contents are promised, as callers rely on no more.
- Postgres stores timestamps in microseconds; the model keeps nanoseconds.
- AI scores per tea are an input; the mapping from names to ids, with its lower-casing and trimming, is not modelled.
- Weather, prompts, authentication, notifications, QR rendering and GraphQL plumbing are not modelled.
- Daylight saving is part of the abstract zone; the normalisation inside time.Date is not modelled.
- The tea manager is a three-stream copy of the tag manager and is not modelled on its own.
- Storage behind the tag manager is an input: each call's result, and what it holds when the loop looks a category or tea up.
