# Verified model of the chat, identity, memory and analytics cores

This project models the parts of the repository whose correctness depends on
order, repetition and interleaving, and proves what they promise.

| files | models |
|---|---|
| `Frames`, `Translator`, `TranslatorEnds`, `UiMessage`, `Agreement` | the frames of a chat turn; the browser's direct fold and the server's persisted fold; the chunk translator of the web client, the chat SDK's reducer, `toMessageParts` / `fromMessageParts`; and the agreement of the two routes |
| `Delivery` | `applyEventTo` over several messages, delivered at least once |
| `Sse`, `SseCrCrLf`, `SseSkips` | the printed wire text of a frame, the server's decoder, both clients' chunked parsers |
| `Sink`, `TurnStream`, `TurnOutcome` | the envelope sink with its early part emitter; the worker-thread protocol of `stream_turn`, and what the end of a turn says and saves |
| `RateLimit`, `RateLimitBurst`, `RateLimitWindow`, `RateLimitEviction`, `RateLimitRetry` | the token-bucket limiter with amortised eviction: how much it lets through, what eviction costs, and when the delay it tells is the true one |
| `JwksCache`, `JwksSystem`, `JwksDenial`, `JwksSoundness`, `JwksFlight`, `JwksRelease`, `JwksLatest` | the signing-key cache one locked section at a time; any number of threads interleaving over it: what a recorded absence does, what "unknown" means, how often and how many fetches run, what riders are told |
| `Outbox`, `Worker`, `WorkerStuck`, `OutboxSystem`, `OutboxRows`, `OutboxSafety` | the memory outbox; one worker cycle and the draining of the queue over many; users, workers and crashes interleaving over the rows, and which runs lose a turn |
| `Mom`, `MomRanking`, `MomDriver`, `MomMovers` | month-over-month merging, ranked tables and their totals, driver labels, top movers |

Objects whose methods update fields are classes (`FrameTranslator`,
`SseEnvelopeSink`, `LiveTurn`, `ChatRateLimiter`, `Auth0Provider`,
`ConversationOutbox`), and loops are loops. Each of their methods is proved
equal to a function of the old state; the laws below are then proved of those
functions, over every input and every run. What these functions choose is also
stated in the values themselves (entries and readings, row fields, emitted
frames, a table's own figures), apart from their definitions. Threads, workers and crashes are
state machines: one step per locked section or transaction, and one for
everything between two of them that somebody else can observe.

Where a promise is false as written, the code is kept as it is, a lemma gives
the input that breaks it, and the exact condition is proved:

- The chunk pipeline shows what the direct fold shows exactly on *reconcilable*
  turns: no part frame carries a `phase` part, and no tool frame updates a tool
  that a part frame named first (`Agreement.AgreeIff`). The SDK upserts by
  (kind, id) and part frames carry no id; the direct fold looks at every
  `tool_event` part.
- Chunk boundaries leave the blocks and the rest alone exactly on streams without
  CR CR LF (`Sse.ChunkingInvisibleIff`): the rest is normalized again with the
  next chunk. Not every such stream shows the difference in its events; one with
  CR CR LF on a line between two data lines does, for every event and any two
  texts the decoder tells apart (`SseCrCrLf.CrCrLfChangesTheEvent`).
- "At most N requests per minute for any rolling 60-second window" is not what
  a token bucket gives. A window of w seconds is sure to hold at most m accepted
  checks of a key exactly when m is at least N plus the whole tokens that flow in
  during w (`RateLimitEviction.WindowIff`), so for a minute exactly when m is at
  least 2N (`RateLimitEviction.RollingMinuteIff`).
- Eviction goes unnoticed, and the limiter keeps that bound, exactly when no
  clock reading reaches the lock behind an earlier one
  (`RateLimitEviction.EvictionIsInvisibleIff`, `RateLimitEviction.WindowBoundIff`):
  for every limit, every sweep schedule and every lag, however small,
  `RateLimitEviction.StaleReadingTellsApart` is a run whose second burst a kept
  bucket would have refused. Without eviction the bound holds for readings in any
  order (`RateLimitWindow.KeyAcceptedForever`).
- The delay told to a refused caller is the true one, for every caller that comes
  back while only others use the limiter, exactly when readings reach the lock at
  most half as far behind as a minute exceeds one token's time
  (`RateLimitRetry.RetryIff`): at one a minute, not at all.
- "Unknown signing key" is a statement about a fetched key map exactly when no
  fetch is cut short by something that is no `Exception` before the first has
  published (`JwksSoundness.UnknownIsSoundIff`): the attempt's error is recorded
  only for an `Exception`, while the marker is cleared in any case, so the next
  caller finds neither a fetch in flight nor an error. Of a single such
  interrupt: it is harmless, whatever follows, exactly when some fetch has
  published by then (`JwksSoundness.HarmlessInterruptIff`).
- No two fetches run at once exactly when every fetch ends within the interval
  of its claim (`JwksFlight.SingleFetchIff`).
- A rider whose fetch published its key gets it exactly when the latest map
  still has it at the recheck (`JwksSoundness.RiderIsServed`). Where fetches end
  within the interval, its own fetch's map decides for every rider that rechecks
  within some time of the claim exactly when that time is at most the interval
  (`JwksLatest.OwnFetchDecidesIff`, `JwksLatest.LaterFetchTakesKeyAway`).
- A finished turn can be marked done unread in exactly two ways
  (`OutboxSafety.NoTurnIsLostIff`). An attempt reads the latest messages only, 200
  of them, so a sitting of more loses its first turns before any attempt has seen
  them (`OutboxSafety.LongSittingLosesATurn`), though the source counts on earlier
  cycles for them. And `touch` stamps the row with its transaction's start, so a
  commit later than the idle threshold, of a stamp another touch also carries,
  restores the very `last_turn_at` a worker claimed
  (`OutboxSafety.StaleTouchLosesATurn`).
- An idle row reaches done or failed in bounded time, in every queue, exactly when
  fewer conversations keep escaping the worker than one cycle claims
  (`WorkerStuck.QueueBearsStuckIff`).
- Volume effect plus margin effect is the change in gross profit exactly when
  both months hold the same gross profit without volume
  (`MomDriver.DriverIdentityIff`); `MomDriver.UnchangedCanHideAChange` is a row
  labelled "unchanged" whose gross profit rose by 100.
- A first dispatch's parts reach the wire once exactly when what was streamed
  early is a prefix of what it returned (`Sink.PartsOnceIff`).

## Model

| member | source | states |
|---|---|---|
| `Frames.ShownIsPersistedPlusError` | backend/poseidon/api/live_chat.py:470-489 | what the browser shows and what the server persists differ by one trailing error part, if the turn ended in an error, and by nothing otherwise |
| `Frames.OneToolPartPerSequence` | frontend/src/state/chatStore.ts:7-60 | where only tool frames make tool parts, the fold of any frame list shows no tool twice |
| `Translator.FrameTranslator.constructor` | web/src/lib/turn-stream.ts:64-69 | a new translator has no open run, has opened none and has not finished |
| `Translator.FrameTranslator.Close` | web/src/lib/turn-stream.ts:70-75 | closes the open run, if any, and nothing else |
| `Translator.FrameTranslator.Translate` | web/src/lib/turn-stream.ts:78-128 | new state and chunks of one frame: the open run closed before any other chunk, a run opened by a token when none is |
| `Translator.FrameTranslator.End` | web/src/lib/turn-stream.ts:129-133 | terminates an unfinished stream once, a finished one not again |
| `Translator.TranslateTurn` | web/src/lib/turn-stream.ts:64-135 | the chunk stream of a whole turn |
| `Translator.WellBracketedIff` | web/src/lib/turn-stream.ts:64-135 | a checker that sees only chunks accepts the stream (runs bracketed and fresh, nothing else inside an open run, exactly one terminator, last) iff nothing but unknown frames follows the terminal frame |
| `TranslatorEnds.StreamAnnounces` | web/src/lib/turn-stream.ts:78-133 | whatever the frames, each `accepted`, phase and terminal frame is announced once, in order, with its own ids, payload, usage and title, under the turn the first frame named; without a terminal frame, that it broke off |
| `TranslatorEnds.StreamSaysHowItEnded` | web/src/lib/turn-stream.ts:110-133 | where the terminal frame is last, the stream's one closing chunk is its last: ok with the `done`'s usage and title, not ok after an `error`, the error text when cut off |
| `UiMessage.ToMessageParts` | web/src/lib/message-parts.ts:23-42 | the loop computes the specified read-back of a message |
| `UiMessage.ResavedPreserves` | web/src/lib/message-parts.ts:23-56 | loading and saving any part list yields a normal list with the same text and the same other parts in order, phase markers apart |
| `UiMessage.RoundTripIff` | web/src/lib/message-parts.ts:23-56 | loading and saving is the identity iff the list is normal, and a second round changes nothing |
| `UiMessage.LoadedToolIsUpdated` | web/src/lib/message-parts.ts:45-56 | a tool's chunk finds and replaces the tool in a loaded message exactly as a tool frame does in the persisted parts |
| `UiMessage.LoadedPartsStay` | web/src/lib/message-parts.ts:45-56 | no other chunk changes what was loaded: loaded text is closed |
| `Agreement.ReduceFrame` | web/src/lib/turn-stream.ts:78-128 | reducing one frame's chunks does to the message what the frame says, in one piece |
| `Agreement.ToolStep` | web/src/lib/message-parts.ts:23-42 | upserting by id in the message is upserting by sequence number in the parts, unless a part frame named the tool first |
| `Agreement.AgreeIff` | web/src/lib/turn-stream.ts:64-135 | translate, reduce and read back gives exactly the parts of the direct fold iff the turn is reconcilable |
| `Agreement.OrdinaryTurnsAreReconcilable` | web/src/lib/message-parts.ts:13-22 | every turn whose part frames carry neither phase nor tool parts is reconcilable |
| `Agreement.ReplayIsIdentity` | backend/poseidon/core/chat/orchestrator.py:1212-1246 | a replayed turn shows and persists again exactly the parts it was replayed from, and streams them iff none is a phase marker |
| `Delivery.ApplyEventTo` | frontend/src/state/chatStore.ts:7-60 | the copy-and-assign code computes the specified step on the message list |
| `Delivery.MonotoneAndUnique` | frontend/src/state/chatStore.ts:7-60 | over any deliveries messages keep their place and id, `lastSeq` never goes back, ids stay unique |
| `Delivery.AtLeastOnceIsOnce` | frontend/src/state/chatStore.ts:7-60 | whatever the order, the interleaving and the repeats, delivering numbered frames leaves what delivering each once leaves |
| `Delivery.InterleavingIsInvisible` | frontend/src/state/chatStore.ts:7-60 | beside any messages already there, a message depends on its own frames only |
| `Delivery.OrderedIsFolded` | frontend/src/state/chatStore.ts:7-60 | beside any others, a new message's frames in increasing order leave the direct fold of them |
| `Delivery.DeliveredMessage` | frontend/src/state/chatStore.ts:7-60 | with first arrivals in order, any interleaving and later repeats leave each new message, beside any others, the direct fold of its own frames |
| `Delivery.OneToolPartEach` | frontend/src/state/chatStore.ts:7-60 | where only tool frames make tool parts, no message shows a tool twice, in whatever order and how often its frames arrive |
| `Sse.ReadFields` | frontend/src/api/sse.ts:23-45 | the last `event: ` name and all `data: ` texts of a block |
| `Sse.ParseSseChunk` | web/src/lib/turn-stream.ts:21-40 | the events of every complete block, in order, and the text after the last |
| `Sse.ReadLoop` | frontend/src/api/sse.ts:86-102 | the loop delivers the events of the chunked parse, keeps its rest, and remembers the last event |
| `Sse.ChunkingInvisibleIff` | frontend/src/api/sse.ts:23-45 | the blocks and the rest of a text are the same however it is cut iff it holds no CR CR LF |
| `SseCrCrLf.CrCrLfChangesTheEvent` | frontend/src/api/sse.ts:23-45 | with CR CR LF on a line between two data lines, uncut the event has both texts, cut behind it the first alone |
| `Sse.EveryChunkingReadsEveryFrame` | backend/poseidon/core/chat/events.py:534-543 | every way of cutting the printed text of any list of frames yields exactly those frames, in order, and no rest |
| `Sse.DecodeInvertsPrint` | backend/poseidon/api/live_chat.py:456-467 | a printed frame is its id, event and data lines and a blank one, and the server's decoder gives back the name and the JSON text |
| `SseSkips.PartialBlockIsSilent` | frontend/src/api/sse.ts:23-45 | a block without an `event: ` line or without a `data: ` line yields nothing |
| `SseSkips.NamedBlockYields` | frontend/src/api/sse.ts:23-45 | one with a single `data: ` line yields its value under the last name, iff that is not empty and the text parses |
| `SseSkips.SilentBlockIsSkipped` | frontend/src/api/sse.ts:23-45 | a block that yields nothing changes nothing of what is read before and behind it |
| `Sink.SseEnvelopeSink.constructor` | backend/poseidon/core/chat/events.py:374-388 | a new sink has sent nothing and no emitter is live |
| `Sink.SseEnvelopeSink.Push` | backend/poseidon/core/chat/events.py:492-506 | one more frame, numbered one past the last; frames stay numbered 1..n |
| `Sink.SseEnvelopeSink.PartEmitter` | backend/poseidon/core/chat/events.py:424-490 | makes a closure live with nothing streamed |
| `Sink.SseEnvelopeSink.EmitPart` | backend/poseidon/core/chat/events.py:424-490 | a live closure sends and counts the part, a retired one does nothing |
| `Sink.SseEnvelopeSink.HandleToolDone` | backend/poseidon/core/chat/events.py:390-422 | retires the closure, keeps the parts, and sends the end marker and the parts past those streamed |
| `Sink.SseEnvelopeSink.DispatchOne` | backend/poseidon/core/llm/loop.py:449-541 | what one dispatch puts on the wire; afterwards no closure is live |
| `Sink.SseEnvelopeSink.RunDispatches` | backend/poseidon/core/llm/loop.py:390-398 | a turn adds its dispatches' events to whatever has been sent, the emitter live for the first alone |
| `Sink.CountSkipIff` | backend/poseidon/core/chat/events.py:390-422 | skipping by count sends a list once iff what was streamed is a prefix of it |
| `Sink.PartsOnceIff` | backend/poseidon/core/chat/events.py:424-490 | the parts on the wire are the parts returned, once and in order, iff the first dispatch's early parts are a prefix of its result |
| `Sink.EveryDispatchStartsAndEnds` | backend/poseidon/core/chat/events.py:374-398 | the tool frames of a turn are, for each dispatch, numbered from 1, its start and then done or error as it went, and no others |
| `TurnStream.LiveTurn.PersistOnce` | backend/poseidon/api/live_chat.py:904-934 | persists the transcript the first time and never again, under the returned run's id if there is one, else the turn's |
| `TurnStream.LiveTurn.Record` | backend/poseidon/api/live_chat.py:470-489 | folds one frame into the transcript |
| `TurnStream.LiveTurn.Send` | backend/poseidon/api/live_chat.py:936-953 | records, then queues; holds a `done`; persists before an `error` |
| `TurnStream.LiveTurn.Emit` | backend/poseidon/core/chat/events.py:374-388 | numbers the event and sends it |
| `TurnStream.LiveTurn.FinalizeTurn` | backend/poseidon/api/live_chat.py:957-1000 | persists, then queues the held `done` with its own usage, the replay flag, and the title iff the outcome is ok, the first turn index is 1 and it is no replay; nothing without one |
| `TurnStream.LiveTurn.RunTurnSync` | backend/poseidon/api/live_chat.py:1002-1115 | the whole run's state and log, for any emissions and any of the three endings: a return, an `Exception`, or something that is none |
| `TurnStream.TurnLog` | backend/poseidon/api/live_chat.py:904-1115 | every run's log, however it ends, is the frames before the terminal one, one persist of exactly their fold, the terminal frames, the sentinel |
| `TurnOutcome.DoneSent` | backend/poseidon/api/live_chat.py:957-1000 | for any emissions, in any order: after a return with a `done` emitted the last thing queued is the first of them, with its own number and usage, the returned replay flag, and the computed title iff the turn went well, its first `accepted` says turn 1 and it is no replay |
| `TurnOutcome.DoneSentIff` | backend/poseidon/api/live_chat.py:936-1000 | a `done` is queued iff the orchestrator returned and had emitted one, and then once |
| `TurnOutcome.OneMessagePersisted` | backend/poseidon/api/live_chat.py:904-953 | for any emissions and ending, one message is persisted: up to the first `error` under the turn's own id, or without one everything, under the run id returned, else the turn's |
| `TurnOutcome.ReplayedTurn` | backend/poseidon/api/live_chat.py:904-1000 | a replayed turn persists the original's parts once, under the original run's id, and its `done` carries the replay flag and no title |
| `TurnStream.TurnQueue` | backend/poseidon/api/live_chat.py:936-1115 | the client is sent the emitted body and then the closing frames |
| `TurnStream.QueuedNumbersIncrease` | backend/poseidon/api/live_chat.py:936-1115 | queued frame numbers strictly increase from 1 |
| `TurnStream.OneTerminalIff` | backend/poseidon/api/live_chat.py:957-1115 | how many terminal frames are sent, last: one iff the orchestrator returned with one, raised without having emitted an error, or was aborted after it had; none or two in the other cases |
| `TurnStream.ClientShowsWhatIsPersisted` | backend/poseidon/api/live_chat.py:904-1115 | after every run the client shows the persisted message plus the error parts of that run's terminal frames |
| `RateLimit.ChatRateLimiter.constructor` | backend/poseidon/api/auth.py:318-324 | capacity and refill rate of a new, empty limiter |
| `RateLimit.ChatRateLimiter.Check` | backend/poseidon/api/auth.py:326-353 | the new buckets and the answer of one check, sweeping every 512th |
| `RateLimit.ChatRateLimiter.EvictIdleBuckets` | backend/poseidon/api/auth.py:355-366 | deletes exactly the buckets idle for over a minute |
| `RateLimitBurst.BurstIsAnswered` | backend/poseidon/api/auth.py:326-346 | of any number of checks at once on a new key exactly per_minute go through and every further one is told one token's time |
| `RateLimitBurst.ForgetsEvery512th` | backend/poseidon/api/auth.py:348-366 | in every run the 512th check, the 1024th and so on forget the buckets untouched for more than a minute and no others; no other check forgets any |
| `RateLimitEviction.EvictionIsInvisible` | backend/poseidon/api/auth.py:296-308 | with readings in lock order, a limiter answers every check of every run like one that never evicts, whichever checks it sweeps after |
| `RateLimitEviction.CounterIsASchedule` | backend/poseidon/api/auth.py:326-366 | sweeping every so many checks is one such choice |
| `RateLimitEviction.EvictionIsInvisibleIff` | backend/poseidon/api/auth.py:296-308 | with readings up to d behind, for any limit and any schedule, every run is answered as without eviction iff d is zero |
| `RateLimitEviction.WindowBoundIff` | backend/poseidon/api/auth.py:296-308 | and every run of the evicting limiter keeps the window bound iff d is zero |
| `RateLimitEviction.StaleReadingTellsApart` | backend/poseidon/api/auth.py:355-366 | for every limit, schedule and lag, a run answered otherwise than without eviction, in which a key gets more through than the bound |
| `RateLimitWindow.AcceptedInWindow` | backend/poseidon/api/auth.py:326-346 | one bucket's accepted checks with readings in any window number at most per_minute plus the window's refill, in any lock order |
| `RateLimitWindow.KeysAreIndependent` | backend/poseidon/api/auth.py:326-346 | without eviction each key is answered as if it were alone |
| `RateLimitWindow.KeyAcceptedForever` | backend/poseidon/api/auth.py:326-346 | the bound for every key of a limiter that never evicts, readings in any order |
| `RateLimitEviction.KeyAcceptedInWindow` | backend/poseidon/api/auth.py:326-366 | the bound for every key of the limiter as it is, readings in lock order |
| `RateLimitEviction.WindowIff` | backend/poseidon/api/auth.py:275-279 | every window of w seconds of every run in order holds at most m accepted checks of a key iff m is at least per_minute plus the whole tokens refilled in w |
| `RateLimitEviction.RollingMinuteIff` | backend/poseidon/api/auth.py:275-279 | for a rolling minute: iff m is at least twice per_minute |
| `RateLimitRetry.RetryIff` | backend/poseidon/api/auth.py:326-366 | with readings up to d behind, in every run a refused caller that comes back while only others check is let through iff it waited the delay it was told, iff twice d is at most a minute less one token's time |
| `RateLimitRetry.RetryInOrder` | backend/poseidon/api/auth.py:326-366 | with readings in lock order it always is |
| `RateLimitRetry.AlwaysSolvent` | backend/poseidon/api/auth.py:326-346 | however stale its readings, no bucket owes more than would flow in by the latest of them |
| `JwksCache.Auth0Provider.constructor` | backend/poseidon/core/identity_auth0.py:245-268 | an empty cache |
| `JwksCache.Auth0Provider.CachedJwkOrFetchAttempt` | backend/poseidon/core/identity_auth0.py:345-405 | the cache it leaves and its decision; for a kid the key map lacks: refused while an entry of it is younger than 300 s, else a fetch iff none was claimed for 60 s, else the ride, the outage or the refusal, each under its own condition |
| `JwksCache.AbsentKidIsDecided` | backend/poseidon/core/identity_auth0.py:363-405 | the same, whole: decision and cache for a kid the key map lacks, from the entries' and the slot's own readings |
| `JwksCache.Auth0Provider.FetchedJwks` | backend/poseidon/core/identity_auth0.py:470-482 | replaces the whole key map |
| `JwksCache.Auth0Provider.FinishFetch` | backend/poseidon/core/identity_auth0.py:407-425 | records the attempt's error and clears the marker |
| `JwksCache.Auth0Provider.JwkAfterFetch` | backend/poseidon/core/identity_auth0.py:444-468 | serves from the new map, or records the kid absent, evicting while the map is full |
| `JwksCache.Auth0Provider.EvictOldest` | backend/poseidon/core/identity_auth0.py:465-466 | while the map is full its earliest-recorded entry goes: the newest 1023 stay |
| `JwksCache.RecordedIsNewest` | backend/poseidon/core/identity_auth0.py:444-468 | the bounded negative map stays the newest entries of one that never evicts |
| `JwksSystem.Always` | backend/poseidon/core/identity_auth0.py:328-482 | the invariant of threads, attempts, marker, clock and maps holds in every reachable state |
| `JwksSystem.NegativeMapIsBounded` | backend/poseidon/core/identity_auth0.py:444-468 | in every interleaving at most 1024 kids are held, the most recently recorded ones |
| `JwksDenial.AbsentKidIsAnswered` | backend/poseidon/core/identity_auth0.py:363-405 | in every reachable state, a caller of a kid recorded absent less than 300 s before its reading is told "unknown" with no fetch made and nothing else changed; of another absent kid it fetches iff the last claim is 60 s old |
| `JwksDenial.AbsenceIsRemembered` | backend/poseidon/core/identity_auth0.py:363-376 | after a kid was found absent, in every continuation that neither publishes nor rechecks it and rechecks others fewer than 1024 times, its callers within 300 s are told "unknown" at once, whatever is in flight |
| `JwksDenial.ForgottenIff` | backend/poseidon/core/identity_auth0.py:444-468 | of absences of distinct kids recorded after it, an entry outlives 1023 and no more |
| `JwksDenial.OutageIsTold` | backend/poseidon/core/identity_auth0.py:377-405 | in every run, who asks once a failed fetch has ended, within 60 s of the last claim, about a kid not recorded absent is told the outage, not "unknown" |
| `JwksDenial.FailureIsNoVerdict` | backend/poseidon/core/identity_auth0.py:407-442 | a failed fetch's riders are told the outage, its own caller the fault, and no kid is recorded |
| `JwksSoundness.UnknownOnlyIfDenied` | backend/poseidon/core/identity_auth0.py:363-405 | in every run with no interrupt before the first publication, "unknown" is told, and a kid recorded, only after a fetch published a map without it; nobody is told so before a fetch has published |
| `JwksSoundness.EarlyInterruptMisleads` | backend/poseidon/core/identity_auth0.py:407-425 | from every reachable state with nothing published, interrupting a fetch leads to a caller told "unknown" before any fetch has succeeded |
| `JwksSoundness.HarmlessInterruptIff` | backend/poseidon/core/identity_auth0.py:407-425 | an interrupt leaves every continuation sound iff some fetch has published by then |
| `JwksSoundness.UnknownIsSoundIff` | backend/poseidon/core/identity_auth0.py:328-468 | with interrupts allowed at any given numbers of publications, "unknown" is always about a fetched map iff none is allowed before the first |
| `JwksFlight.ClaimsPerWindow` | backend/poseidon/core/identity_auth0.py:345-405 | claims are an interval apart by their readings, whatever is asked, so a window holds at most one more than its whole intervals |
| `JwksFlight.SingleFetchIff` | backend/poseidon/core/identity_auth0.py:345-425 | at most one fetch runs at a time iff every fetch ends within the interval of its claim; the marker then names exactly the running one |
| `JwksRelease.RankStep` | backend/poseidon/core/identity_auth0.py:407-442 | how many steps a fetch is from its end only its own thread's steps change, each by one |
| `JwksRelease.RidersAreReleased` | backend/poseidon/core/identity_auth0.py:407-442 | in every interleaving a rider can wake exactly when the fetch's thread has taken as many own steps as it had to go, at most three, and until then that thread has one to take |
| `JwksFlight.ReleasedUndisturbed` | backend/poseidon/core/identity_auth0.py:407-442 | left to itself, and whether its request is to publish, fail or be interrupted, the fetch's thread lets its riders go |
| `JwksSoundness.RiderIsServed` | backend/poseidon/core/identity_auth0.py:427-468 | who rechecks follows a fetch that published, and is served exactly when the latest published map has its kid, with that map's key |
| `JwksFlight.RiderIsServedByItsFetch` | backend/poseidon/core/identity_auth0.py:427-468 | where fetches end within the interval, who rechecks within the interval of the claim is served exactly when the map its own fetch published has its kid |
| `JwksLatest.LaterFetchTakesKeyAway` | backend/poseidon/core/identity_auth0.py:427-468 | the run, every fetch ending at once, in which a rider rechecks an interval after the claim and a later fetch has taken its key away |
| `JwksLatest.OwnFetchDecidesIff` | backend/poseidon/core/identity_auth0.py:427-468 | the fetch's own map decides for every rider that rechecks within a time of its claim iff that time is at most the interval |
| `JwksSystem.PositiveMapWins` | backend/poseidon/core/identity_auth0.py:363-380 | a kid in the key map at decision time is served, whatever the negative map or an outage says |
| `Outbox.ConversationOutbox.Touch` | backend/poseidon/core/personalization/outbox.py:166-184 | re-arms the row: pending, no attempts, no error, a new `last_turn_at` |
| `Outbox.ConversationOutbox.MarkDone` | backend/poseidon/core/personalization/outbox.py:186-223 | done, only if `last_turn_at` is still the claimed one, and says which |
| `Outbox.ConversationOutbox.RecordFailure` | backend/poseidon/core/personalization/outbox.py:225-269 | one more attempt, failed at the ceiling, only if `last_turn_at` is still the claimed one |
| `Worker.ProcessOne` | backend/poseidon/scripts/memory_worker.py:566-804 | the rows it leaves and its outcome, for every encounter, in row values: a failure one attempt more, pending below the ceiling and failed at it, with its error; distilled or trivial done with attempts kept; anything else, or a re-armed row, unchanged |
| `Worker.RunOnce` | backend/poseidon/scripts/memory_worker.py:807-854 | every claimed row is processed in turn, an escaping one costing nothing but itself |
| `Worker.CycleMoves` | backend/poseidon/scripts/memory_worker.py:807-854 | after a cycle each claimed row has moved, in row values, as its own encounter says, whatever the others met, and no other row has |
| `Worker.FailuresAreCounted` | backend/poseidon/scripts/memory_worker.py:755-772 | over any cycles, a conversation whose every distillation fails has one attempt more for each claim, is pending until they reach the ceiling and failed from then on, claimed no more, and keeps the last error |
| `Worker.PendingStaysBelow` | backend/poseidon/core/personalization/outbox.py:225-269 | pending implies attempts below the ceiling, kept by every write and every touch |
| `Worker.BatchProcessed` | backend/poseidon/scripts/memory_worker.py:807-854 | a cycle writes its own batch only and never adds to the backlog |
| `Worker.CycleDrainsIff` | backend/poseidon/scripts/memory_worker.py:807-854 | a cycle shrinks the backlog iff some claimed row is carried to a status write |
| `Worker.TrivialLeavesTheQueue` | backend/poseidon/scripts/memory_worker.py:596-638 | a trivial conversation is done after its first claim, its attempts untouched |
| `Worker.EveryIdleRowSettles` | backend/poseidon/scripts/memory_worker.py:807-854 | with no new touches every idle row is done or failed after as many fruitful cycles as the queue has attempts left, whichever rows keep escaping or have vanished |
| `WorkerStuck.QueueBearsStuckIff` | backend/poseidon/scripts/memory_worker.py:597-613 | every idle row settles within as many cycles as the queue has attempts left, in every queue in which only the given conversations escape, iff these are fewer than a cycle claims |
| `OutboxSystem.Always` | backend/poseidon/scripts/memory_worker.py:81-117 | the invariant of rows, touches, pages and attempts in every run whose touches commit in time or never share a stamp |
| `OutboxRows.StepsMoveRows` | backend/poseidon/scripts/memory_worker.py:596-804 | in the interleaved system a touch re-arms its row, the end of an attempt moves its claimed row as the worker's encounter does, and no other step writes a row |
| `OutboxSafety.NoTurnIsLostIff` | backend/poseidon/scripts/memory_worker.py:81-117 | with at most n messages between two distillations, in every interleaving a done row's touched turns were all shown to an attempt that distilled or to the one that marked it, iff an attempt reads at least n, and no touch commits later than the idle threshold after it began or no two share a stamp |
| `OutboxSafety.ShownAloneIff` | backend/poseidon/scripts/memory_worker.py:249-256 | with conversations of at most n messages, the attempt that marked a row was itself shown every touched turn, under the same condition |
| `OutboxSafety.LongSittingLosesATurn` | backend/poseidon/scripts/memory_worker.py:249-256 | the run of one sitting longer than the page, whose first turn no attempt is ever shown |
| `OutboxSafety.StaleTouchLosesATurn` | backend/poseidon/core/personalization/outbox.py:102-107 | the run in which a late touch of an equal stamp makes a worker mark done a turn it never read |
| `OutboxSystem.CrashLeavesRowPending` | backend/poseidon/scripts/memory_worker.py:345-385 | killed anywhere between claim and status write, an attempt leaves its row as it was, pending and claimable again |
| `Mom.DeltaOf` | backend/poseidon/core/analytics/mom.py:62-65 | the change, and a percentage exactly where the prior value is a base |
| `Mom.DerivedMetrics` | backend/poseidon/core/analytics/mom.py:77-86 | margin and win rate from the sums they are made of |
| `Mom.SideValuesOf` | backend/poseidon/core/analytics/mom.py:112-118 | gross profit, volume, margin and exactly the counts that were summed |
| `Mom.MergeBreakdowns` | backend/poseidon/core/analytics/mom.py:125-142 | one row per key of either month, in key order |
| `Mom.LessIff` | backend/poseidon/core/analytics/mom.py:134-136 | the key order is string order: a proper prefix first, else by the first character that differs |
| `Mom.StatusMeans` | backend/poseidon/core/analytics/mom.py:125-142 | new or lost just when one month lacks the key, and that month then reads zero |
| `Mom.RowShowsItsEntry` | backend/poseidon/core/analytics/mom.py:125-142 | a merged row shows each month's own entry of its key, missing and null as zero, and margins that are quotients of what it shows |
| `Mom.RowHasMetricIff` | backend/poseidon/core/analytics/mom.py:125-142 | and a count iff some entry of either month reports it |
| `Mom.MergeConserves` | backend/poseidon/core/analytics/mom.py:125-142 | on every carried metric, either month's column of the merged rows adds up to that month's breakdown |
| `Mom.TilesAreSums` | backend/poseidon/core/analytics/mom.py:68-100 | a summed tile grows by exactly each row's value, missing and null as zero, in that row's month only |
| `Mom.RatioTiles` | backend/poseidon/core/analytics/mom.py:77-100 | margin and win-rate tiles are quotients of the tiles they are made of, zero without a base, in either month |
| `MomRanking.SortedSorts` | backend/poseidon/core/analytics/mom.py:238-246 | the sort keeps every row and orders by the table's order, ties by key |
| `MomRanking.ShownAreTheBest` | backend/poseidon/core/analytics/mom.py:238-246 | for every metric and every n, negative ones too: each row is shown or omitted once, none omitted sorts before one shown, "Other" is the omitted rows' aggregate, the footer is "Total"; any other metric is an error |
| `MomRanking.LargestAreShown` | backend/poseidon/core/analytics/mom.py:238-246 | the shown rows are the n with the largest current values of the metric, largest first, ties in key order; all but as many for a negative n |
| `MomRanking.OtherIsNamed` | backend/poseidon/core/analytics/mom.py:230-243 | "Other" counts its rows, in the singular of one |
| `MomRanking.AggregateAddsUp` | backend/poseidon/core/analytics/mom.py:218-227 | an aggregate row's summed columns are its rows' columns added up |
| `MomRanking.AggregateMargin` | backend/poseidon/core/analytics/mom.py:218-227 | its margin is the quotient of its own sums, never an average |
| `MomRanking.ShownPlusOtherIsFooter` | backend/poseidon/core/analytics/mom.py:238-246 | shown rows plus "Other" are the footer, in both months, on every summed metric |
| `MomRanking.FooterIsTheTiles` | backend/poseidon/core/analytics/mom.py:94-100 | the footer of any ranking equals the KPI tiles on every metric it has, which are gross profit, volume, margin and the counts either month reports |
| `MomDriver.LabelMeans` | backend/poseidon/core/analytics/mom.py:145-163 | volume- or margin-driven iff that effect is more than 13/7 of the other, unchanged iff both are zero |
| `MomDriver.DriverMeans` | backend/poseidon/core/analytics/mom.py:145-163 | for every row, from its own figures v = change in volume at last month's margin and m = change in margin on this month's volume: volume-driven iff 7 abs(v) > 13 abs(m), margin-driven iff 7 abs(m) > 13 abs(v), unchanged iff both are zero, new and lost by status alone |
| `MomDriver.EffectsAccountForChange` | backend/poseidon/core/analytics/mom.py:145-163 | the two effects miss the change by exactly what the months hold without volume |
| `MomDriver.DriverIdentityIff` | backend/poseidon/core/analytics/mom.py:145-163 | the effects add up to the change iff both months strand the same gross profit; "unchanged" means no change under that condition only |
| `MomDriver.UnchangedCanHideAChange` | backend/poseidon/core/analytics/mom.py:145-163 | a row without volume labelled unchanged whose gross profit rose |
| `MomDriver.DriverIgnoresUnits` | backend/poseidon/core/analytics/mom.py:145-163 | scaling all gross profit or all volume by a positive constant changes no row's place, status or driver |
| `MomMovers.MoversAreTheLargest` | backend/poseidon/core/analytics/mom.py:178-190 | each list holds the largest moves of its direction, each with its own driver |
| `MomMovers.FurthestAreListed` | backend/poseidon/core/analytics/mom.py:178-190 | of the rows whose gross profit rose (fell) the n largest rises (falls) are listed, largest first, ties in key order, each as often as it occurs; what is cut off moved no further |
| `MomMovers.ListedDrivers` | backend/poseidon/core/analytics/mom.py:178-190 | every listed mover's driver is what its own figures say |
| `MomMovers.MoversMakeTheChange` | backend/poseidon/core/analytics/mom.py:178-190 | with none cut off, the listed moves add up to the gross-profit tile's change |

## Left out

- HTTP, FastAPI and Next wiring, S3, LLM providers, JWT signature checking, React stores other than `applyEventTo`: calls into code with nothing of this model's state.
- JSON itself: frames carry their JSON text, which holds no raw line break, and the decoder is a parameter that inverts the printer on it.
- A payload without `markdown` or `tool_seq` reads as JavaScript's `undefined` in every fold; the server's Python would raise on it.
- Ids of text runs and data parts are modelled by what they are printed from (run number, phase, tool sequence number), not by their text.
- The chat SDK's reducer is a specification, as its source is not part of this repository.
- Title computation, run-log writes, logging and trace ids in `stream_turn` and `_process_one`: steps that neither raise nor touch the modelled state; the computed title is an input.
- `Delivery.AtLeastOnceIsOnce`: assumes frames numbered from 1, as every producer numbers them; a frame numbered 0 could never be delivered.
- Fetch attempts are known by number rather than object identity, and each keeps its own thread; the request's answer is an input of the step.
- SQL, row locks and `SKIP LOCKED`: a claim, a touch and a status write are each one step; two workers may claim the same row, which is harder for the proof.
- A turn of the outbox system is the user's message, committed before the touch begins; the assistant's messages count towards a page, but that they are read is not claimed.
- The distillation itself: a message counts as distilled once an attempt that had it on its page has got its answer and written what it wrote; two workers overwriting each other's memory version are not followed. Messages are listed in the order they were committed.
- `OutboxSafety.ShownAloneIff`: for a clock that repeats stamps and touches that commit too late, speaks of bounds of four messages and more.
- Memory entries, their versions and stamps, and the reader's guards in `_process_one` other than the ones that decide the status write.
- `Worker.EveryIdleRowSettles`: counts the attempts left to all pending rows, not the idle ones only, so that it needs nothing said of the rows that become idle meanwhile; a cycle is fruitful when it finds nothing to claim or carries some claimed row to its status write.
- Float rounding and `math.fsum`: sums and quotients are exact reals. Formatting, `share`, `reconciles` and `new_lost`.
