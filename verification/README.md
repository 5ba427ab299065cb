# Verified models of the memory server's runtime

The repository is a memory server for language-model agents. This project models the parts of its runtime
that are state machines or algorithms, and proves what they keep over every run.

| file | models |
|---|---|
| `Sessions.dfy`, `SessionStore.dfy` | the session store: process memory and a Redis copy with its own expiry |
| `Protocol.dfy` | protocol version negotiation at initialize |
| `Dispatcher.dfy`, `Semaphore.dfy`, `Slots.dfy` | the LLM fallback chain with its deadline, the slots it takes, and dispatches sharing them |
| `Queue.dfy` | the reliable queue, and the batch worker's protocol over it |
| `OAuth.dfy` | authorization codes, access and refresh tokens, in memory |
| `RateLimiter.dfy`, `RotateLimiter.dfy` | the two request limiters |
| `Migrate.dfy` | the database migration runner |
| `Csv.dfy`, `Quantile.dfy`, `LogTail.dfy`, `WorkingMemory.dfy`, `Cosine.dfy` | rendering, estimation and selection algorithms, each against an independent definition |
| `Options.dfy`, `Reals.dfy` | `Option`, `Result`, `Min`, `Max`; products of reals |

Where the source updates state in place, a class has its fields and a method per operation; each method is
proved equal to one step of a specification, and the run-level lemmas are about that specification. Clocks are
integers in milliseconds that never go back. Random identifiers are names not in use. Answers of other systems
(the key store, the network, a provider, PostgreSQL) are arbitrary inputs.

Findings where the code does less, or other, than one would think:

- **Session window.** A Redis copy outlives its stored expiry by less than a second only if the cache lifetime
  is the session lifetime rounded up and sessions last over 59 s; an overridden `CACHE_SESSION_TTL` breaks it
  (`WindowIffSoundTtl`). Under a sound configuration the one other thing that breaks it, for a while, is writing the
  negotiated version back with 59 s or less to go (`WindowedThroughoutIffAllowed`, `LateNegotiationReachable`).
- **Revival.** Restoring a session from Redis skips the expiry check. A copy can be revived after a second more of
  idling than the session life exactly if its deadline is a second past its stored expiry, and be lost too early exactly
  if it is before it (`RevivalInBoundsIffInWindow`). Under a sound configuration neither happens to an id whose own
  write-backs were in time (`RevivalBoundedByIdleTime`); one late write-back is enough (`OverdueRevivalReachable`).
- **Sweeper.** With write-backs in time, sweeping is invisible to every later request exactly when no session is
  expired in memory while Redis would still return it (`SweepTransparentIffNoLimbo`). Four steps reach such a state
  (`LimboReachable`). A late write-back can revive any expired session that was not swept, so over all runs sweeping
  is invisible exactly when Redis is off or nothing in memory has expired (`SweepTransparentToAllIff`).
- **Tenant check.** `lib/handlers/mcp-handler.js` reads the Redis copy at line 160 and writes the session at line 182.
  Requests handled without interruption never re-key a live session, with or without Redis
  (`UninterruptedHandlersKeepKeys`). The check itself is decisive at the moment it is made exactly when Redis is enabled
  and keeps new copies at least as long as sessions live; with a shorter `CACHE_SESSION_TTL` it passes for a session
  live under another key (`CheckDecidesIffCopiesCover`). Nor does it protect the write: two recoveries of one id whose
  checks both pass first end with the second key on a live session, Redis or not (`RecoveryRace`), and a restoration
  that read its copy early can do the same (`RestorationRace`). Exactly: a run keeps all keys if and only if each such
  write finds its id dead or under the key it writes (`KeysKeptIffAllClean`).
- **Erased ids.** A closed or rotated-out id stays gone exactly until a step names it that creates a session whatever
  was there (`ErasedStaysGone`). A restoration that read its copy before a rotation is one: old and new id are then both
  live (`RotatedIdReturns`).
- **Versions.** `lib/sessions.js:170-172` wants no unsupported version written to a session. Initialize grants any
  date up to the newest version verbatim (`Protocol.NegotiateProtocolVersion`), such as 2025-01-01
  (`Protocol.OldDateExists`), and that grant is then stored (`UnsupportedVersionReachable`); it is the only way in
  (`OnlySupportedVersionsStored`, `VersionsKeptIffGrantSupported`).
- **Rotation limiter.** The header promises a sliding minute; the code is a fixed window opened by its first
  grant, so a minute can hold `2L - 1` grants, and the promise holds only for a limit of one.
- **Queue recovery.** The comment at `lib/redis.js:619-621` says recovered items run first; they run last, and first
  only if there are no others (`RecoveredServedLast`, `RecoveredFirstIff`).
- **Quantile.** The comment at `lib/admin/admin-metrics.js:244` speaks of interpolating the first bucket; the
  code returns its bound.
- **Cosine.** The documented range 0 to 1 is really -1 to 1: [1] and [-1] score -1 (`OppositesScoreMinusOne`), and
  the score is from 0 up exactly when the dot product is (`CosineSimilarity`). A score of 1 means equal directions,
  not equal vectors (`ScoreOneIffSameDirection`).

## Model

| member | source | states |
|---|---|---|
| Sessions.WindowIffSoundTtl | lib/sessions.js:142-256 | over all runs whose version write-backs come with more than 59 s to go, each Redis copy is forgotten no earlier than its stored expiry and less than 1000 ms after it, if and only if the TTL configuration is sound |
| Sessions.WindowedThroughoutIffAllowed | lib/handlers/mcp-handler.js:380-394 | under a sound configuration any run stays in the window at every step if and only if all its version write-backs come with more than 59 s to go |
| Sessions.LateNegotiationReachable | lib/handlers/mcp-handler.js:391 | under every sound configuration a run from the empty store leaves the window by one late write-back |
| Sessions.WindowBroken | lib/sessions.js:144-146 | an unsound TTL configuration leaves the window after one creation or one creation and validation |
| Sessions.RunPairAt | lib/sessions.js:174-260 | every run of every operation keeps, for each id and under every configuration, ages, the agreement of both copies, and that the copy outlives the session if new copies do |
| Sessions.RunWindowAt | lib/sessions.js:174-260 | under a sound configuration every run whose write-backs to an id are in time keeps that id's copy in its window |
| Sessions.WindowedIffTimelyFor | lib/handlers/mcp-handler.js:380-394 | and at every step of the run, whatever happens to other ids, if and only if those write-backs are in time |
| Sessions.NegotiateInWindowIffInTime | lib/handlers/mcp-handler.js:380-394 | persisting the negotiated version keeps the copy in its window if and only if over 59 s of the session remain |
| Sessions.RevivalBoundedByIdleTime | lib/sessions.js:177-230 | under a sound configuration, if the write-backs to this id were in time: a session missing from memory is revived if it was idle for at most the session life, and never if idle a second more |
| Sessions.RevivalInBoundsIffInWindow | lib/sessions.js:177-230 | after any run under any configuration: a later moment revives a readable copy a second too late if and only if its deadline is a second past its expiry, a later moment misses it too early if and only if the deadline is before it, and neither if and only if it is in its window |
| Sessions.OverdueRevivalReachable | lib/handlers/mcp-handler.js:391 | under every sound configuration with Redis one late write-back and a restart leave a session that is revived after a second more than its life |
| Sessions.CopiesAgree | lib/sessions.js:174-260 | after any run under any configuration with Redis, a session in memory has a copy agreeing in context and times; if new copies live as long as new sessions, it is readable as long as the session is live |
| Sessions.ValidIffLive | lib/sessions.js:174-260 | validation accepts exactly the live sessions, slides both copies' expiry, keeps the session's context, erases an expired session from both stores and touches no other |
| Sessions.RestoreReanchors | lib/sessions.js:210-230 | a restored session takes the requested supported version in both copies; a session in memory keeps its own |
| Sessions.ServedRequestLeaves | lib/handlers/mcp-handler.js:209-243 | a request on a live session fills in missing group keys if its key has some, marks it authenticated if the request is, renews its times and changes nothing else; Redis gets the same but for the mark; it is served exactly if the session was or becomes authenticated |
| Sessions.LostRequestLeaves | lib/handlers/mcp-handler.js:147-207 | a request on a dead session leaves nothing, or makes the id a new session of whom it authenticates as |
| Sessions.CreationLeaves | lib/sessions.js:40-149 | creation and recovery put one new session, all its times now, in both stores and touch no other |
| Sessions.NegotiationLeaves | lib/handlers/mcp-handler.js:380-394 | the write-back changes the version in both stores, nothing else in memory, and keeps the copy for 60 s and the session's life at least |
| Sessions.ReanchorLeaves | lib/handlers/mcp-handler.js:325-356 | re-anchoring takes supported versions only and is not written to Redis |
| Sessions.ClosingLeaves | lib/sessions.js:270-279 | closing erases a session of this process from both stores and leaves every other id alone |
| Sessions.SweepLeaves | lib/sessions.js:522-553 | the sweeper keeps exactly the unexpired sessions and marks those that were reflected, idle beyond the idle time and not marked within it |
| Sessions.CheckRefusesStrangers | lib/handlers/mcp-handler.js:158-167 | after every run the check never refuses a session's own key, and refuses another exactly while the copy can be read |
| Sessions.OnlySupportedVersionsStored | lib/sessions.js:168-172 | no run, restorations of copies read earlier included, stores an unsupported version as long as initialize grants supported ones only |
| Sessions.UnsupportedVersionReachable | lib/handlers/mcp-handler.js:380-394 | one creation and one write-back of an unsupported grant store that version |
| Sessions.VersionsKeptIffGrantSupported | lib/handlers/mcp-handler.js:380-394 | writing back a granted version keeps all stored versions supported if and only if that one is |
| Protocol.NegotiateProtocolVersion | lib/jsonrpc.js:66-110 | the granted version is supported if and only if the client did not name an unknown date up to the newest; the fallback is the newest for later dates and the oldest for non-dates |
| Protocol.OldDateExists | lib/config.js:42-49 | the shipped version list is dated newest first, and 2025-01-01 is a date the negotiation grants without listing it |
| Sessions.ValidatePairAt | lib/sessions.js:174-260 | validation, with restoring, keeps both copies of every id paired under any configuration, and in the window under a sound one |
| Sessions.RefreshPairAt | lib/handlers/mcp-handler.js:217-240 | refilling missing group keys and authenticating right after validation keep both copies paired and in the window |
| Sessions.KeysKeptIffAllClean | lib/handlers/mcp-handler.js:158-191 | for any interleaving of reads, writes and whole requests, with or without Redis and for any lifetimes: no step re-keys a live session if and only if each restoration or recovery write finds its id dead or live under the key it writes |
| Sessions.KeyKeptIffClean | lib/handlers/mcp-handler.js:131-244 | the same for one step: only such a write can re-key a live id, and it does exactly if it finds another key |
| Sessions.UninterruptedHandlersKeepKeys | lib/handlers/mcp-handler.js:131-244 | over every run of requests handled one after the other, no live session changes its key |
| Sessions.CheckDecidesIffCopiesCover | lib/handlers/mcp-handler.js:158-167 | after every run, late write-backs included, a passed check means the id is not live under another key at that moment, if and only if Redis is enabled with a cache lifetime of at least the session lifetime |
| Sessions.CheckMisleads | lib/config.js:92 | otherwise a grounded run of one creation and one wait ends with a check that passes for a session live under another key |
| Sessions.RecoveryRace | lib/handlers/mcp-handler.js:160-191 | under every configuration two recoveries that both check before either writes re-key a live session |
| Sessions.RestorationRace | lib/sessions.js:177-230 | from any state after a restart with a readable copy, a restoration that read the copy before a close and a recovery by another key puts the old key back |
| Sessions.RecoveryAfterFailedValidation | lib/handlers/mcp-handler.js:147-195 | directly after a failed validation recovery is never refused, and gives the id to the caller in both stores |
| Sessions.RotateFailure | lib/sessions.js:394-407 | a failed rotation creates nothing and touches no other session; it is "not found" exactly when the old id is in neither store |
| Sessions.RotateSuccess | lib/sessions.js:409-447 | a rotation erases the old id from both stores, gives the new id the same context in both, and changes nothing else |
| Sessions.ErasedStaysGone | lib/sessions.js:270-279 | after a close or a rotation the id is gone at every step of the rest of the run if and only if no step is a creation, a handler's write, a recovering request or a rotation onto it |
| Sessions.RotatedIdReturns | lib/sessions.js:177-230 | a restoration that read its copy before a rotation leaves the rotated-out id live beside the new one |
| Sessions.RotateNeverStrands | lib/sessions.js:417-440 | after every single store write of a rotation the old or the new session can still be reached |
| Sessions.SweepTransparentIffNoLimbo | lib/sessions.js:522-553 | sweeping changes no answer of any later run with write-backs in time if and only if no session is expired in memory and readable in Redis |
| Sessions.SweepTransparentToAllIff | lib/sessions.js:522-553 | sweeping changes no answer of any later run, late write-backs included, if and only if Redis is off or nothing in memory has expired |
| Sessions.LimboRevealed | lib/sessions.js:528-534 | for a session in limbo a restart and a validation tell a swept store from an unswept one |
| Sessions.LimboReachable | lib/handlers/mcp-handler.js:391-392 | under every sound configuration with Redis a run of at most four timely steps from the empty store puts a session in limbo |
| Sessions.RunShadow | lib/sessions.js:174-260 | two stores that differ only in dead sessions and reflection times answer every run with write-backs in time alike |
| SessionStores.SessionStore.ValidateStreamableSession | lib/sessions.js:174-260 | the method performs exactly the validation step and answers its verdict |
| SessionStores.SessionStore.CreateStreamableSessionWithId | lib/sessions.js:40-149 | the method performs exactly the creation step in both stores |
| SessionStores.SessionStore.CloseStreamableSession | lib/sessions.js:270-279 | closing removes the session from both stores, or from memory alone when Redis is to be preserved |
| SessionStores.SessionStore.RotateSession | lib/sessions.js:383-448 | the method passes through exactly the states of the rotation trace |
| SessionStores.SessionStore.CleanupExpiredSessions | lib/sessions.js:522-553 | the sweeping loop removes exactly the expired sessions and marks the idle ones reflected |
| SessionStores.SessionStore.ResolveExistingSession | lib/handlers/mcp-handler.js:209-243 | the handler's valid branch performs exactly the resolve step |
| SessionStores.SessionStore.InstallCopy | lib/sessions.js:192-230 | the part of a restoration after the read writes both stores whatever they hold by then |
| SessionStores.SessionStore.CheckRecovery | lib/handlers/mcp-handler.js:158-167 | the check refuses exactly when a readable Redis copy belongs to another key |
| SessionStores.SessionStore.CommitRecovery | lib/handlers/mcp-handler.js:182-191 | the write of a recovery creates the session in both stores without another look |
| SessionStores.SessionStore.HandleRequest | lib/handlers/mcp-handler.js:131-244 | validation, resolution and recovery in one go perform exactly the request step |
| SessionStores.SessionStore.PersistNegotiatedVersion | lib/handlers/mcp-handler.js:380-394 | the method performs exactly the negotiation step |
| SessionStores.SessionStore.ShutDown | server.js:393-398 | a graceful shutdown leaves the store as a plain restart does, with every Redis copy kept |
| Dispatcher.DispatchChain | lib/llm/index.js:159-272 | the loop over the chain returns the value, log, end time and exit of the chain's recursive definition, and "no provider" exactly for an empty chain |
| Dispatcher.TryProvider | lib/llm/index.js:187-268 | one provider's turn, on all its paths, logs and ends as the definition says |
| Dispatcher.DispatchMeetsDeadline | lib/llm/index.js:173-185 | if waits and calls honour their timeouts, dispatching ends by the chain deadline for every chain, and starts no call after it |
| Dispatcher.FromInTime | lib/llm/index.js:180-271 | from any position and time the rest of the chain is over by the deadline, and each call's timeout fits before it |
| Dispatcher.FromCallsWellTimed | lib/llm/index.js:353-372 | every call is made before the deadline and gets the first configured timeout, cut to what is left of the chain |
| Dispatcher.FromWaitsWellTimed | lib/llm/index.js:199-203 | every slot wait starts before the deadline with the configured time, cut to what is left of the chain, and at least 1 ms when that is limited |
| Dispatcher.FromTimeline | lib/llm/index.js:180-271 | replaying the log against the environment: each wait and call starts when the one before ended and ends as the environment says, and the last ends the dispatch |
| Dispatcher.FromFreesSlots | lib/llm/index.js:198-245 | every exit leaves no slot held; slots are taken one at a time, released by their taker, and calls happen only while holding one |
| Dispatcher.FromSlotCounts | lib/llm/index.js:198-245 | each provider's slot is taken at most once and released exactly as often |
| Dispatcher.FromEarliestSuccess | lib/llm/index.js:180-271 | a returned value is the first success in chain order: all before failed, none after was tried; without a deadline a failed chain tried everyone |
| Dispatcher.FromAnswers | lib/llm/index.js:224-234 | the returned value is the reply to a logged call of that provider, and ends the dispatch |
| Dispatcher.FromTally | lib/llm/index.js:196-244 | attempts minus successes minus failures is 1 if a slot wait was cut short and 0 otherwise |
| Dispatcher.TallyIffFatalWait | lib/llm/index.js:196-244 | so the counters differ by one if and only if a slot wait timed out at or after the deadline |
| Dispatcher.FromCutWaiting | lib/llm/index.js:204-209 | a dispatch is cut short if and only if one of its logged slot waits timed out at or after the deadline |
| Dispatcher.FromWaits | lib/llm/index.js:200-214 | every logged time-out is what the wait started then returned; the provider failed, unless the deadline had passed: then it is the last event and the end |
| Dispatcher.FromNotes | lib/llm/index.js:178-271 | the final error names exactly the providers that failed, and the deadline only if it passed |
| Dispatcher.FromNotesTrue | lib/llm/index.js:204-262 | every reason in the final error is true of the log: the refusal it quotes was a call's, the wait it blames timed out in time, the slot it regrets came too late |
| Semaphores.Semaphore.Acquire | lib/llm/util/semaphore.js:31-46 | a slot is granted exactly when one is free, otherwise the caller joins the end of the queue |
| Semaphores.Semaphore.Release | lib/llm/util/semaphore.js:51-60 | a freed slot goes to the longest waiter, or back to the pool when nobody waits; slots are conserved |
| Semaphores.Semaphore.TimeOut | lib/llm/util/semaphore.js:37-45 | a waiter whose time ran out leaves the queue, the others keep their order, and no slot moves |
| Semaphores.ReleaseKeepsSound | lib/llm/util/semaphore.js:51-60 | a release keeps holders within the limit and no slot idle while somebody waits; the count drops only if nobody waits |
| Slots.CallsWithinLimit | lib/llm/index.js:198-245 | over every schedule of any number of dispatches, calls in flight to one key never exceed its limit |
| Slots.NobodyOvertakes | lib/llm/util/semaphore.js:31-60 | over every schedule, nobody gets a slot while somebody who asked for it earlier is still waiting |
| Slots.WaitersInOrder | lib/llm/util/semaphore.js:44 | in every reachable state the waiters of a semaphore stand in the order of their asks |
| Slots.NoSlotLeaks | lib/llm/index.js:242-245 | when all dispatches are over, whatever the schedule, no semaphore has a holder or a waiter |
| Slots.RunKeepsInv | lib/llm/util/semaphore.js:31-60 | at every moment a semaphore knows exactly the dispatches that hold its slot by their own log or are asking for it |
| Slots.DispatchBalanced | lib/llm/index.js:159-272 | every dispatch, for any chain and environment, is one of the jobs these hold for |
| Queues.ReliableQueue.PopFromQueueReliable | lib/redis.js:584-594 | the tail of the queue moves to the head of the processing list; nothing pushed is lost or doubled |
| Queues.ReliableQueue.AckQueueItem | lib/redis.js:606-614 | the first matching item leaves the processing list and counts as acknowledged, and the answer tells whether there was one |
| Queues.ReliableQueue.PushToQueue | lib/redis.js:529-539 | a pushed item is served after everything waiting |
| Queues.ReliableQueue.PushToQueuePriority | lib/redis.js:547-557 | a priority item is served next |
| Queues.ReliableQueue.RequeueProcessing | lib/redis.js:626-641 | recovery terminates with nothing in flight and the queue being the old in-flight items followed by the old queue |
| Queues.ReliableQueue.Settle | lib/memory/write/BatchRememberWorker.js:102-130 | a job is acknowledged only after it succeeded or was parked for retry or as dead; if parking fails it stays in flight |
| Queues.PopManySplits | lib/redis.js:584-594 | popping k items moves exactly the last k, in order, to the processing list |
| Queues.SubmissionServed | lib/redis.js:529-557 | a submitted or retried job is served after all waiting ones, an urgent one next |
| Queues.PopServed | lib/redis.js:584-594 | a worker gets the job to be served next, and it is in flight from then on |
| Queues.RecoveredServedLast | lib/redis.js:616-641 | after a crash with k jobs in flight and a recovery, all waiting jobs are served first, then the recovered ones in their first order |
| Queues.RecoveredFirstIff | lib/redis.js:616-624 | for distinct jobs the recovered ones come first if and only if none was recovered or no other waits |
| Queues.RunConserves | lib/redis.js:529-641 | over every interleaving of workers, crashes, retries, acknowledgements and item-wise recoveries, all ever pushed is what waits, is in flight or was acknowledged, with multiplicity |
| Queues.AckedAtMostOnce | lib/redis.js:596-614 | an envelope is acknowledged at most as often as it was pushed, and equally often exactly when none is left in the queue; pushed once, it is acknowledged at most once |
| Queues.UndisturbedRecovery | lib/redis.js:626-641 | item-wise recovery without interruption ends where the recovery loop of the class does |
| Queues.NoJobLost | lib/memory/write/BatchRememberWorker.js:69-130 | over every interleaving of workers, crashes between steps, failed dispositions and recoveries the protocol's invariant holds |
| Queues.NoJobLostFromEmpty | lib/memory/write/BatchRememberWorker.js:69-130 | every submitted job is done, dead-lettered or still queued, and only jobs with all retries used are dead-lettered |
| Queues.StepKeepsBeyond | lib/memory/write/BatchRememberWorker.js:113-129 | no step, an acknowledgement included, sets a job back from how far it has come |
| OAuth.GrantsAreSingleUse | lib/oauth.js:272-435 | over every run a code or refresh token is exchanged at most once, a code has at most one live refresh token, and stored tokens keep the code's client and scope and lose none of its key binding |
| OAuth.TriedStaysGone | lib/oauth.js:351-377 | over every run a code or live refresh token once tried, successfully or not, is never stored again and every request with it is refused |
| OAuth.BindingsSurviveRefreshes | lib/oauth.js:297-334 | over every run and along every chain of refreshes, each token keeps client and scope of every earlier one and loses no API key flag or binding it had |
| OAuth.ChainHandsOn | lib/oauth.js:297-334 | the same between any two links of a chain, which also share their code |
| OAuth.RunKeepsInv | lib/oauth.js:117-535 | every run keeps the history's invariant |
| OAuth.SpentStaysSpent | lib/oauth.js:359-372 | a code or refresh token that was exchanged once is refused ever after |
| OAuth.AuthorizeIff | lib/oauth.js:117-219 | a code is issued if and only if the request is complete, S256 and by an admitted client; it carries the request's redirect, challenge, scope and resource and the key exactly a registration binds, and nothing else changes |
| OAuth.AuthorizeErrors | lib/oauth.js:126-197 | which refusal is given: response type first, unknown client only for complete requests, invalid request otherwise |
| OAuth.TokenErrors | lib/oauth.js:272-356 | unsupported grant, missing parameter or invalid grant, each exactly when |
| OAuth.RedeemIff | lib/oauth.js:351-424 | a code is exchanged if and only if it is stored, alive, and redirect and verifier match; any attempt burns it, and only a success stores tokens, two of them, with their lifetimes |
| OAuth.RefreshIff | lib/oauth.js:272-334 | a refresh token works if and only if it is stored and alive, and is gone afterwards either way |
| OAuth.RefreshHandsOn | lib/oauth.js:297-334 | both new tokens carry the old client and scope, and its key binding unless a secret rebinds it |
| OAuth.RedeemAnswer | lib/oauth.js:382-435 | the answer to a code exchange names a new access token that validates at once and a new refresh token that works at once, with the code's client, scope and binding and their lifetimes; they are the only new names |
| OAuth.RefreshAnswer | lib/oauth.js:297-344 | the same for the answer to a refresh, with the old token gone |
| OAuth.ValidateIff | lib/oauth.js:441-467 | a token validates if and only if it is a stored, unexpired access token, to what is stored for it; an expired one is deleted and nothing else changes |
| OAuth.AccessTokensLiveExactly | lib/oauth.js:441-467 | over every run an access token validates until its expiry and never after, as its code's client with its code's scope |
| OAuth.GrantsLiveExactly | lib/oauth.js:272-424 | over every run a code or refresh token works if and only if it was issued, not tried before, unexpired, and, for a code, redirect and verifier match |
| OAuth.CleanupExact | lib/oauth.js:513-535 | the cleanup leaves exactly what has not expired, unchanged |
| OAuth.StepOneRefresh | lib/oauth.js:326-334 | no step gives a code a second live refresh token |
| OAuth.OAuthServer.HandleAuthorize | lib/oauth.js:117-236 | the endpoint's branches issue or refuse a code exactly as the step says |
| OAuth.OAuthServer.HandleToken | lib/oauth.js:241-436 | the endpoint's branches issue or refuse tokens exactly as the step says |
| OAuth.OAuthServer.RefreshGrant | lib/oauth.js:272-344 | the refresh branch stores two new tokens and deletes the old one |
| OAuth.OAuthServer.ValidateAccessToken | lib/oauth.js:441-467 | a token validates to its identity exactly when stored, an access token and unexpired; an expired one is deleted |
| OAuth.OAuthServer.CleanupExpiredOAuthData | lib/oauth.js:513-535 | the cleanup removes exactly the expired codes and tokens |
| RateLimiters.LimiterIsExact | lib/rate-limiter.js:24-44 | after any run a request is granted if and only if fewer than the limit of all grants to its key lie in the window, and no window-long span holds more than the limit |
| RateLimiters.CleanupsInvisible | lib/rate-limiter.js:46-56 | cleanups inserted anywhere change no answer of any run |
| RateLimiters.CleanupExact | lib/rate-limiter.js:46-56 | after a cleanup each key has exactly its grants still in the window, and keys without any are gone |
| RateLimiters.PruneKept | lib/rate-limiter.js:34-36 | the pruned bucket holds exactly the grants of the current window |
| RateLimiters.RateLimiter.Allow | lib/rate-limiter.js:24-44 | the method answers and updates its bucket as the step says |
| RateLimiters.RateLimiter.Cleanup | lib/rate-limiter.js:46-56 | the method keeps exactly the non-empty pruned buckets |
| RotateLimiters.MinuteBound | lib/handlers/_rotate-ratelimit.js:50-72 | over every run no half-open minute grants one address more than 2L - 1 requests |
| RotateLimiters.BurstAttains | lib/handlers/_rotate-ratelimit.js:50-72 | for every limit some run reaches 2L - 1 |
| RotateLimiters.SlidingMinuteIffLimitOne | lib/handlers/_rotate-ratelimit.js:1-10 | the documented sliding minute of at most L grants holds if and only if L is 1 |
| RotateLimiters.RetryAfterIsExact | lib/handlers/_rotate-ratelimit.js:62-66 | a denial changes nothing and names the least whole number of seconds, 1 to 60, after which the address is served |
| RotateLimiters.GrantCounts | lib/handlers/_rotate-ratelimit.js:57-71 | a grant asks for no retry and is counted in its window |
| RotateLimiters.ConfiguredBurst | lib/handlers/_rotate-ratelimit.js:18-21 | of requests at once from a new address exactly the configured positive number is granted, or five |
| RotateLimiters.NewWindowSplits | lib/handlers/_rotate-ratelimit.js:57-60 | when a window opens, fewer than L earlier grants can share a minute with it |
| RotateLimiters.RotateLimiter.CheckRotateRateLimit | lib/handlers/_rotate-ratelimit.js:50-72 | the method answers and updates the address's entry as the step says |
| Csv.CsvRoundTrip | lib/cli/_format.js:106-118 | reading the rendered text returns exactly the header and cell texts, whatever they contain |
| Csv.CsvReadsCells | lib/cli/_format.js:106-118 | cell by cell the reader gets the header and each row's texts, empty where there is no value |
| Csv.QuotedOnlyIfNeeded | lib/cli/_format.js:107-113 | a text is quoted exactly if it has a comma, quote, LF or CR |
| Csv.RoundTripIffColumns | lib/cli/_format.js:106-118 | the round trip holds if and only if there is a column |
| Csv.RenderingInjective | lib/cli/_format.js:106-118 | tables that render alike have equal texts |
| Csv.FieldRoundTrip | lib/cli/_format.js:107-113 | an escaped cell followed by a separator reads back as the cell and that rest |
| Csv.RecordsRoundTrip | lib/cli/_format.js:115-117 | joined records read back as the same records |
| Quantiles.EstimateQuantile | lib/admin/admin-metrics.js:215-268 | the method returns the rounded, scaled estimate over the sorted buckets and the last total, and 0 without any |
| Quantiles.CollectBuckets | lib/admin/admin-metrics.js:218-236 | the first loop gathers the matching finite buckets and the +Inf total |
| Quantiles.ScanBuckets | lib/admin/admin-metrics.js:242-267 | the scan returns the estimate at the first bucket the target fits in |
| Quantiles.EstimateInSampleBucket | lib/admin/admin-metrics.js:242-267 | the estimate falls in the bucket of the nearest-rank sample, on the bound itself in the first bucket, and on the last bound when the sample is beyond all |
| Quantiles.EstimateInterpolates | lib/admin/admin-metrics.js:251-262 | inside the sample's bucket the estimate divides its width as the target rank divides its count |
| Quantiles.ReportNearest | lib/admin/admin-metrics.js:262 | the answer is the whole number nearest to the scaled estimate |
| Quantiles.NearestRankExists | lib/admin/admin-metrics.js:211 | that sample is one of the samples, is unique, and exists if and only if 0 < q <= 1 |
| Quantiles.OutsideQuantiles | lib/admin/admin-metrics.js:244-267 | at q = 0 the answer is the first bound, above 1 the last |
| Quantiles.EstimateMonotone | lib/admin/admin-metrics.js:242-267 | a higher quantile never gets a lower estimate, also after scaling and rounding |
| Quantiles.FitHasWidth | lib/admin/admin-metrics.js:256-259 | the zero-width branch is never taken |
| Quantiles.SortedSeriesIsHistogram | lib/admin/admin-metrics.js:240 | in whatever order a series is exported, sorting recovers the histogram of its samples |
| Quantiles.ExportedEstimate | lib/admin/admin-metrics.js:215-268 | from exported lines in any order, among any others, the estimate falls in the bucket of the nearest-rank sample |
| Quantiles.ExportedTotal | lib/admin/admin-metrics.js:230-231 | the +Inf line among them gives the number of samples |
| LogTail.ReadTail | lib/admin/admin-logs.js:88-107 | the backward chunked reader returns exactly the last `tail` non-empty lines of the whole file, or all if there are fewer |
| LogTail.SplitJoins | lib/admin/admin-logs.js:100 | splitting cuts at every newline and nowhere else |
| LogTail.NonEmptyExact | lib/admin/admin-logs.js:100 | the filter drops the empty lines and nothing else |
| LogTail.SuffixDecidesLast | lib/admin/admin-logs.js:95-103 | a suffix with more than n lines already shows the last n lines of the whole text |
| LogTail.Merge | lib/admin/admin-logs.js:109-118 | every line from the first header-shaped one on is in exactly one entry, in order, each entry starting at a header |
| LogTail.MessageLines | lib/admin/admin-logs.js:113-117 | an entry's message is the header's message and its continuation lines, one per line |
| LogTail.GroupsUnique | lib/admin/admin-logs.js:109-118 | there is only one such grouping |
| WorkingMemories.WorkingMemory.AddToWorkingMemory | lib/memory/FragmentIndex.js:241-264 | adding appends the entry to what has not expired, enforces the budget and restarts the 24 hours, for that session only |
| WorkingMemories.WorkingMemory.GetWorkingMemory | lib/memory/FragmentIndex.js:272-284 | reading returns the list until 24 hours after its last addition and nothing later |
| WorkingMemories.WorkingMemory.ClearWorkingMemory | lib/memory/FragmentIndex.js:320-323 | clearing empties that session's list only |
| WorkingMemories.WorkingMemory.EnforceWmBudget | lib/memory/FragmentIndex.js:290-315 | the session's list becomes the enforced list, the others stay |
| WorkingMemories.PickEvicted | lib/memory/FragmentIndex.js:297-305 | dropping the picked positions leaves exactly the enforced list |
| WorkingMemories.EnforceMeetsBudget | lib/memory/FragmentIndex.js:286-315 | protected items and order are kept, 500 tokens are met or only protected items remain, and the shortest sufficient prefix of unprotected items is evicted |
| WorkingMemories.ImportantStay | lib/memory/FragmentIndex.js:295-302 | nothing more important than 0.8 is evicted, and beyond 500 tokens nothing else is left |
| WorkingMemories.EntryDefaults | lib/memory/FragmentIndex.js:247-255 | a missing or zero estimate becomes a quarter of the length rounded up, a missing or zero importance 0.5 |
| WorkingMemories.MemoryAfterRun | lib/memory/FragmentIndex.js:241-323 | whenever it is read after any additions and clearings, the memory is what one enforcement of the budget leaves of all added since the last clearing or 24 hours' pause |
| WorkingMemories.MemoryRemembers | lib/memory/FragmentIndex.js:286-315 | that is, in order, all protected items and the longest run of most recent unprotected ones that fits the 500 tokens beside them |
| WorkingMemories.EnforceTwice | lib/memory/FragmentIndex.js:290-315 | enforcing the budget before and after more additions leaves what enforcing it once at the end does |
| Cosine.CosineSimilarity | lib/tools/embedding.js:266-285 | unequal lengths are refused; otherwise the score lies in [-1, 1], times the norms is the dot product, and is from 0 up if and only if the dot product is |
| Cosine.OppositesScoreMinusOne | lib/tools/embedding.js:264 | [1] and [-1] score -1 |
| Cosine.ScoreOneIffSameDirection | lib/tools/embedding.js:264 | for non-zero vectors the score is 1 if and only if their normalised vectors are equal |
| Cosine.CauchySchwarz | lib/tools/embedding.js:275-284 | the squared dot product is at most the product of the squared norms |
| Cosine.ScoreIsNormalizedDot | lib/tools/embedding.js:38-42 | for non-zero vectors the score is the plain dot product of the normalised vectors |
| Cosine.NormalizedHasUnitNorm | lib/tools/embedding.js:38-42 | a non-zero vector is normalised to norm 1 |
| Cosine.NormalizedComponents | lib/tools/embedding.js:38-42 | each component times the norm is the old one; a zero vector is left alone |
| Migrate.EffectsCommittedOnce | scripts/migrate.js:52-154 | whatever runners start, fail or crash, each file is committed at most once, recorded names are the committed effects, and at most one runner is past the lock |
| Migrate.FinishedRunAppliedAll | scripts/migrate.js:102-146 | a finished run leaves all its files applied, its pending ones last and in sorted order |
| Migrate.RecordNeverRefused | scripts/migrate.js:135-138 | thanks to the lock, recording the current file never meets a duplicate key |
| Migrate.OnlyCommitsPublish | scripts/migrate.js:120-146 | only a commit changes the database, publishing one file's effect and record together |
| Migrate.LockNeverStuck | scripts/migrate.js:52-154 | over every run a waiting runner can take the lock if and only if no other is at work, whoever failed or crashed before |
| Migrate.RunKeepsInv | scripts/migrate.js:52-154 | every run keeps the holder's remaining work equal to what the database lacks |
| Migrate.Database.ApplyPending | scripts/migrate.js:111-146 | the loop applies the pending files in order up to the first failing one, which leaves no trace |
| Migrate.PendingMembers | scripts/migrate.js:111 | pending are exactly the files not yet recorded |
| Migrate.PendingOrdered | scripts/migrate.js:107-111 | the pending files keep the sorted order |

## Left out

- HTTP, SSE, heartbeats, logging, metrics other than the dispatcher's three counters: no property of their own.
- Redis and network failures inside a step: every store write succeeds, as the source's failure paths only log.
- Requests interleave between the read and the write of a restoration and of a recovery; at the other awaits (closing, the group key lookup, the writes of a rotation) they do not.
- Redis refuses a lifetime that is not a positive whole number of seconds; the model takes any whole number, one of zero or less as an entry that is over.
- Session objects are values in a map; two holders of one object in memory, as after `validation.session`, are not told apart.
- `autoReflect` is an opaque step that may fail; legacy SSE sessions are a map without a second copy and are not modelled.
- Token-to-session binding at initialize: a lookup before validation or creation.
- `buildChain` and `buildChainFromEntries`: the dispatcher takes the chain they return as given.
- Code between two clock reads of the dispatcher takes no time; only waits and calls do.
- Times of concurrent dispatches are not compared: which waits time out is part of each dispatch's log, and the schedule is arbitrary.
- OAuth over Redis, client registration, consent page and API key lookups: inputs of the model.
- The rotation limiter reads its limit on every call, as its method does; the runs take it as constant, as the environment of a process is.
- `DualRateLimiter` chooses between two limiters by whether a key is present.
- `renderTable`, `resolveFormat` and `truncate` have no round trip to prove.
- Quantiles over several label series at once, and floating-point rounding in quantiles and cosine.
- Log files with multi-byte characters at chunk borders; the level and text filters after the merge; the header pattern is any function of a line.
- The order of directory entries is taken as sorted; the SQL of a migration is one effect per file, committed or not at all.
- The memory index, search, ranking and consolidation live in SQL.
