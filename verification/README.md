# Verified model of the broker gateway's stateful core

The broker gateway keeps one long-lived session per broker account, fans order and quote events out
to many consumers, paces its calls, logs itself in again when a session dies, and lets operators
restart containers through a push topic. This project models that stateful code in Dafny and proves
what it keeps over whole runs. `dafny verify dfyconfig.toml` checks everything.

Code that changes fields in place is a class whose methods are proved against pure functions, and the
theorems about runs are about those functions, or about a world that a `Perform` method shows the objects
to follow. The one protocol without such a link is `CoolDownRegistry`: it moves value records named by
their positions, not the objects of `OrderBroadcaster` and `OrderChannel`. Coroutines are cut at their awaits: each stretch between two
awaits is one atomic step, and the steps of all coroutines interleave freely. Time never runs backwards.
Answers from outside (pushes, connects, exit codes, health, broker replies, random numbers) are
parameters, so every theorem holds for all of them. Objects that a protocol creates are named by their
position in a list of all objects ever created.

Order events

- `RecentOrders`: the duplicate filter, an ordered dictionary of at most 1024 orders.
- `OrderChannel`: one account's event numbering, 200-event replay ring, drop-oldest queues and filter.
- `OrderResume`: reconnecting with Last-Event-ID (WHATWG HTML, section 9.2.4) while the channel goes on.
- `CoolDownRegistry`: the subscribe / detach / cool-down / teardown protocol of orders and quotes.
- `OrderBroadcaster`, `QuoteManager`: the two registries; the quote manager adds the contract id limit.
- `Heartbeat`, `EventStream`: keepalive comments, and the bytes as a client parses them (section 9.2.6).
- `Reconnect`: a stream that breaks off and is taken up again, in time and too late, from bytes to bytes.

Logging in

- `LoginThrottle`, `LoginTrigger`: admission control of automatic logins, and starting the login sidecar.
- `CpLifecycle`: one tickle cycle with its reauthentication loop.

Pacing and recording

- `TokenBucket`: the token bucket over real numbers, with its back-off.
- `Normalize`, `NormalizeLaws`, `NormalizeMasks`, `Normalizer`, `Placeholders`: canonical form of recorded
  responses, what renaming, repeating and masking do to it.

Operators

- `CommandListener`: nonce, confirmation, recreate and cool-down.
- `Watchdog`: alarms, recreates and recoveries per episode.

TWS sessions and order requests

- `ClientIds`: the pool of API client ids and the clients that share it.
- `TwsLifecycle`: heartbeat ticks and the wait between them.
- `Idempotency`: replay of order requests by Idempotency-Key.

`Options`, `Strings`, `Decimals` and `BoundedQueue` are shared helpers.

## What turned out to be false

Each of these is kept as the code has it, with a concrete sequence of steps or an exact condition.

- A cool-down longer than a day (and one clock unit) is forgotten with the purged attempt
  (`LoginThrottle.CooldownRefusal`).
- A sidecar that outlives the minimum interval is overtaken: exactly when is
  `LoginTrigger.OvertakenExactlyWhen`, over whole runs `LoginTrigger.SidecarsRunAloneExactlyWhen`. With the
  shipped limits it would have to run for five minutes (`LoginTrigger.SlowSidecarIsOvertaken`); the shipped
  runner stops it after 120 s (src/broker_gateway/cp/auto_login_runner.py:36).
- Delivery after a reconnect is at least once: the overlap is given exactly (`OrderResume.OverlapIsExact`),
  and a bootstrap snapshot usually comes twice (`OrderResume.BootstrapComesTwice`).
- A client that is back only after the cool-down meets a channel built anew. The events of the gap are lost
  (`Reconnect.GapIsLostWithTheChannel`, exactly in `Reconnect.HasOldEventExactlyWhen`), and its old
  Last-Event-ID can hide new events (`Reconnect.RebuiltChannelArrivesExactlyWhen`).
- A quote request that names a contract id twice can later starve another consumer
  (`QuoteManager.RepeatedConidStarvesAnother`). The cool-down protocol breaks exactly when an iterator is
  closed that lists a subscription twice and is its only consumer (`QuoteManager.ProtocolHoldsExactlyWhen`).
- Normalising is not idempotent when prices are normalised and a date stands under a price key
  (`NormalizeLaws.NormalizingIsIdempotentExactlyWhen`, `NormalizeLaws.DatedPriceChangesTwice`).
- Jitter above one takes the back-off out of its range, and a capacity below one lets nobody through
  (`TokenBucket.ExtraWaitStaysInRangeExactlyWhen`, `TokenBucket.SomebodyGetsThroughExactlyWhen`).
- "starting" counts as up, so a container that restarts for ever is never reported
  (`Watchdog.RestartingIsNeverReported`).
- Two overlapping connects of one client lose an id for good (`ClientIds.OverlappingConnectsLeak`); ids are
  lost exactly if a connect is accepted while its client holds one (`ClientIds.IdsAreLostExactlyWhen`).
- A cancellation under a used key replays the cancellation of another order, because only PATCH puts the
  order id into the scope (`Idempotency.CancellationOfAnotherOrderIsReplayed`). An answer is about what was
  asked for exactly if no live call stands under the key or that call was for the same operation on the same
  order (`Idempotency.AnsweredAboutItsOwnExactlyWhen`); order ids with colons can share PATCH keys
  (`Idempotency.ModifyKeys`).
- docs/api/v1.md:167 promises a 409 `idempotency_replay_mismatch` for a used key with another body. The
  handlers compare no bodies: they answer as documented exactly if no live call stands under the key or its
  body is the same (`Idempotency.AnswersAsDocumentedExactlyWhen`, `Idempotency.ChangedBodyIsReplayed`).

## Model

| member | source | states |
|---|---|---|
| LoginThrottle.AutoLoginThrottle.Attempt | src/broker_gateway/cp/auto_login_throttle.py:91-134 | grants, or refuses with daily, hourly or cool-down reason and its retry time; the pending index names the last, open attempt |
| LoginThrottle.AutoLoginThrottle.RecordSuccess | src/broker_gateway/cp/auto_login_throttle.py:136-145 | closes the open attempt and ends the failure streak |
| LoginThrottle.AutoLoginThrottle.RecordFailure | src/broker_gateway/cp/auto_login_throttle.py:147-154 | closes the open attempt and lengthens the streak |
| LoginThrottle.AutoLoginThrottle.State | src/broker_gateway/cp/auto_login_throttle.py:156-180 | "ready" exactly when an attempt at that instant would be granted; otherwise the attempt's own reason |
| LoginThrottle.AutoLoginThrottle.Purge | src/broker_gateway/cp/auto_login_throttle.py:184-192 | the loop drops exactly the attempts older than a day from the left and shifts the pending index with them |
| LoginThrottle.AutoLoginThrottle.ClosePending | src/broker_gateway/cp/auto_login_throttle.py:194-203 | the branch for an index outside the deque is unreachable |
| LoginThrottle.GrantsAreSpaced | src/broker_gateway/cp/auto_login_throttle.py:91-134 | in every run and for every configuration max_per_day+1 grants span more than 24 h, max_per_hour+1 at least 1 h, and each grant waits for the cool-down of the previous outcome and streak (for more than a day if that is longer), although old attempts are purged |
| LoginThrottle.RefusalIsExact | src/broker_gateway/cp/auto_login_throttle.py:91-134 | for every configuration, with no calls in between: nothing is granted before retry_at unless the reason is a cool-down longer than a day and one clock unit, and strictly after it the same reason is never given |
| LoginThrottle.CooldownRefusal | src/broker_gateway/cp/auto_login_throttle.py:184-220 | a cool-down refusal holds until its retry time if and only if the cool-down is at most a day (and one clock unit) |
| LoginThrottle.AdvanceIsTheObject | src/broker_gateway/cp/auto_login_throttle.py:91-203 | the runs move the memory as the methods do |
| LoginThrottle.AnsweredExactlyAs | src/broker_gateway/cp/auto_login_throttle.py:91-134 | after any run an ask is granted or refused, and for which reason, told from times and outcomes of all attempts alone; a cool-down is level min(n, levels) after n failures in a row and otherwise min_interval, and ends that long after the last attempt |
| LoginTrigger.AutoLoginTrigger.Begin | src/broker_gateway/cp/auto_login_trigger.py:126-172 | who is skipped with which reason, told from the fields and the status alone, in the order of the guards; otherwise the throttle decides |
| LoginTrigger.AutoLoginTrigger.Finish | src/broker_gateway/cp/auto_login_trigger.py:172-209 | an exit code closes the attempt, counts, and sets the sticky 2FA stop |
| LoginTrigger.Perform | src/broker_gateway/cp/auto_login_trigger.py:126-209 | an event on the trigger and its throttle takes their world exactly one step of the runs further |
| LoginTrigger.LaunchesExactlyWhen | src/broker_gateway/cp/auto_login_trigger.py:126-172 | after any run a sidecar starts if and only if somebody asks with AUTH_LOST or CP_DOWN, login is enabled, the stack is paper, no sidecar ever exited with the 2FA code, and the throttle allows it |
| LoginTrigger.ManualExactlyWhen | src/broker_gateway/cp/auto_login_trigger.py:172-190 | the sticky stop is set if and only if some sidecar exited with the 2FA code |
| LoginTrigger.LaunchesAreConserved | src/broker_gateway/cp/auto_login_trigger.py:126-209 | launches = successes + failures_total + in flight, in every interleaving and for every configuration |
| LoginTrigger.SidecarsRunAlone | src/broker_gateway/cp/auto_login_trigger.py:126-209 | if runs are shorter than min_interval, which is at most a day, at most one is in flight, and each completion closes its own attempt |
| LoginTrigger.SidecarsRunAloneExactlyWhen | src/broker_gateway/cp/auto_login_trigger.py:126-209 | in a run at most one sidecar is ever in flight if and only if nobody asks, with neither limit reached, while one is in flight that was started min_interval ago |
| LoginTrigger.OvertakenExactlyWhen | src/broker_gateway/cp/auto_login_throttle.py:91-134 | while the newest attempt is open, asking launches another sidecar if and only if min_interval has passed (or the attempt is forgotten) and neither limit is reached |
| LoginTrigger.TwoFactorStopsForGood | src/broker_gateway/cp/auto_login_trigger.py:172-190 | after the 2FA exit no later event launches anything |
| LoginTrigger.OneLaunchPerTick | src/broker_gateway/cp/lifecycle.py:317-333 | a tick of at most a day whose events lie closer together than every cool-down launches at most once, however often it asks and however long nothing happened before |
| LoginTrigger.SlowSidecarIsOvertaken | src/broker_gateway/cp/auto_login_trigger.py:126-209 | with the shipped limits, a sidecar of more than five minutes whose result is booked on another attempt |
| RecentOrders.CacheHoldsTheMostRecent | src/broker_gateway/streams/orders.py:128-153 | the filter holds exactly the last frames of the min(cap, distinct) most recent orders, in recency order |
| RecentOrders.SuppressedExactlyWhen | src/broker_gateway/streams/orders.py:128-153 | a frame is suppressed if and only if its order's previous frame agreed with it in every field but last_event_at and fewer than cap other orders came since, told from the fields of all frames |
| RecentOrders.KeysTellFields | src/broker_gateway/streams/orders.py:137-143 | two frames have the same comparison key if and only if they agree in every field but last_event_at |
| RecentOrders.LikeAnUnboundedMemory | src/broker_gateway/streams/orders.py:128-153 | below the cap the filter decides like one that forgets nothing |
| OrderChannel.PublishMirrors | src/broker_gateway/streams/orders.py:155-180 | publishing keeps consecutive ids, the newest-200 ring and queues that are runs ending at the newest event |
| OrderChannel.PushMirrors | src/broker_gateway/streams/orders.py:244-264 | so does a live frame, suppressed or not, and the filter keeps mirroring all frames |
| OrderChannel.SwallowedExactlyWhen | src/broker_gateway/streams/orders.py:244-264 | which live frames do not become events, told from the fields of all frames ever seen |
| OrderChannel.AccountSubscription.Attach | src/broker_gateway/streams/orders.py:92-100 | an empty queue for the consumer; a running cool-down is cancelled |
| OrderChannel.AccountSubscription.Detach | src/broker_gateway/streams/orders.py:102-111 | the consumer's queue is gone, the others keep theirs, and a cool-down starts exactly when nobody is left |
| OrderChannel.AccountSubscription.IsDuplicateOrder | src/broker_gateway/streams/orders.py:128-153 | answers true exactly for what the fields of all frames so far make old news, and updates like the recency list, through dictionary store, move-to-end and eviction |
| OrderChannel.AccountSubscription.Publish | src/broker_gateway/streams/orders.py:155-180 | the next id, ring and every queue, as one step of the channel |
| OrderChannel.AccountSubscription.FanOut | src/broker_gateway/streams/orders.py:165-179 | every queue is offered the event and a full one gives up its oldest |
| OrderResume.RunKeepsInv | src/broker_gateway/streams/orders.py:189-242 | in every reachable state the channel mirrors its log, the queue has handed over exactly the events it let go of and did not drop, and replay and log agree |
| OrderResume.ResumeIsInOrder | src/broker_gateway/streams/orders.py:207-242 | what comes from the replay and what comes from the queue are each strictly increasing |
| OrderResume.ResumeLosesNothingExactlyWhen | src/broker_gateway/streams/orders.py:207-242 | nothing after Last-Event-ID is lost if and only if the ring still reached back to it when the replay began, or it was current when the consumer was attached, and every event of it that the full queue dropped was in the replay |
| OrderResume.EverythingArrivesExactlyWhen | src/broker_gateway/streams/orders.py:207-242 | everything the queue let go of arrives if and only if the replay began with event 0, or the consumer was attached before it, and what was dropped was in the replay |
| OrderResume.OverlapIsExact | src/broker_gateway/streams/orders.py:207-234 | delivered twice is exactly what was published between attach and replay and not dropped |
| OrderResume.BootstrapComesTwice | src/broker_gateway/streams/orders.py:212-234 | a bootstrap snapshot comes from the queue unless it was dropped, and from the ring exactly when it was not seen and not yet pushed out |
| CoolDownRegistry.ProtocolHolds | src/broker_gateway/streams/orders.py:92-126 | in every interleaving a subscription with a consumer is the registered one, at most one cool-down per subscription is live, and every idle registered subscription has one |
| CoolDownRegistry.TeardownTakesItsOwn | src/broker_gateway/streams/orders.py:266-281 | a teardown removes exactly its own idle subscription, with or without the identity test |
| CoolDownRegistry.ReconnectJoinsTheSame | src/broker_gateway/streams/orders.py:207-240 | a reconnect before the deadline finds the same subscription with everything published before |
| CoolDownRegistry.LastToLeaveStartsCoolDown | src/broker_gateway/streams/orders.py:102-111 | a detach takes one consumer from one subscription, and starts a cool-down exactly if it was the last |
| OrderBroadcaster.OrdersBroadcaster.Subscribe | src/broker_gateway/streams/orders.py:189-224 | the registered channel or a new one, with its state as it was, plus consumer and bootstrap; other accounts untouched |
| OrderBroadcaster.OrdersBroadcaster.Publish | src/broker_gateway/streams/orders.py:244-264 | unknown accounts and repeated frames are dropped, everything else is published to that account alone |
| OrderBroadcaster.OrdersBroadcaster.Teardown | src/broker_gateway/streams/orders.py:266-281 | only an idle subscription that is still registered goes |
| QuoteManager.SubscriptionManager.Subscribe | src/broker_gateway/streams/manager.py:303-352 | refused exactly when empty or over the limit, and then nothing changes |
| QuoteManager.SubscriptionManager.Close | src/broker_gateway/streams/manager.py:354-369 | the iterator's clean-up detaches from every listed subscription |
| QuoteManager.SubscriptionManager.Publish | src/broker_gateway/streams/manager.py:396-409 | a quote reaches the consumers of its contract id, through their shared drop-oldest queues |
| QuoteManager.QuotesReachTheirConsumers | src/broker_gateway/streams/manager.py:303-369 | never more than max_conids; consumers of a subscription are exactly the live iterators listing it; per contract id a shared queue holds consecutive ids ending at the newest |
| QuoteManager.RefusedExactlyWhen | src/broker_gateway/streams/manager.py:314-326 | a request without repeats is refused if and only if it is empty or would bring the registered contract ids over the limit |
| QuoteManager.QueuesLoseOnlyWhenFull | src/broker_gateway/streams/manager.py:160-189 | a quote ends the queue of every consumer of its contract id and of nobody else; the oldest event is lost only from a full queue |
| QuoteManager.CloseKeepsProtocolExactlyWhen | src/broker_gateway/streams/manager.py:133-139 | closing an iterator keeps the cool-down protocol if and only if it does not list a subscription twice of which its consumer is the only one |
| QuoteManager.ProtocolHoldsExactlyWhen | src/broker_gateway/streams/manager.py:125-145 | over any run, repeats or not, the cool-down protocol holds throughout if and only if no such close happens, and meanwhile consumers are exactly the live iterators listing a subscription |
| QuoteManager.RepeatedConidStarvesAnother | src/broker_gateway/streams/manager.py:125-145 | a sequence of steps in which two requests with a repeated contract id leave a cool-down that takes a later consumer's subscription out of the registry; in websocket mode that consumer then gets nothing more (a polling subscription goes on polling) |
| TokenBucket.TokenBucket.Pass | src/broker_gateway/throttle/bucket.py:99-118 | takes a token if there is one, otherwise returns the sleep that fills the missing part |
| TokenBucket.TokenBucket.Acquire | src/broker_gateway/throttle/bucket.py:93-118 | alone, with capacity at least 1, one refill sleep after the extra wait exactly if less than a token was there, and none otherwise |
| TokenBucket.TokenBucket.RegisterPacingViolation | src/broker_gateway/throttle/bucket.py:120-128 | the extra wait doubles from half a second, jittered and capped, and the successes in a row start again |
| TokenBucket.RateIsBounded | src/broker_gateway/throttle/bucket.py:93-118 | for all grants i <= j: j-i+1 <= capacity + rate*(t_j - t_i), and tokens stay in [0, capacity] |
| TokenBucket.RefusedExactlyWhen | src/broker_gateway/throttle/bucket.py:99-118 | the converse: after any run a pass is refused if and only if granting it would exceed capacity + rate*(now - t_i), and a token less, counted from some earlier grant i |
| TokenBucket.SomebodyGetsThroughExactlyWhen | src/broker_gateway/throttle/bucket.py:99-118 | waiting ever helps if and only if the capacity is at least 1 |
| TokenBucket.BackoffStaysInRangeExactlyWhen | src/broker_gateway/throttle/bucket.py:120-128 | from every wait in [0, max_backoff] one violation stays there for every random number if and only if the jitter is at most 1 |
| TokenBucket.ExtraWaitStaysInRangeExactlyWhen | src/broker_gateway/throttle/bucket.py:93-137 | over all runs of violations, successes and served waits the extra wait stays in [0, max_backoff] if and only if max_backoff is not negative and the jitter is at most 1 |
| TokenBucket.BackoffIsBounded | src/broker_gateway/throttle/bucket.py:120-128 | for every jitter in [0, 1] and all random numbers the n-th violation in a row waits half a second doubled n-1 times and scaled n times by something between 1-jitter and 1+jitter, capped |
| TokenBucket.BackoffDoubles | src/broker_gateway/throttle/bucket.py:120-128 | without jitter that is exactly half a second doubled n-1 times, capped |
| TokenBucket.FiveSuccessesForget | src/broker_gateway/throttle/bucket.py:120-137 | the extra wait is kept through four successes after a violation, and forgotten with the fifth |
| Placeholders.PlaceholdersDiffer | src/broker_gateway/cp/normalize.py:85-89 | zero-padded numbering never gives two numbers of a kind one placeholder |
| Normalize.PlacesTellIdsApart | src/broker_gateway/cp/normalize.py:71-89 | within one payload two ids share a placeholder if and only if they are the same id of the same kind |
| Normalize.NumberedByFirstOccurrence | src/broker_gateway/cp/normalize.py:85-89 | the first occurrence of an id in document order gets the next free number of its kind |
| Normalizer.NormalizeState.Placeholder | src/broker_gateway/cp/normalize.py:85-89 | the dictionary's answer is the number of first occurrence among all ids asked for |
| Normalizer.NormalizeState.Scalar | src/broker_gateway/cp/normalize.py:123-153 | the tests in order, each with its replacement |
| Normalizer.NormalizeState.Walk | src/broker_gateway/cp/normalize.py:115-120 | the walk with its state is the rewriting by first occurrence; later ids never disturb earlier output |
| Normalizer.NormalizeResponse | src/broker_gateway/cp/normalize.py:92-112 | a response becomes its specified normal form |
| NormalizeLaws.CodeIsSane | src/broker_gateway/cp/normalize.py:18-68 | no key name is in two tables, so the code's settings meet the premise of the laws below |
| NormalizeLaws.RenamingIsForgotten | src/broker_gateway/cp/normalize.py:71-153 | the normal form is unchanged by every renaming of ids that is injective per kind and never empty |
| NormalizeLaws.NormalizingIsIdempotent | src/broker_gateway/cp/normalize.py:92-153 | with prices left alone, normalising twice is normalising once |
| NormalizeLaws.NormalizingIsIdempotentExactlyWhen | src/broker_gateway/cp/normalize.py:123-153 | in general it is, if and only if no date string stands under a price key while prices are normalised |
| NormalizeLaws.DatedPriceChangesTwice | src/broker_gateway/cp/normalize.py:144-151 | a date under a price key is such a payload |
| NormalizeMasks.NormalFormMasks | src/broker_gateway/cp/normalize.py:115-153 | the normal form of every payload, leaf by leaf, without the rewriting: secrets, sessions, times, dates and prices become their marks, blanks and truth values stay, and everything else is untouched |
| NormalizeMasks.NothingSensitiveIsLeft | src/broker_gateway/cp/normalize.py:123-153 | in the normal form a leaf under a secret, session or time key is its mark or empty (or a truth value under a secret key), and no date, nor a price when prices are normalised, stands under any key |
| NormalizeMasks.MaskedValuesDoNotShow | src/broker_gateway/cp/normalize.py:115-153 | payloads that differ only in masked values have the same normal form |
| NormalizeMasks.ThreeDigits | src/broker_gateway/cp/normalize.py:85-89 | placeholder numbers have at least three digits and read back as their number |
| CommandListener.ConfirmRoundTrip | scripts/tws_command_listener.py:137-187 | the button's text arrives as its nonce if and only if the nonce is not empty and has no outer white space |
| CommandListener.CommandListener.HandleMessage | scripts/tws_command_listener.py:180-187 | state, log and pushes after any message |
| CommandListener.PaddingIsIgnored | scripts/tws_command_listener.py:180-187 | a command is understood whatever white space surrounds it |
| CommandListener.CommandListener.OnTrigger | scripts/tws_command_listener.py:191-212 | a new nonce overwrites the old one unless the cool-down runs |
| CommandListener.CommandListener.OnConfirm | scripts/tws_command_listener.py:214-232 | the nonce is consumed before the recreate; anything else is rejected |
| CommandListener.CommandListener.DoRecreate | scripts/tws_command_listener.py:234-265 | the cool-down starts even if the recreate fails, and which pushes tell how it went |
| CommandListener.CommandListener.PollHealth | scripts/tws_command_listener.py:267-280 | healthy exactly if one of the polls says so; sleeps stay below health_wait_s, and a failure means at most one interval less than it was slept |
| CommandListener.DecidedByHistory | scripts/tws_command_listener.py:191-232 | after any run the decisions follow from the log alone: a trigger issues exactly if no recreate is younger than the cool-down, a confirmation recreates exactly if the last entry is the issue of its nonce, less than the TTL ago |
| CommandListener.RecreatesAreAuthorised | scripts/tws_command_listener.py:214-238 | every recreate directly follows the issue of its nonce with t <= r < t+ttl, so no issue is used twice |
| CommandListener.RecreatesAreSpaced | scripts/tws_command_listener.py:191-238 | two recreates are at least cooldown_s apart although confirming never reads the cool-down |
| Watchdog.StackEntry.ProcessStack | scripts/tws_watchdog.py:345-436 | state and outcome of one look, for every answer of push and recreate |
| Watchdog.LookAt | scripts/tws_watchdog.py:209-240 | which health answers count as up, and that "starting" counts without asking the gateway |
| Watchdog.DecidedByHistory | scripts/tws_watchdog.py:345-436 | in every run the stored fields are the downs, last alarm and recreate since the last reset, and every decision follows from that history |
| Watchdog.AlarmNeedsDownsInARow | scripts/tws_watchdog.py:378-391 | an alarm needs down_threshold downs in a row within its episode |
| Watchdog.DownsInARowRaiseTheAlarm | scripts/tws_watchdog.py:378-434 | and that many raise it if and only if the push is delivered and the latest alarm of the episode, if any, is at least realert_hours old |
| Watchdog.AlarmsAreSpaced | scripts/tws_watchdog.py:326-342 | alarms of one episode are at least realert_hours apart |
| Watchdog.OnlyPaperIsRecreated | scripts/tws_watchdog.py:392-399 | a live stack is never recreated |
| Watchdog.OneRecreatePerEpisode | scripts/tws_watchdog.py:392-399 | a recreate succeeds at most once per episode |
| Watchdog.RecoveryIsAnnounced | scripts/tws_watchdog.py:359-377 | an episode that reached the threshold ends only in a step that delivered a recovery push |
| Watchdog.RestartingIsNeverReported | scripts/tws_watchdog.py:209-240 | looks that alternate with "starting" never raise an alarm |
| ClientIds.ClientIdPool.constructor | src/broker_gateway/tws/client.py:67-74 | the pool starts with the range, in order |
| ClientIds.ClientIdPool.Release | src/broker_gateway/tws/client.py:86-92 | ids outside the range are refused |
| ClientIds.TWSClient.BeginConnect | src/broker_gateway/tws/client.py:174-191 | a live connection is left alone, a zombie first gives its id back |
| ClientIds.TWSClient.EndConnect | src/broker_gateway/tws/client.py:191-202 | a failed connect returns its id |
| ClientIds.TWSClient.Disconnect | src/broker_gateway/tws/client.py:204-210 | the id goes back exactly if one was held |
| ClientIds.Perform | src/broker_gateway/tws/client.py:174-210 | an event on the pool and its clients takes their world exactly one step of the runs further |
| ClientIds.IdsAreConserved | src/broker_gateway/tws/client.py:67-92 | whatever the interleaving, every id of the range is in exactly one place, and no other id anywhere |
| ClientIds.SerialClientsLoseNothing | src/broker_gateway/tws/client.py:174-210 | if each client runs its calls serially, pool and clients together hold exactly the range |
| ClientIds.IdsAreLostExactlyWhen | src/broker_gateway/tws/client.py:174-202 | in a run some id is neither in the pool nor with a client if and only if a connect was accepted while its client held an id |
| ClientIds.NoIdIsShared | src/broker_gateway/tws/client.py:50-92 | two clients never use one id, and the pool never offers one in use |
| ClientIds.OverlappingConnectsLeak | src/broker_gateway/tws/client.py:174-202 | two overlapping connects of one client lose an id |
| TwsLifecycle.TWSLifecycle.TickOnce | src/broker_gateway/tws/lifecycle.py:276-291 | status, failure count, session start and time stamps after a tick |
| TwsLifecycle.TWSLifecycle.TryConnect | src/broker_gateway/tws/lifecycle.py:293-309 | failures add up and bring TWS_DOWN at the limit; a success is checked for readiness at once |
| TwsLifecycle.TWSLifecycle.MarkReady | src/broker_gateway/tws/lifecycle.py:331-337 | OK, no failures, and a new session start unless one was running |
| TwsLifecycle.StatusExactlyWhen | src/broker_gateway/tws/lifecycle.py:276-337 | OK if and only if the last connected tick was ready and fewer than max_connect_failures connects failed since; TWS_DOWN if and only if there never was a connection or the limit is reached |
| TwsLifecycle.SessionStartsWhenItBecameOk | src/broker_gateway/tws/lifecycle.py:331-337 | the session start is the time of the tick at which the status last became OK |
| TwsLifecycle.TWSLifecycle.WaitUntilDue | src/broker_gateway/tws/lifecycle.py:232-260 | the loop terminates, and after which step and why it ends, for the heartbeat interval when OK and otherwise the shorter of the two |
| TwsLifecycle.FullWait | src/broker_gateway/tws/lifecycle.py:247-260 | an undisturbed wait sums to exactly the interval in ceil(interval / step) steps, and one step if the step is not positive |
| TwsLifecycle.LostSocketIsNoticed | src/broker_gateway/tws/lifecycle.py:207-260 | from any status a lost socket is followed by a tick within one poll step |
| CpLifecycle.AuthLifecycle.TickOnce | src/broker_gateway/cp/lifecycle.py:302-361 | a tick ends in OK, CP_DOWN or AUTH_LOST, exactly when; how often and with which status the trigger is asked; at most n calls, and at most b*(2^n - 1) slept |
| CpLifecycle.AuthLifecycle.HandleAuthLoss | src/broker_gateway/cp/lifecycle.py:387-410 | AUTH_LOST exactly when all n attempts failed, otherwise it stops at the first success; calls, sleeps and failure count |
| CpLifecycle.AuthLifecycle.AttemptReauth | src/broker_gateway/cp/lifecycle.py:389-408 | one turn of the loop with its sleep |
| CpLifecycle.AuthLifecycle.MarkSessionOk | src/broker_gateway/cp/lifecycle.py:480-489 | OK without failures, keeping the start of a running session |
| CpLifecycle.NapsAreBounded | src/broker_gateway/cp/lifecycle.py:387-410 | n attempts sleep at most b*(2^n - 1), and that long if and only if no later attempt got past its call |
| CpLifecycle.StatusFromReplies | src/broker_gateway/cp/lifecycle.py:302-361 | OK, CP_DOWN and AUTH_LOST, each as an if and only if over the replies of SSO check, tickle and reauthentication |
| CpLifecycle.AsksFromReplies | src/broker_gateway/cp/lifecycle.py:315-361 | the trigger hears the final status only, twice exactly for a 401 that no attempt cures |
| Idempotency.IdempotencyStore.Get | src/broker_gateway/idempotency.py:67-77 | only live entries are found, an expired one is dropped |
| Idempotency.IdempotencyStore.Put | src/broker_gateway/idempotency.py:79-82 | one entry with a fresh expiry |
| Idempotency.PlaceOrder | src/broker_gateway/api/v1/orders.py:70-97 | bad request, replay or broker call; only a success is stored |
| Idempotency.CancelOrder | src/broker_gateway/api/v1/orders.py:166-200 | the same for cancellations, which also need the account header |
| Idempotency.ModifyOrder | src/broker_gateway/api/v1/orders.py:208-243 | the same for modifications |
| Idempotency.BadRequestExactlyWhen | src/broker_gateway/api/v1/orders.py:55-61 | a request is bad if and only if its Idempotency-Key is missing or blank, or it is a cancellation without account header |
| Idempotency.DecidedByHistory | src/broker_gateway/idempotency.py:67-82 | after any sequence of requests one is replayed if and only if the latest successful call under its scoped key finished less than the TTL ago, with that call's payload |
| Idempotency.CallsAreSpaced | src/broker_gateway/idempotency.py:67-82 | two successful broker calls under one scoped key are at least the TTL apart |
| Idempotency.AnswersAsDocumentedExactlyWhen | src/broker_gateway/api/v1/orders.py:82-97 | the answer is the documented one if and only if no live call stands under the key or its body is the same |
| Idempotency.ChangedBodyIsReplayed | src/broker_gateway/api/v1/orders.py:82-97 | a used key with another body gets the first answer, where the documentation has a 409 |
| Idempotency.MethodsAreApart | src/broker_gateway/api/v1/orders.py:246-249 | keys of POST, DELETE and PATCH never collide |
| Idempotency.ModifyKeys | src/broker_gateway/api/v1/orders.py:224-249 | exactly which PATCH keys collide, for all order ids and keys |
| Idempotency.ModifyKeysAreApart | src/broker_gateway/api/v1/orders.py:224-249 | none do for order ids without a colon |
| Idempotency.CancellationOfAnotherOrderIsReplayed | src/broker_gateway/api/v1/orders.py:187-200 | a reused DELETE key answers with another order's cancellation |
| Idempotency.AnsweredAboutItsOwnExactlyWhen | src/broker_gateway/api/v1/orders.py:82-249 | after any run a caller is answered about what it asked for if and only if no live call stands under its key, or that call was for the same operation on the same order |
| Idempotency.PlacementsAndModificationsAreAnsweredAboutTheirOwn | src/broker_gateway/api/v1/orders.py:82-249 | placements always are, and modifications as long as no order id contains a colon |
| Heartbeat.StreamWithHeartbeat | src/broker_gateway/streams/heartbeat.py:60-125 | what is sent for every pattern of silences, arrivals, failures and cancellations; never two pulls at once; the source is cleaned up exactly once |
| Heartbeat.TakeTurn | src/broker_gateway/streams/heartbeat.py:80-93 | one turn: a timeout leaves the pull alone |
| Heartbeat.ErasingLeavesTheSource | src/broker_gateway/streams/heartbeat.py:75-93 | without its comments the output is exactly the rendered source, up to where the stream ended |
| Heartbeat.EverySilenceIsBroken | src/broker_gateway/streams/heartbeat.py:75-93 | as many comments as silences: every silent interval sends one |
| EventStream.CommentIsIgnored | src/broker_gateway/streams/heartbeat.py:52-53 | a parsing client is left as it was by a keepalive comment |
| EventStream.EventArrives | src/broker_gateway/api/v1/orders_stream.py:80-85 | a rendered event is parsed back into its type, data and id |
| EventStream.ClientReceivesTheEvents | src/broker_gateway/streams/heartbeat.py:75-93 | whatever the silences, a parsing client receives exactly the delivered events, in order, with their ids |
| EventStream.LastEventIdIsTheLastEvents | src/broker_gateway/api/v1/orders_stream.py:80-85 | the id it would reconnect with is that of the last event it received |
| Reconnect.InTimeMeansSameChannel | src/broker_gateway/streams/orders.py:92-126 | attached again before the cool-down ends, a client meets the same channel with everything the first connection knew |
| Reconnect.HasEventExactlyWhen | src/broker_gateway/streams/orders.py:207-242 | on the same channel, which events the client has in the end, from either connection |
| Reconnect.ReconnectMissesNothingExactlyWhen | src/broker_gateway/streams/orders.py:207-242 | on the same channel, a client that reconnects with the id it parsed is brought everything after its last event, the gap included, if and only if the ring still reached back to it when the replay began (or it was the newest at attach) and what the queue dropped was in the replay |
| Reconnect.RebuiltChannelArrivesExactlyWhen | src/broker_gateway/streams/orders.py:225-242 | on a channel built anew, exactly when its events all arrive despite the old id |
| Reconnect.HasOldEventExactlyWhen | src/broker_gateway/streams/orders.py:266-281 | which events of the first channel the client has in the end, whatever it meets |
| Reconnect.GapIsLostWithTheChannel | docs/api/v1.md:1427-1446 | the events of the gap are lost with a channel that was torn down |

## Left out

- Shutdown paths and outside cancellation of tasks: they end the protocols on purpose.
- What a quote subscription does outside when it is stopped. Stopping cancels the very task that stops it, which in websocket mode cuts the unsubscribe calls short.
- Generators that are returned but never started: their clean-up never runs.
- Last-Event-ID replay in streams/manager.py (one id applied to several counters), its poll loop, and the near copy of the fan-out in tws/quotes.py.
- Field mapping of orders, trades, portfolio and calendars; HTTP wiring, tokens, logging, metrics and recorders: no state over several steps.
- `str()` of numbers, lower-casing, the ISO date pattern, JSON text and which characters are white space: parameters, with the few facts used stated as premises (`TextFacts`, `OneLine`, `Spaces`).
- Float rounding: times and tokens are reals (whole microseconds in the throttle).
- Wording of reasons and pushes; expiry texts round in the push only.
- LoginThrottle.GrantsAreSpaced: cool-downs longer than a day are enforced for a day only; `CooldownRefusal` says exactly why.
- LoginTrigger.SidecarsRunAlone: for sidecars shorter than the minimum interval; `SidecarsRunAloneExactlyWhen` has no such premise.
- Reconnect: the second connection is not broken off. Connections are states that keep the invariants of `OrderResume`, which `OrderResume.RunKeepsInv` shows of every reachable one.
- QuoteManager.QuotesReachTheirConsumers: for requests without repeated contract ids; `RepeatedConidStarvesAnother` shows why. The manager's methods work on the protocol's value state, not on linked subscription objects.
- TokenBucket.TokenBucket.Acquire: one caller at a time; the interleaving of several is the subject of `RateIsBounded`, per pass through the lock.
- CpLifecycle: the bridge probe and the manual reauthentication are left out; a tick runs undisturbed by them.
- Watchdog: hand-edited time stamps that cannot be parsed, and the state file.
- Idempotency: simultaneous requests with one key; the store has no reservation. `invalidate` is not used by the handlers.
- Heartbeat: a source error at clean-up is only logged. A cancellation counts as one that finds the pull under way.
