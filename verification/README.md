# Verified model of the MT5 gateway

The gateway puts an HTTP API in front of one MetaTrader 5 terminal. This project models the parts
of it that have to be right when requests interleave, connections drop and clocks disagree, and
proves what each part promises. `dafny verify dfyconfig.toml` checks everything.

| file | part of the gateway |
|---|---|
| `Idempotency.dfy` | the key store: pure functions, the class that mutates the dictionary, and a per-key timestamped log it refines |
| `OrderProtocol.dfy` | order submission as a step system over any number of requests: reserve, send, complete or abandon |
| `OrderEndpoint.dfy` | one call of the endpoint with its flags and `finally`, proved to be a run of the protocol |
| `SerializedCalls.dfy` | the lock around the native client and the per-thread error slots |
| `Connection.dfy` | the connection object, its retry loop and back-off |
| `ConnectionProtocol.dfy` | `ensure_connection` executed by any number of threads, step by step; clock readings and the stores that follow them are steps of their own |
| `ServerTime.dfy` | the offset implied by a quote, and the debounced offset cache |
| `OffsetRefresh.dfy` | which quotes may derive an offset; the refresh loop |
| `OrderTime.dfy` | GTD deadlines: conversion, refusal, and the request that receives them |
| `Numbers.dfy`, `Text.dfy` | rounding, white space and letter case, as Python has them |
| `Money.dfy` | volume and price rounding |
| `Autologin.dfy` | the section-aware rewrite of the terminal's ini file |
| `FillConfirmation.dfy` | polling for the deal that executed a close or priced an order |
| `SymbolCache.dfy` | the bounded cache of selected symbols under interleaving |
| `BrokerResolver.dfy` | the cascade of connect addresses |
| `Positions.dfy` | closing all positions; the summary of a position's deals |

Native calls, quotes, resolver answers and clock readings are inputs that may be anything. Code
that updates fields or runs a loop is a class or a method with a contract in terms of a pure
function or a stated property; step systems use those same functions for their transitions.

## Where the code promises less than one might expect

- At most once needs two hypotheses, named `FinishInTime` (no request outlives its TTL while it
  holds a reservation) and `NoRaiseAfterSend` (nothing raises between a kept send and `complete`).
  `OverrunBreaks` and `RaiseAfterSendBreaks` show, for every TTL, that dropping either one lets
  two possibly live orders out under one key.
- Even then a kept send may follow another send of its key within the TTL: one that had been
  refused before. `AtMostOnce` states exactly that alternative and `RefusedThenKept` shows it occurs.
  A send that itself raises frees the key too, although nobody knows whether the broker took it;
  `RefusedThenKept` covers it like any other send that is not kept.
- The documented "at most one live probe per window" has two gaps, because a mark writes CONNECTED,
  reads the clock and stores the time in turn. A re-test before that store sees a connected session
  with an old time, so two probes can start together (`ProbesCanCollide`). And a probe that runs
  between that reading and the store can have its newer time replaced with the older one, so the
  next probe comes too soon (`LateStoreBreaks`). A probe is a TTL after every earlier one when
  neither its re-test fell into a half-made mark nor the latest earlier probe started under a
  pending stamp (`ProbesFarApart`); `CloseProbesCondition` is the exact condition.
- Likewise a probe is always a TTL after the verification time in force at its re-test
  (`ProbeSpacing`). It can follow another verification sooner in two ways: a reconnect's mark was
  stored between re-test and call (`ProbeCanFollowReconnect`), or a late store had put the time
  back before the re-test (`LateStoreBreaks`). `ProbeFollows` and `EarlyProbeCondition` show that
  there is no third.
- Only a reconnect that reports failure is noted. One that ends in another exception starts no
  back-off, so the next can begin at once (`RaiseStartsNoBackOff`); the lemmas about failures in a
  row count noted failures.
- A normalised volume passes `validate_volume` exactly when the broker's minimum lies within 1% of
  a step of the step grid (`NormalizedIsAccepted`); `NormalizedButRefused` is one that does not.
- `normalize_price` turns a positive price into zero exactly when the price, after rounding to the
  tick if there is one, is below half of the last displayed digit (`PriceVanishes`). With a tick no
  finer than that digit, this means below half a tick (`VanishesUnderHalfTick`). Any other result
  normalises to itself (`PriceIdempotent`).
- With a configured zone, reading a broker time back uses the offset of the present, so the trip
  returns the instant exactly when the two offsets agree (`RoundTripCondition`).

## Model

| member | source | states |
|---|---|---|
| `Idempotency.IdempotencyStore.PurgeExpired` | app/idempotency.py:79-86 | in place, exactly the entries that have reached the TTL disappear |
| `Idempotency.IdempotencyStore.Begin` | app/idempotency.py:44-58 | new dictionary and decision are those of the purge-then-decide function; only a new key is inserted |
| `Idempotency.IdempotencyStore.Complete` | app/idempotency.py:60-67 | stores the response only under the same key and fingerprint, expired or not |
| `Idempotency.IdempotencyStore.Abandon` | app/idempotency.py:69-77 | deletes only an unanswered entry of the same fingerprint |
| `Idempotency.StoreRefinesLog` | app/idempotency.py:44-87 | for every call history on a monotone clock, the lazily purged dictionary, minus its expired entries, equals a per-key log where entries vanish exactly at expiry |
| `Idempotency.BeginAnswersFromLog` | app/idempotency.py:44-58 | every decision and every replayed response is the one that log dictates |
| `Idempotency.VisibleHasProvenance` | app/idempotency.py:44-87 | a visible entry was granted less than a TTL ago and its response stems from a completion of the same intent before expiry |
| `OrderProtocol.InvHolds` | app/routes/order.py:178-198 | in every disciplined run the store holds exactly the owners' entries, holders are unique per key, and kept replies shield their key until the TTL |
| `OrderProtocol.AtMostOnce` | app/routes/order.py:391-495 | given both hypotheses, any other send under the key of one that succeeded, came back ambiguous or came back empty is at least a TTL away, or was refused or raised and closed before the kept one was granted |
| `OrderProtocol.NoTwoLiveOrders` | app/routes/order.py:391-495 | two sends of one key that succeeded, are ambiguous, came back empty or are in flight have reservations at least a TTL apart |
| `OrderProtocol.EachSendsOnce` | app/routes/order.py:391-391 | no request sends twice, in any run |
| `OrderProtocol.ReplayIsGenuine` | app/routes/order.py:178-184 | a replay hands out the reply of a kept send of the same key and intent, reserved less than a TTL earlier |
| `OrderProtocol.TurnedHolds` | app/routes/order.py:178-197 | every replay, conflict or in-progress answer is due to a reservation of that key younger than the TTL, with the fingerprint relation the answer claims |
| `OrderProtocol.RaiseAfterSendBreaks` | app/routes/order.py:491-495 | without the no-raise hypothesis a run sends two kept orders of one key within the TTL |
| `OrderProtocol.OverrunBreaks` | app/idempotency.py:69-77 | without the in-time hypothesis an overrunning request abandons its successor's reservation, and two kept orders go out |
| `OrderProtocol.RefusedThenKept` | app/routes/order.py:435-495 | for each outcome that is not kept, a raising send included, the key is free at once and a kept send can follow within the TTL |
| `OrderProtocol.HeldInTime` | app/idempotency.py:79-86 | the in-time hypothesis allows a request to hold its key for any span below the TTL |
| `OrderEndpoint.SubmitOrder` | app/routes/order.py:143-495 | one call leaves the store, the reply and the decision to send exactly as decision, checks, outcome and exceptions determine, early returns and `finally` included; each case of the reply is spelled out |
| `OrderEndpoint.KeyAfterCall` | app/routes/order.py:420-495 | after a granted call the key holds the response exactly if the order went out and succeeded, was ambiguous or got no answer, and nothing raised before `complete`; else it is free |
| `OrderEndpoint.EndpointFollowsProtocol` | app/routes/order.py:143-495 | from every state, an undisturbed call is a run of protocol steps that ends with the same store and the request's final phase, send and reply, and sends exactly if the call does |
| `OrderEndpoint.CallKeepsNoRaise` | app/routes/order.py:391-495 | a granted call keeps the no-raise hypothesis at every step exactly unless such an order went out and something raised before `complete` |
| `OrderEndpoint.RepeatIsReplayed` | app/routes/order.py:178-192 | after a completed order, a repeat within the TTL is replayed, a different intent conflicts, and neither sends |
| `OrderEndpoint.RefusalFreesKey` | app/routes/order.py:493-495 | after any other ending the key is free and nothing else changed |
| `SerializedCalls.SerializedMT5.Call` | app/mt5_connection.py:76-103 | a wrapped call records the error of a missing result for its own thread and reports it only if it is an IPC failure |
| `SerializedCalls.LoneCall` | app/mt5_connection.py:76-103 | the steps of an undisturbed call do what the boundary promises: slot, report and cell |
| `SerializedCalls.OneThreadInside` | app/mt5_connection.py:76-117 | in every interleaving at most one thread is inside the native module or reading its error |
| `SerializedCalls.ErrorOfThatCall` | app/mt5_connection.py:79-111 | after a call returns nothing, the thread's slot holds the error left by that very call, whatever other threads do meanwhile |
| `SerializedCalls.HookSeesIpcFailures` | app/mt5_connection.py:97-101 | the failure hook receives exactly the IPC-level errors of captured failures, in order |
| `SerializedCalls.CellIsNotEnough` | app/mt5_connection.py:105-111 | a run exists where the native cell already holds another thread's error while the slot is still right |
| `Connection.MT5Connection.MarkStatus` | app/mt5_connection.py:160-167 | marking connected also counts as a verification; other statuses leave its time alone |
| `Connection.MT5Connection.NoteReconnectOutcome` | app/mt5_connection.py:276-298 | success clears the back-off; failure k delays the next attempt by the capped doubled wait |
| `Connection.MT5Connection.NoteConnectionFailure` | app/mt5_connection.py:398-407 | drops a connected link and leaves every other status and field alone |
| `Connection.MT5Connection.Initialize` | app/mt5_connection.py:188-252 | succeeds exactly if an allowed attempt attaches, stops at the first, pauses base times powers of two, leaves the reconnect back-off alone, dates the verification by the last attempt that reached a session, and ends connected only if no IPC failure came in |
| `Connection.MT5Connection.VerifyLiveConnection` | app/mt5_connection.py:413-435 | probes only a connected, stale link; the probe's answer decides the status and the verification time |
| `Connection.MT5Connection.EnsureConnection` | app/mt5_connection.py:437-482 | for a lone caller, the whole object afterwards: unchanged if fresh, re-dated by a good probe, dropped by a bad one; reconnects exactly when unusable and not cooling down, and each reconnect clears or lengthens the back-off |
| `Connection.WaitDoublesToCap` | app/mt5_connection.py:289-293 | the waits start at the base, double with every further failure, and stop at the cap |
| `Connection.BackoffClosedForm` | app/mt5_connection.py:240-245 | n retry pauses add up to base * (2^n - 1) |
| `ConnectionProtocol.SingleFlight` | app/mt5_connection.py:456-482 | in every interleaving at most one thread is in the reconnect section and at most one verifies |
| `ConnectionProtocol.NoEarlyReconnect` | app/mt5_connection.py:454-467 | no request-driven initialize starts before the not-before time then in force |
| `ConnectionProtocol.ConnectedIsLeftAlone` | app/mt5_connection.py:456-467 | in every run, no request-driven initialize starts on a connected session, however the link changed while the caller was on its way |
| `ConnectionProtocol.LateComer` | app/mt5_connection.py:454-482 | a caller that gets the reconnect lock with the session up again, or the back-off running, is answered True or False accordingly and initializes nothing |
| `ConnectionProtocol.BusyFailsFast` | app/mt5_connection.py:454-458 | a caller that meets a running reconnect is answered False at once and changes nothing |
| `ConnectionProtocol.CallAlone` | app/mt5_connection.py:437-467 | from any state with both locks free, an undisturbed call takes the fast path, makes one probe whose answer decides, answers False inside the back-off window, or gets the lock to reconnect |
| `ConnectionProtocol.SuccessIsReconciled` | app/mt5_connection.py:467-480 | a reconnect is noted as a success only after it marked the session and the reconciliation passed |
| `ConnectionProtocol.OutcomeIsNoted` | app/mt5_connection.py:276-298 | noting a failure leaves a dropped session and the next wait, and answers False; noting a success clears the back-off and answers True |
| `ConnectionProtocol.WindowAfterFailures` | app/mt5_connection.py:276-298 | the window opens at the last failure plus the wait for the number of failures since the last success, and is clear after a success |
| `ConnectionProtocol.FailuresSpreadOut` | app/mt5_connection.py:276-298 | n+1 noted reconnect failures without a success between them span at least the first n waits, in every run |
| `ConnectionProtocol.UncappedWaits` | app/mt5_connection.py:290-294 | below the cap those waits add up like the retry pauses, base * (2^n - 1) |
| `ConnectionProtocol.RaiseStartsNoBackOff` | app/mt5_connection.py:467-482 | a reconnect whose reconciliation raises an unexpected error is not noted: after an IPC failure another initialize can start in the same instant |
| `ConnectionProtocol.ProbesFarApart` | app/mt5_connection.py:409-443 | in every interleaving a probe starts at least the TTL after each earlier probe, if its re-test saw no half-made mark and no clock reading of a mark was pending when the latest earlier probe started |
| `ConnectionProtocol.CloseProbesCondition` | app/mt5_connection.py:160-167 | a probe is too close to an earlier one exactly if one of the two happened and it is too close to the latest |
| `ConnectionProtocol.ProbesCanCollide` | app/mt5_connection.py:160-167 | for every positive TTL two probes can start in the same instant, with a half-made mark at the second re-test and no pending stamp at the first start |
| `ConnectionProtocol.LateStoreBreaks` | app/mt5_connection.py:160-167 | for every positive TTL a stamp pending at one probe lets the next start within the TTL of it and of a verification on record at its re-test, with no half-made mark at that re-test |
| `ConnectionProtocol.ProbeSpacing` | app/mt5_connection.py:409-435 | a probe starts at least the TTL after the verification time in force at its re-test |
| `ConnectionProtocol.OnlyMarksSlipIn` | app/mt5_connection.py:420-435 | what is stored between re-test and call is a reconnect's mark, and what is stored later is no older than the call, except marks if one was pending at the call |
| `ConnectionProtocol.ProbeFollows` | app/mt5_connection.py:409-435 | a probe starts at least the TTL after a verification stored before it, unless an older time replaced that before the re-test, or it is a mark stored after the re-test |
| `ConnectionProtocol.EarlyProbeCondition` | app/mt5_connection.py:409-435 | a probe follows some verification too early exactly if a young one was replaced or slipped in that way |
| `ConnectionProtocol.ProbeCanFollowReconnect` | app/mt5_connection.py:413-435 | for every positive TTL a probe can start right after a mark that slipped in |
| `ServerTime.DerivationBand` | app/time_utils.py:273-297 | a quote off by s derives offset + 3600k exactly when s is within 90 s of 3600k and the result is in the band |
| `ServerTime.DerivationOnlyInBands` | app/time_utils.py:293-297 | nothing is derived from any other error |
| `ServerTime.ReadingIsImplied` | app/time_utils.py:161-169 | a tick yields a reading exactly for the offset it implies, in that sense, under its own symbol and instant |
| `ServerTime.ReadingBand` | app/time_utils.py:273-297 | the same for a quote that is off by s: the reading is k hours wrong exactly when s is within 90 s of 3600k and the result possible |
| `ServerTime.SlipIsUnique` | app/time_utils.py:31-38 | no error is within tolerance of two whole-hour slips |
| `ServerTime.OffsetCache.SetDerivedOffset` | app/time_utils.py:77-95 | caches or clears, dropping the candidate either way |
| `ServerTime.OffsetCache.DeriveFromTick` | app/time_utils.py:139-197 | applies one debounce step for a clean reading, none otherwise; returns exactly the whole-hour offset within 90 s of quote minus clock, between -12 and +14 hours, and an empty cache takes it with symbol and instant |
| `ServerTime.DebounceClosedForm` | app/time_utils.py:160-197 | after any clean readings the cache is the last reading of the latest value confirmed N times in a row, else of the first value; the candidate is the trailing run |
| `ServerTime.ClosedFormDetermines` | app/time_utils.py:160-197 | that description fixes cache, candidate and count completely |
| `ServerTime.UncleanTicksIgnored` | app/time_utils.py:164-169 | any tick history acts like its clean readings alone |
| `ServerTime.FewReadingsKeepCache` | app/time_utils.py:174-180 | fewer than N readings, counting pending dissent, never change the cached value |
| `ServerTime.EnoughReadingsSwitch` | app/time_utils.py:174-189 | agreeing dissenters in a row, together with those of their value already counted, change the cached value exactly once they are N, and refresh it from then on |
| `OffsetRefresh.LiveTick` | app/time_utils.py:215-233 | finds the freshest quote that advanced, the first among equals, and none exactly when none advanced |
| `OffsetRefresh.AdvancedExactly` | app/time_utils.py:225-230 | a quote advanced exactly if its symbol was read before, both times are set, and the later is greater |
| `OffsetRefresh.QuoteIsRead` | app/mt5_connection.py:317-352 | a quote in milliseconds is read in seconds |
| `OffsetRefresh.RefreshServerOffset` | app/mt5_connection.py:317-352 | takes exactly the first reading derivable from an advanced quote before any read raises; without one the cache is untouched |
| `OffsetRefresh.RefreshesNeedConfirmation` | app/mt5_connection.py:317-335 | a cached offset changed by refreshes alone needed at least N of them |
| `OrderTime.UsableIffConvertible` | app/time_utils.py:108-119 | the usability test holds exactly when the conversion at that instant succeeds |
| `OrderTime.ConversionIsTrusted` | app/time_utils.py:321-352 | a conversion yields the truncated epoch plus an explicit offset or one agreed within the maximum age, or nothing |
| `OrderTime.ConversionCases` | app/time_utils.py:334-352 | the zone at that instant beats the configured offset, which beats a cached one no older than the maximum; else the conversion refuses |
| `OrderTime.ReadingCases` | app/time_utils.py:308-318 | the reading direction takes the zone at present, the configured or the cached offset however old, or none |
| `OrderTime.TruncateCuts` | app/time_utils.py:339-352 | fractions of a second are cut off towards zero |
| `OrderTime.RoundTripCondition` | app/time_utils.py:308-352 | UTC to server and back is the identity exactly when no zone is set or its two offsets agree |
| `OrderTime.ServerRoundTrip` | app/time_utils.py:308-352 | server to UTC and back is the identity for env and derived offsets |
| `OrderTime.DissentDoesNotRefresh` | app/time_utils.py:174-197 | one dissenting reading does not make a stale offset usable when more are needed |
| `OrderTime.DeriveFromLiveQuote` | app/order_time.py:34-44 | only the first move of the order's own quote feeds the cache, once |
| `OrderTime.MovesExactly` | app/order_time.py:37-43 | two reads show a move exactly if both have a time and the later is greater |
| `OrderTime.FrozenNeverMoves` | app/order_time.py:37-43 | a quote that repeats itself or goes back derives nothing |
| `OrderTime.ApplyExpiration` | app/order_time.py:69-83 | writes only trusted deadlines, refuses otherwise leaving the deadline as it was, and touches the cache only when it was unusable |
| `OrderTime.IsUsable` | app/time_utils.py:108-119 | the imperative test agrees with the function |
| `OrderTime.Convert` | app/time_utils.py:321-352 | the imperative conversion agrees with the function, refusals included |
| `Money.VolumeIsGreatestStep` | app/money.py:31-44 | normalising succeeds exactly when the greatest step multiple not above an in-range volume reaches the minimum, and returns it |
| `Money.VolumeIdempotent` | app/money.py:31-44 | a normalised volume normalises to itself |
| `Money.VolumeMonotone` | app/money.py:31-44 | larger accepted volumes normalise to no less |
| `Money.NormalizedIsAccepted` | app/lib.py:358-382 | a normalised volume passes the older check exactly when the minimum is near the step grid |
| `Money.NormalizedButRefused` | app/lib.py:358-382 | a volume of 0.02 with minimum 0.015 and step 0.01 normalises to itself and is then refused |
| `Money.WholeMinimumIsNear` | app/lib.py:373-380 | a minimum that is a whole number of steps always is |
| `Money.ValidVolumeIsNear` | app/lib.py:358-382 | the older check accepts exactly the volumes in range within 1% of a step of the grid that starts at the minimum |
| `Money.NoStepNoRounding` | app/money.py:37-40 | without a step both checks test the range only |
| `Money.VolumeErrors` | app/money.py:37-43 | which of the two errors a refused volume gets |
| `Money.PriceIdempotent` | app/money.py:47-59 | a positive normalised price normalises to itself, for every tick and precision |
| `Money.PriceMonotone` | app/money.py:47-59 | rounding in two stages keeps the order of prices |
| `Money.PriceError` | app/money.py:47-59 | the result is within half a tick plus half a quantum |
| `Money.QuantumPerDigit` | app/money.py:58-59 | the quantum is 1 at no digits and ten times finer with each digit, for negative digits too |
| `Money.PriceDecimals` | app/money.py:58-59 | for digits of at least zero, the result is a whole number over 10^digits, within half a tick and half of 1/10^digits |
| `Money.PricesArePositive` | app/money.py:50-51 | exactly the prices that are not positive are refused |
| `Money.PriceOnTick` | app/money.py:47-59 | if the tick is a multiple of the quantum, the result is a tick multiple within half a tick |
| `Money.PriceVanishes` | app/money.py:47-59 | for every tick and precision, a positive price stays positive exactly when it, rounded to the tick if there is one, is at least half a quantum |
| `Money.VanishesUnderHalfTick` | app/money.py:47-59 | with a tick of at least the quantum, exactly when it is at least half a tick |
| `Autologin.PersistAlgoTrading` | app/autologin.py:88-116 | the written text is the rendered rewrite of the lines read, and its Experts section carries the switch asked for |
| `Autologin.FilterExperts` | app/autologin.py:101-112 | the loop with its section flag keeps the outside lines and collects the foreign Experts lines |
| `Autologin.RewriteKeepsSections` | app/autologin.py:98-115 | every other section reads as before in order; one Experts section remains, at the end, with the three settings and then its other lines |
| `Autologin.SwitchIsWritten` | app/autologin.py:97-114 | the Experts section reads AllowLiveTrading and Enabled with the value asked for and Account=0, each once, then its other lines |
| `Autologin.FileCarriesSwitch` | app/autologin.py:97-116 | the same on the file as it is read back, whatever it held before |
| `Autologin.WantedExactly` | app/autologin.py:111-112 | the lines replaced are exactly those that, stripped, name one of the three keys, alone or before an equals sign |
| `Autologin.HeadersExactly` | app/autologin.py:105-108 | a header is a stripped line with a bracket first; it opens Experts exactly if it reads [experts] in any case |
| `Autologin.RewritePlacesLines` | app/autologin.py:98-115 | by position and in order, the lines before the new header are exactly those not governed by an Experts header, and the lines after the settings exactly the foreign ones that are |
| `Autologin.LastRewriteWins` | app/autologin.py:98-115 | of several rewrites only the last shows; repeating one changes nothing |
| `Autologin.FileReadsBack` | app/autologin.py:98-115 | the written file, read in text mode and split, gives exactly the lines written |
| `Autologin.LastPersistWins` | app/autologin.py:98-116 | the same for whole files |
| `Autologin.SplitUndoesRender` | app/autologin.py:114-115 | splitting CRLF-terminated lines gives them back |
| `Autologin.SplitJoins` | app/autologin.py:104-104 | splitting loses nothing: lines and line ends between them are the text, CRLF is one line end, a last line needs none |
| `Autologin.BreaksAreExactly` | app/autologin.py:104-104 | the characters that end a line |
| `Text.StripCuts` | app/autologin.py:105-105 | stripping takes all white space off both ends and nothing else |
| `Text.SpacesAreExactly` | app/autologin.py:105-105 | the characters that count as white space |
| `Text.LowerIgnoresCase` | app/broker_resolver.py:97-100 | lower-casing makes texts equal exactly if they differ in nothing but the case of ASCII letters |
| `Autologin.UniversalKeepsLines` | app/autologin.py:100-105 | newline translation on reading moves no line boundary |
| `FillConfirmation.ClosingDealIsRight` | app/close_confirm.py:34-46 | the deal is the named one if priced, else the first of the newest qualifying deals, else none exactly when none qualifies; a lookup that raises finds none |
| `FillConfirmation.ConfirmClose` | app/close_confirm.py:49-87 | for every timeout and poll interval: the first hit wins and fills price, deal and a missing volume; without one it stops at the first deadline test that is due, changing nothing, or raises at the first pause if that is negative |
| `FillConfirmation.FoundIsPriced` | app/close_confirm.py:34-46 | a confirmed close has a non-zero price |
| `FillConfirmation.ResolveAsyncFill` | app/routes/order.py:64-103 | the same wait for a market order, deal before position, with the pause and the deadline test before each lookup |
| `FillConfirmation.DealBeforePosition` | app/routes/order.py:77-100 | a priced deal of the ticket comes before the open price of the position, and a lookup that raises finds neither |
| `SymbolCache.SelectCache.Insert` | app/lib.py:51-54 | at capacity the oldest key goes, then the symbol is appended unless present |
| `SymbolCache.SelectCache.Invalidate` | app/lib.py:58-66 | removes just that symbol |
| `SymbolCache.SelectCache.Validate` | app/lib.py:33-55 | an undisturbed call: a hit costs no select, only a successful select is cached |
| `SymbolCache.CacheStaysBounded` | app/lib.py:43-66 | in every interleaving the cache stays within capacity and free of duplicates |
| `SymbolCache.KeysInInsertionOrder` | app/lib.py:43-66 | in every interleaving the keys stand in the order in which they were put in, counting a key's last insertion, with no invalidation of it since |
| `SymbolCache.EvictsTheOldest` | app/lib.py:51-54 | in every run, a key evicted by a store was put in before every other cached key, and the cache was full |
| `SymbolCache.LoneRequest` | app/lib.py:33-55 | an undisturbed request selects exactly on a miss and stores exactly a successful select |
| `SymbolCache.HitsAreVouched` | app/lib.py:43-66 | every hit follows a successful select stored since the symbol's last invalidation |
| `BrokerResolver.TableAccessIsRight` | app/broker_resolver.py:92-101 | an exact server name wins over earlier case variants, else the first variant, else nothing |
| `BrokerResolver.SameNameIgnores` | app/broker_resolver.py:96-100 | names are the same exactly if they differ in nothing but padding and the case of letters |
| `BrokerResolver.ParseAccess` | app/broker_resolver.py:104-128 | the nested loops yield the matching endpoints, stripped, non-empty, first occurrences in order |
| `BrokerResolver.EndpointsInOrder` | app/broker_resolver.py:121-127 | the endpoints of matching servers, and only theirs, follow each other in order |
| `BrokerResolver.CompaniesInOrder` | app/broker_resolver.py:118-121 | and so company by company, skipping what is no record |
| `BrokerResolver.AnswersInOrder` | app/broker_resolver.py:110-118 | and answer by answer; a failure or an answer that is no list gives none |
| `BrokerResolver.ConnectCandidates` | app/broker_resolver.py:173-206 | the accumulation equals keep-first de-duplication of table, resolver answers in order, and name |
| `BrokerResolver.CandidatesAreFirsts` | app/broker_resolver.py:195-199 | the candidates are the stripped items that are not blank, each at its first place, in order, none missing |
| `BrokerResolver.MergingParsed` | app/broker_resolver.py:122-128 | de-duplicating inside one answer first changes nothing in the whole |
| `BrokerResolver.NameIsCandidate` | app/broker_resolver.py:205-206 | the server name is always a candidate, last unless a source listed it |
| `BrokerResolver.CandidatesAreUsable` | app/broker_resolver.py:195-206 | no candidate is repeated, empty or padded |
| `Positions.CloseAllPositions` | app/lib.py:170-232 | tries to close exactly the selected positions in order and files each outcome under closed or failed; every early exit as in the code |
| `Positions.SettledPartitions` | app/lib.py:197-232 | closed and failed together are the positions tried, none lost or doubled |
| `Positions.SelectionIsExact` | app/lib.py:180-194 | a position is selected exactly if it matches both filters |
| `Positions.ReportIsRight` | app/lib.py:197-232 | every position tried is reported where it belongs: its result, its refusal with retcode, or an unknown outcome |
| `Positions.OrderIsKept` | app/lib.py:180-232 | selection and report keep the order of the positions |
| `Positions.SummaryIgnoresOrder` | app/lib.py:298-338 | with distinct time keys the whole summary is the same for every order of the history |
| `Positions.TotalsAreConserved` | app/lib.py:332-334 | profit, commission and swap are the sums over all deals |
| `Positions.VolumeIsEntered` | app/lib.py:319-323 | the volume is the sum over the entry deals |
| `Positions.OpensWithEarliestEntry` | app/lib.py:302-310 | the opening time is no later than any entry |
| `Positions.ClosesWithLatestExit` | app/lib.py:303-311 | the closing time is no earlier than any exit |
| `Positions.ClosesOnlyWithExit` | app/lib.py:303-311 | a closing time is always the time of an exit |
| `Positions.SortIsStable` | app/lib.py:303-306 | the rows are all deals, each once, by time and milliseconds, ties in the order of the history |
| `Positions.OpeningIsFirstEntry` | app/lib.py:307-330 | symbol, side, opening time and price are those of one deal, the first entry, or the first deal if there is no entry |
| `Positions.ClosingIsLastExit` | app/lib.py:303-337 | closing time, price and comment are those of one deal, the last exit; without an exit the position is open |
| `Positions.NoDealsNoSummary` | app/lib.py:298-301 | a summary is missing exactly without deals |

## Left out

- Flask routing, response envelopes, logging, metrics, audit, swagger: plumbing without an invariant of its own.
- The native module, Wine and the boot scripts: native calls may answer anything.
- Orders without an idempotency key: the gateway promises nothing about repeats of them.
- The hash in the fingerprint and the magic number: a fingerprint is the intent itself, without the client order id.
- The validation between `begin` and `order_check` is one step that passes, rejects or throws.
- The boot-time `initialize()` is not part of the protocol: it runs outside the reconnect lock, before any request is served.
- `Connection.MT5Connection.Initialize`: attempt results are inputs, and at most one IPC failure is reported per successful attempt.
- The re-entrancy of the native lock and a module without `last_error`: no caller nests wrapped calls.
- `MT5Connection.shutdown` and the start of the refresher thread: single-branch code.
- Numbers are exact reals and unbounded integers where the code has floats and 28-digit decimals; parsing of numeric input is not modelled.
- Misconfigured environment values (unparsable integers, unknown zones) and zone tables: settings arrive parsed, a zone is any function of the instant.
- `FillConfirmation.ConfirmClose`: with a poll interval of zero nothing but the lookups themselves moves the clock, so it requires that some number of them reaches the deadline; otherwise the code never stops.
- `FillConfirmation.ResolveAsyncFill`: likewise.
- In `ConnectionProtocol`, testing the cooldown and noting an outcome are one step each: only holders of the reconnect lock write the not-before time, and the test that decides runs under that lock. The test and the write of an IPC failure are one step too; apart, they could also overwrite RECONNECTING, which no step distinguishes from DISCONNECTED.
- `derive_from_tick` and each locked store operation are single steps; the unlocked globals are not split further.
- UTF-16 encoding of the ini file: the rewrite is on decoded text. Lower-casing is ASCII only, which decides the Experts header alike; server names with other letters compare differently from the code.
- Resolver answers whose nested records are not objects make the code raise; the model has only well-formed records and unusable companies.
- `close_position` itself, and the price confirmation appended to each closed result: its outcome is an input per position.
- `validate_sl_tp`, `validate_pending_price`, filling modes and retcode tables: single-branch checks.
