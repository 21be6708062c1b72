# A verified model of compio-pool

compio-pool is a thread-per-core connection pool. Each thread owns a `LocalPool`: a last-in
first-out list of idle connections, a count of slots against `max_size`, leases that return
themselves when dropped, and a first-in first-out queue of tasks parked in `get`. Every freed unit
of capacity wakes one of them. This project models that pool, the roll-up of its per-thread
counters, the HTTP proxy example that shares pooled upstreams between clients, and the ordering of
cores for pinning, and proves what they promise.

`dafny verify dfyconfig.toml` checks everything.

## How the model is built

**The pool as a protocol.** `PoolProtocol` holds one thread's pool and every call in progress on
it. A task stands at an await, where it may be cancelled, or at a call-out: a connection's own
`Drop`, `Waker::wake`, `has_broken`. Any other task may move meanwhile, so a call made from inside a
call-out is the special case in which that other task runs first. The code between two such points
is one step. The manager's answers, the clock, timeouts and cancellations are the events of a run;
the theorems in `PoolRuns`, `PoolFairness`, `PoolAlone`, `PoolWaits` and `PoolClosing` quantify over
all runs. `PoolLinks` (queue and parked tasks agree), `PoolBalance` (slots, gauges, statistics,
wakes), `PoolIdentity` (where each connection is) and `PoolOrder` (the idle list) hold the step
lemmas. `PoolCalls`, `PoolCheckout`, `PoolAges`, `PoolExpiry`, `PoolCounters` and `PoolWarm` tell what a
call does by the events of the run alone: which calls were begun, what the manager answered, when each
connection was opened and last put on the idle list. `PoolWakes` bounds the wakes.

**The pool as code.** `Waiters` and `LocalPool` are classes updated in place, with the loops of the
source: binary search, the wake loop, `pop_fresh_idle`, the partition in `reap`, `warm`. Each method
is tied to a function on the pool's state, or states its result outright, and `PoolSequential` proves
that a task of the protocol that runs alone computes the same functions. The classes track the borrow
of each cell; connections are dropped, wakers run and the manager is asked only by methods that
require both cells unborrowed.

**Metrics.** `MetricsRollup` follows one counter at the granularity of single atomic operations:
pools opening, counting, retiring (swap, then add) and being freed, while a scrape reads the retired
counter and then visits the registry. Operations interleave; relaxed ordering has no other effect.

**HTTP.** `HttpText` and `HttpFraming` model `body_length` on bytes, lossy UTF-8 included;
`HttpUtf8` and `HttpRefusals` say what that comes to on the text of a head; `HttpStream` the
incremental reader with its buffer's capacity, as a class and as a function of the stream;
`HttpLateHeads` what that capacity decides; `HttpReplies` the printers; `ProxyPairing`, `ProxyRefusals`
and `ProxyAnswers` the proxy's clients, the shared upstreams and the origin as a state machine whose
steps are the awaits of `handle_client`.

**Cores.** `CoreSpread` models the round-robin over packages, `CoreSiblings` where SMT siblings end
up in it, `AffinityMask` the mask of one cpu.

## Where the code and its documentation differ

The model follows the code.

- `Statistics` says that counters only ever grow (src/pool.rs:236-238). A scrape that overlaps a
  retirement can miss the retiring block, so a later report can be lower: `CountersMayFall` gives a
  run. `ReportedIffLoadedInTime` says exactly which blocks a report holds. While nothing is counted,
  a report falls below the true total if and only if it misses some block that had counted, one
  between swap and add when the scrape began or swapped before the scrape loaded it
  (`ReportFallsIffMissed`); after a report that was right, that is when the next one is lower
  (`SecondReportFallsIffMissed`).
- After `close` returned connections are said to be dropped (src/pool.rs:1090-1091). A return that
  has passed its check of the flag, and a `warm` past its own, still park their connection:
  `ReturnRacingCloseParks`. `GrowsExactly` names the steps that do, and
  `OnlyEarlierCallsFeedTheIdleList` says that their calls were past the check before.
- `spread` is said to put SMT siblings last (src/cpu.rs:165-168). Its sort key keeps them together
  within a package, and packages with fewer cores reach their siblings earlier. Within a package they
  come last if and only if only its greatest core has more than one thread (`SiblingsLastExactly`;
  `SpreadTwoByTwo` is a topology where they do not). In the whole set they do if and only if that
  holds of every package and, besides, a package with siblings has at least as many cores as any
  other, or one less than a package dealt before it (`SetSiblingsLastExactly`; `SpreadTwoPackages` is
  a topology where they come last on each package and not in the set).
- A header block is said to be refused beyond `MAX_HEAD` (examples/http_proxy.rs:62). A read never
  exceeds the buffer's spare capacity, and the buffer doubles only when full, so a late head is
  always refused while the buffer has not grown beyond the limit. After a longer message it has, and
  then a head that ends beyond the limit but within the capacity is read if it arrives in one piece
  and refused if a read stops at the limit. `SplittingMattersExactly` gives the condition, both ways.
- A 1xx, 204 or 304 response never has a body (section 6.3 of RFC 9112). One that carries a
  `Content-Length` is read with that length: `StatusDoesNotOverrule` for any status,
  `BodylessReadWithLength` for a 204 and a 304. `FramingExactly` at n = 0 is the exact condition for
  reading no body: no transfer-encoding, and every content-length zero or, for a request or such a
  status, none at all. A length may have a leading plus sign (`ParsePlus`), which section 8.6 of
  RFC 9110 does not allow.

One more step is worth knowing, though no documentation denies it. A caller that drops
`handle_client` in the middle of an exchange returns the upstream as healthy with a response
outstanding. `KeptUnlessCancelled` proves that only such a drop breaks the pairing of requests and
responses, and that it always does; `WaitingMeansIncomplete` that such an upstream is parked healthy and
with an empty buffer, so that nothing tells it from the others. The example's own client tasks are detached
(examples/http_proxy.rs:239) and run to their end.

## Model

| member | source | states |
|---|---|---|
| `PoolTypes.Build` | src/builder.rs:169-176 | A configuration is refused exactly for a zero `max_size`; an accepted one has `1 <= max_size` and the lesser of the requested `min_idle` and `max_size` as `min_idle`; every other setting survives. |
| `PoolRuns.EveryRun` | src/pool.rs:848-964 | In every reachable state, call-outs and cancellations included, the whole invariant holds: accounts, wakes, queue links, identities, idle order. |
| `PoolRuns.NoStrandedCapacity` | src/pool.rs:486-502 | On an open pool with a task queued, free units are at most the woken waiters that have not acted; with none of those, nothing is idle and every slot is leased or reserved. |
| `PoolRuns.NoStrandedCapacityInCallOuts` | src/pool.rs:1282-1298 | The same in the middle of any call-out, counting the wakes still to be sent. |
| `PoolRuns.SlotsConserved` | src/pool.rs:469-517 | After every run, whenever no task is in the middle of its code, slots are exactly idle plus leased plus reserved connections, and never above `max_size`. |
| `PoolRuns.LiveConnectionsCapped` | src/pool.rs:715-745 | Connections that exist and belong to the pool, those being dropped included, never exceed `max_size`, even inside re-entrant `Drop` code. |
| `PoolRuns.ConnectionsInOnePlace` | src/pool.rs:1050-1116 | Every connection ever opened is in exactly one place: idle, with exactly one task, or gone. |
| `PoolRuns.NothingSaturates` | src/pool.rs:475-480 | A task about to release slots, to lower the idle gauge for a batch or to pop an idle connection never meets a smaller counter, so the saturating subtractions are exact. |
| `PoolWakes.NoWakeWithoutCause` | src/pool.rs:486-502 | In every run of an open pool, the wakes sent and still to be sent are no more than the slots given back, the connections put on the idle list and the woken waiters that gave up. |
| `PoolRuns.StatisticsAddUp` | src/pool.rs:519-552 | At rest the gauges equal slots, idle length and queue length; created is live plus closed by reason plus taken plus abandoned; checkouts are returned plus taken plus outstanding. |
| `PoolWaits.WaitedExactlyIfParked` | src/pool.rs:966-982 | In every run, each checkout is counted once: as waited if its call was ever parked, as direct if it was not; no other step moves either counter. |
| `PoolRuns.WatermarkTellsTheTruth` | src/pool.rs:1240-1277 | For a live waiter, queued, above the watermark and not woken are the same; withdrawing and refreshing do what a membership test would. |
| `PoolRuns.IdleListSorted` | src/pool.rs:1067-1075 | The idle list is sorted by last use in every reachable state. |
| `PoolLinks.StepLinked` | src/pool.rs:1324-1353 | Every step keeps queue and parked tasks naming each other, with ids strictly increasing. |
| `PoolBalance.StepBalanced` | src/pool.rs:894-1017 | Every step keeps slots, gauges, statistics and the cover of free capacity by wakes. |
| `PoolIdentity.StepWhole` | src/pool.rs:1078-1085 | Every step keeps each connection in exactly one place. |
| `PoolOrder.StepTimely` | src/pool.rs:1170-1175 | Every step keeps the idle list sorted by last use and not in the future. |
| `PoolFairness.WokenInRegistrationOrder` | src/pool.rs:1282-1298 | Over any run, ids are woken in strictly increasing order of registration. |
| `PoolFairness.OneFatePerRegistration` | src/pool.rs:1243-1277 | Every registration is queued, woken once, or withdrawn once: exactly one of the three. |
| `PoolFairness.WokenWithinItsPosition` | src/pool.rs:1279-1298 | From any reachable state, a waiter with k others ahead never falls back and is off the queue after k + 1 wakes. |
| `PoolAlone.ResolvedWaitPaysOff` | src/pool.rs:894-963 | In every run, whichever way a `get` of an open pool comes to poll `wait_ready` (woken or not, after a back-off, at its beginning with or without the fast path, after a failed validation): the poll obtains a connection or a reservation if the pool is ready, and parks if and only if it is not, so the fall-through retry is not reached. |
| `PoolAlone.NothingFreeMeansFull` | src/pool.rs:848-892 | In any run `try_get` finds nothing only when nothing is idle and all `max_size` slots are held. |
| `PoolAlone.WarmMeetsItsFloor` | src/pool.rs:675-704 | In any run a `warm` begun on an open pool returns `Ok` only with `min_idle` idle or no slot left. |
| `PoolCalls.EveryCallKeepsToItsPart` | src/pool.rs:811-964 | In every run, each call stands only where such a call may, with `test_on_check_out` and without, and ends only as it may. |
| `PoolCalls.EveryEndSettledOnce` | src/pool.rs:811-964 | In every run, how a call ends is settled once and then stays: by its cancellation, by its lease being returned or taken, by a refused dial that is not retried, as a batch is taken off the idle list, or as the closed error. A call comes to back off exactly when a dial of a `get` is refused on an open pool with `retry_connection`. |
| `PoolCalls.ClosedErrorOnlyIfClosed` | src/pool.rs:811-850 | In every run, the closed error is given only once the pool is closed. |
| `PoolCalls.NumbersReported` | src/pool.rs:675-800 | In every run, `warm` reports exactly the connections it opened, `reap` and `clear` exactly those they took off the idle list. |
| `PoolCheckout.EveryLeaseChecked` | src/pool.rs:811-943 | In every run, with `test_on_check_out` a step makes a lease if and only if the manager has just found that very connection valid or opened it; without it nothing is validated, and the only other leases are of the newest idle connection. |
| `PoolCheckout.TryGoesOn` | src/pool.rs:853-880 | In every reachable state, a `try_get` whose connection fails validation goes on with the newest idle connection that has not expired, and otherwise with a dial. |
| `PoolAges.EveryStampTrue` | src/pool.rs:408-414 | In every run, every connection the pool has carries the time at which it was opened and that at which it was last put on the idle list. |
| `PoolExpiry.ReapByTheClock` | src/pool.rs:715-736 | In every run, a reap leaves idle exactly the connections that were opened less than `max_lifetime` ago, however often returned since, and put on the list less than `idle_timeout` ago. |
| `PoolExpiry.PopsByItsBeginning` | src/pool.rs:1001-1004 | In every run, a task in the middle of `pop_fresh_idle` judges by the time at which it began. |
| `PoolExpiry.PopByTheClock` | src/pool.rs:1001-1017 | In every run, a checkout takes the newest idle connection and discards it exactly if by that time it was too old or too long idle, too old first; otherwise it validates it, or hands it out without `test_on_check_out`. |
| `PoolExpiry.ReturnByTheClock` | src/pool.rs:1166-1175 | In every run, a lease that comes back unbroken is dropped exactly if it is too old or was put on the list too long ago, too old first; otherwise it becomes the newest idle connection. |
| `PoolCounters.EveryCounterExact` | src/pool.rs:240-275 | In every run, each counter of openings, of timeouts and of closed connections by reason is, with what is dropped but not counted yet, exactly the number of events it is named for. |
| `PoolWarm.WarmDialsBelowItsFloor` | src/pool.rs:681-684 | Whatever else is going on, a `warm` reserves a slot only with fewer than `min_idle` idle and room below `max_size`. |
| `PoolWarm.WarmAlone` | src/pool.rs:675-700 | With nobody else about, a `warm` of the protocol does what the class method does: the same number of connections, each parked as its dial is over, and the same waiters woken. |
| `PoolWarm.WarmFailsAlone` | src/pool.rs:698-701 | Whichever of its dials fails, the slot is given back, one waiter woken, and what was opened stays. |
| `PoolClosing.ClosedQueueOnlyShrinks` | src/pool.rs:1019-1023 | After `close`, in every continuation, no waiter is queued again. |
| `PoolClosing.ClosingDrainsTheQueue` | src/pool.rs:1300-1341 | Once any step has noticed the flag, the queue stays empty or on its way there, and is empty as soon as no task is in the middle of its code. |
| `PoolClosing.NoticingEmpties` | src/pool.rs:1326-1335 | The task that noticed, run alone, leaves the queue empty before it waits again. |
| `PoolClosing.PolledAfterCloseFails` | src/pool.rs:894-907 | Every waiter or back-off polled on a closed pool, and every `get` or `try_get` begun on one, ends in the closed error and reserves nothing. |
| `PoolClosing.ValidationEnds` | src/pool.rs:913-928 | A `get` resumed from a failed validation on a closed pool drops that connection, gives its slot back and ends in the closed error. |
| `PoolClosing.NoLaterPollReserves` | src/pool.rs:894-935 | In every continuation after `close`, no `get` that stood at an await or had not begun comes to hold a slot for a dial, whichever await it is resumed from. |
| `PoolClosing.ReserversPredateClose` | src/pool.rs:905-935 | A `get` that holds a slot for a dial after `close` was dialling already, or was in the middle of a poll of `wait_ready` that had found the pool open; the fast path checks the flag again first. |
| `PoolClosing.TryReservesExactly` | src/pool.rs:857-880 | On a closed pool a `try_get` comes to dial exactly when it was past its check before, its wakes are sent, nothing is idle and there is room; no call comes to be past that check. |
| `PoolClosing.TriesPredateClose` | src/pool.rs:848-892 | So in every continuation after `close` a `try_get` that dials was dialling or past its check at close. |
| `PoolClosing.GrowsExactly` | src/pool.rs:1068-1073 | A step grows the idle list if and only if it is a `warm` dial that succeeds or a return whose connection is sound and unexpired. |
| `PoolClosing.OnlyEarlierCallsFeedTheIdleList` | src/pool.rs:675-682 | After `close` only a `warm` or a return that had passed its check before can add to the idle list. |
| `PoolClosing.ReturnRacingCloseParks` | src/pool.rs:1152-1176 | A run in which a return, past its check, parks its connection on a closed pool. |
| `PoolCore.ReapSplitsByExpiry` | src/pool.rs:715-736 | A reap keeps exactly the unexpired connections and retires exactly the expired ones. |
| `PoolCore.ReapKeepsOrder` | src/pool.rs:726-734 | Both parts are in the order of the list. |
| `PoolCore.PlacesExact` | src/pool.rs:726-734 | Their places in the list are exactly those of the unexpired and of the expired connections. |
| `PoolCore.RetiredCountedByReason` | src/pool.rs:346-352 | Each of the two counters grows by exactly the connections retired for its reason. |
| `PoolSequential.ReapCutsPrefix` | src/pool.rs:426-438 | Without a maximum lifetime, a reap of a sorted list cuts off exactly a prefix. |
| `PoolSequential.PopFreshNewestOrNothing` | src/pool.rs:999-1017 | Under the same conditions `pop_fresh_idle` gives the newest connection and discards none, or all have expired and the list is emptied. |
| `PoolSequential.PopFreshDiscards` | src/pool.rs:1004-1015 | In general it discards exactly the expired connections at the end, counts each under its reason, gives each slot back, wakes one waiter for each, and hands out the newest of the rest. |
| `PoolSequential.LeastRecentlyUsedGoFirst` | src/pool.rs:1001-1017 | Both, in every reachable state of a pool without a maximum lifetime, at any time. |
| `PoolSequential.ReapAlone` | src/pool.rs:715-745 | A reap of the protocol that runs alone computes the function the class method is proved against. |
| `PoolSequential.ClearAlone` | src/pool.rs:777-800 | The same of `clear`. |
| `PoolSequential.ReturnAlone` | src/pool.rs:1152-1178 | The same of the return of a lease, for every answer of `has_broken`. |
| `PoolSequential.PopLoopAlone` | src/pool.rs:1002-1017 | The same of the discard loop of `pop_fresh_idle`, and what each caller does with its result. |
| `WaitQueue.WatermarkRefinesPlain` | src/pool.rs:1196-1203 | On a sorted queue, the operations with the watermark agree with plain membership tests, in result and contents, for every id a live waiter may hold. |
| `WaitersModule.Waiters.constructor` | src/pool.rs:1215-1224 | An empty queue, ids from 1, nobody woken. |
| `WaitersModule.Waiters.Search` | src/pool.rs:1268-1276 | The binary search finds an id exactly when it is queued, at its only position. |
| `WaitersModule.Waiters.Register` | src/pool.rs:1243-1260 | Refreshes the waker of a waiter still queued, else queues it last under a fresh id; keeps the order and the gauge. |
| `WaitersModule.Waiters.Unregister` | src/pool.rs:1264-1277 | Takes exactly that waiter off, or reports that it had been woken and changes nothing. |
| `WaitersModule.Waiters.RunWaker` | src/pool.rs:1280-1281 | A waker runs with neither cell borrowed and may poll inline: its task then registers again, last and under a fresh id. |
| `WaitersModule.Waiters.Wake` | src/pool.rs:1282-1298 | Wakes up to n waiters: those queued at the beginning first, oldest first, whichever of them register again inline; raises the watermark and leaves the rest in order. |
| `WaitQueue.OldestWokenFirst` | src/pool.rs:1279-1298 | The tasks woken begin with the oldest entries, in order, whoever rejoins. |
| `WaitQueue.WakeWithoutRejoin` | src/pool.rs:1282-1298 | If nobody rejoins, exactly the min(n, queued) oldest leave the queue. |
| `WaitersModule.Waiters.WakeAll` | src/pool.rs:1300-1304 | Wakes as many as were queued when it began, counted in 32 bits; empties a queue of up to 2^32 - 1 waiters that do not rejoin. |
| `LocalPoolModule.LocalPool.constructor` | src/pool.rs:590-618 | An empty pool: no slots, nothing idle, nobody queued, gauges and counters zero. |
| `LocalPoolModule.LocalPool.DropAll` | src/pool.rs:717-737 | Connections are dropped only while neither cell is borrowed. |
| `LocalPoolModule.LocalPool.ReleaseSlots` | src/pool.rs:475-480 | Slots and their gauge fall together by n. |
| `LocalPoolModule.LocalPool.PushIdle` | src/pool.rs:504-508 | Adds one connection at the newest end; the gauge follows. |
| `LocalPoolModule.LocalPool.ReleaseSlot` | src/pool.rs:486-490 | Gives back one slot and wakes one waiter, or all of a closed pool. |
| `LocalPoolModule.LocalPool.NotifyWaiters` | src/pool.rs:496-502 | Wakes n waiters of an open pool, all of a closed one. |
| `LocalPoolModule.LocalPool.PopIdle` | src/pool.rs:510-517 | Takes the newest idle connection and lowers the gauge, or finds none and changes nothing. |
| `LocalPoolModule.LocalPool.PopFreshIdle` | src/pool.rs:1001-1017 | The loop computes that function and drops exactly the connections it discards, newest first. |
| `LocalPoolModule.LocalPool.Partition` | src/pool.rs:723-735 | The loop separates kept from expired in order and counts each under its reason. |
| `LocalPoolModule.LocalPool.Detach` | src/pool.rs:721-735 | The expired connections leave the list under the borrow and none is dropped yet. |
| `LocalPoolModule.LocalPool.Reap` | src/pool.rs:715-745 | The whole new state, the connections dropped and their number. |
| `LocalPoolModule.LocalPool.Clear` | src/pool.rs:777-800 | Drops every idle connection; notifies even if there was none, which empties a closed pool's queue. |
| `LocalPoolModule.LocalPool.HasBroken` | src/pool.rs:1162-1162 | The manager is asked only while neither cell is borrowed. |
| `LocalPoolModule.LocalPool.ReturnLease` | src/pool.rs:1152-1178 | Parks the connection stamped with the time of return, or drops it under the right reason and frees its slot; a closed pool does not ask the manager. |
| `LocalPoolModule.LocalPool.TryReserve` | src/pool.rs:984-997 | Takes a slot exactly when there is room. |
| `LocalPoolModule.LocalPool.Warm` | src/pool.rs:675-704 | With every dial succeeding it opens exactly min(max(0, min_idle - idle), max_size - slots), each parked at the time it was opened; at the first failure the reserved slot is released and the earlier ones stay parked. |
| `MetricsRollup.ScrapeNeverDoubleCounts` | src/pool.rs:376-406 | In every interleaving a report is at most the true total when the scrape ends. |
| `MetricsRollup.TotalIsWhatWasCounted` | src/pool.rs:555-570 | In every interleaving the true total is exactly what the owners of live blocks counted: no swap, add, free, prune or scrape loses or makes up any. |
| `MetricsRollup.HeldStaysAlive` | src/pool.rs:185-208 | In every interleaving, no block is freed while a scrape has upgraded it and not yet loaded it. |
| `MetricsRollup.ReportedIffLoadedInTime` | src/pool.rs:376-406 | What a block held when a scrape began is in its report if and only if the block was live and loaded before any swap of it, or past its add; otherwise nothing of it is. |
| `MetricsRollup.ReportFallsIffMissed` | src/pool.rs:236-238 | While nothing is counted, a report falls below the true total of when its scrape began if and only if some block that had counted is missed so. |
| `MetricsRollup.SecondReportFallsIffMissed` | src/pool.rs:236-238 | After a report that was right, and with nothing counted since, the next report is lower if and only if it misses some block that had counted. |
| `MetricsRollup.UndisturbedScrapeMissesNothing` | src/pool.rs:182-208 | If no retirement overlaps it, a report is at least the true total when the scrape began. |
| `MetricsRollup.UndisturbedScrapesGrow` | src/pool.rs:236-238 | A scrape that no retirement overlaps reports at least what any earlier one did. |
| `MetricsRollup.SwapDuringScrapeIsMissed` | src/pool.rs:555-570 | A block swapped at any time after the scrape began and before it is loaded, even one opened since, is missed altogether: the sum stays below the true total by all it held. |
| `MetricsRollup.CountersMayFall` | src/pool.rs:185-188 | A run with two scrapes that report 1 and then 0. |
| `HttpText.FindFirst` | examples/http_proxy.rs:418-423 | What is found is the first match; if nothing is found there is none. |
| `HttpText.ParseDec` | examples/http_proxy.rs:391-394 | A number printed in decimal is parsed back, for every 64-bit value. |
| `HttpText.ParsePlus` | examples/http_proxy.rs:391-394 | So is one with a leading plus sign. |
| `HttpUtf8.DecodeEncode` | examples/http_proxy.rs:380 | Every text is read back from its UTF-8. |
| `HttpUtf8.DecodeAcrossAscii` | examples/http_proxy.rs:380 | Whatever bytes stand around it, an ASCII byte is read as itself and parts the text there: ill-formed bytes swallow no line break, colon or digit. |
| `HttpUtf8.CutShort` | examples/http_proxy.rs:380 | A character cut short by anything but a continuation byte is read as one replacement character. |
| `HttpUtf8.StrayByte` | examples/http_proxy.rs:380 | So is a continuation byte on its own. |
| `HttpFraming.ComputeBodyLength` | examples/http_proxy.rs:379-415 | The loop over the header lines computes the body length or the first objection. |
| `HttpFraming.BodyLengthRule` | examples/http_proxy.rs:403-414 | The answer is n exactly when there is no transfer-encoding and all content-lengths, one at least, are n, or there is none and none is needed. |
| `HttpFraming.HeaderOrderIrrelevant` | examples/http_proxy.rs:384-402 | Heads with the same start line and the same header lines in any order have the same length, or neither has one. |
| `HttpRefusals.FramingExactly` | examples/http_proxy.rs:369-415 | On the text of any head, whatever its bytes, field names in any letter case and with blanks around them: the length is n exactly when no field is a transfer-encoding and every content-length denotes n, one at least or none needed; a numeral is an optional plus sign, zeros and the number as printed. |
| `HttpRefusals.EncodingRefused` | examples/http_proxy.rs:389-389 | A transfer-encoding, however written and whatever else the head holds, refuses it, for requests and responses. |
| `HttpRefusals.BadLengthRefused` | examples/http_proxy.rs:390-399 | So does a content-length that denotes no number, and so do two that denote different ones. |
| `HttpRefusals.EncodingNamed` | examples/http_proxy.rs:384-389 | The objection is to the first line at fault: a transfer-encoding is named as such, |
| `HttpRefusals.MalformedNamed` | examples/http_proxy.rs:390-394 | a content-length that denotes no number as malformed, |
| `HttpRefusals.ConflictNamed` | examples/http_proxy.rs:395-398 | and one that denotes another number than those before as conflicting. |
| `HttpRefusals.NumeralHolds` | examples/http_proxy.rs:391-394 | What denotes a number is not blank and holds no minus sign and no letter. |
| `HttpRefusals.LengthlessExactly` | examples/http_proxy.rs:403-414 | A response with neither field is read, without a body, exactly with status 1xx, 204 or 304, and refused for its missing length with any other; a request always is read. |
| `HttpRefusals.RefusedInStream` | examples/http_proxy.rs:136-137 | A head that is refused is objected to as soon as it is there, whatever follows. |
| `HttpRefusals.OversizeInStream` | examples/http_proxy.rs:138-140 | So is one that tells of more than the body limit. |
| `HttpRefusals.PrintedLines` | examples/http_proxy.rs:379-381 | The text of a head printed from lines is those lines and the empty ones that end it. |
| `HttpStream.Framed.constructor` | examples/http_proxy.rs:92-98 | An empty buffer of 8 KiB, healthy. |
| `HttpStream.Framed.ReadMore` | examples/http_proxy.rs:101-115 | Grows a full buffer, then appends one read, at most the spare capacity; or reports the end. |
| `HttpStream.Framed.ReadHead` | examples/http_proxy.rs:122-134 | The loop reads until the end of a head is buffered, the limit is reached or the stream ends. |
| `HttpStream.Framed.ReadBody` | examples/http_proxy.rs:142-146 | The loop reads until so many bytes are buffered, or reports that the stream ended first. |
| `HttpStream.Framed.Finish` | examples/http_proxy.rs:137-149 | Drains exactly head and body, or refuses, or reports the end; what follows the message stays buffered. |
| `HttpStream.Framed.ReadMessage` | examples/http_proxy.rs:121-150 | The method computes the outcome and the remaining stream of the function that the next rows are about. |
| `HttpStream.ReadingByTurns` | examples/http_proxy.rs:123-146 | After every read the reader decides on the buffered bytes alone. |
| `HttpStream.OutcomeByStream` | examples/http_proxy.rs:127-129 | If the head ends within the limit, the outcome is a function of the byte stream, however it is split. |
| `HttpStream.NextMessageKeeps` | examples/http_proxy.rs:148-149 | Whatever the outcome of one read, the message drained and what is left are what there was. |
| `HttpStream.NothingLost` | examples/http_proxy.rs:142-149 | Over a whole conversation, messages drained plus what is left are exactly the bytes received, wherever and however reading ended. |
| `HttpStream.ConversationByStream` | examples/http_proxy.rs:117-150 | All messages, the end and the rest of a whole conversation depend on the bytes only. |
| `HttpStream.SplittingIrrelevant` | examples/http_proxy.rs:100-150 | Two splittings of one stream give the same messages, end and rest. |
| `HttpLateHeads.SplittingMattersExactly` | examples/http_proxy.rs:100-134 | How a stream is split changes the outcome if and only if its head ends beyond the limit and within the buffer's capacity, and the buffer does not yet hold as much as the limit. |
| `HttpLateHeads.LateHeadRefused` | examples/http_proxy.rs:104-129 | A late head that the buffer cannot hold without growing is refused however it arrives. |
| `HttpLateHeads.LateHeadRefusedWhileSmall` | examples/http_proxy.rs:127-129 | So it is always refused while the buffer has not grown beyond the limit. |
| `HttpLateHeads.CapacityAfterMessage` | examples/http_proxy.rs:142-149 | A message leaves a buffer larger than the limit if and only if it was larger before or the message is longer than the limit. |
| `HttpLateHeads.NewConversationByStream` | examples/http_proxy.rs:117-150 | All that a new connection yields depends on the bytes only, if no late head comes after a message longer than the limit. |
| `HttpLateHeads.LateHeadAfterLongMessage` | examples/http_proxy.rs:123-134 | On a new connection, after such a message, a head within twice the limit is read in one piece and refused if a read stops at the limit. |
| `HttpLateHeads.LateHeadWitness` | examples/http_proxy.rs:62-65 | There are such messages and such heads. |
| `HttpReplies.SoundFrames` | examples/http_proxy.rs:350-367 | A reply with a true content-length is read as exactly one message whatever follows it. |
| `HttpReplies.RepliesRoundTrip` | examples/http_proxy.rs:121-150 | Any sequence of such replies, in any pieces, is read back as exactly those replies with nothing left. |
| `HttpReplies.GatewaySound` | examples/http_proxy.rs:350-357 | `bad_gateway` prints such a reply for every reason within the body limit. |
| `HttpReplies.RequestSound` | examples/http_proxy.rs:360-367 | So does `bad_request`. |
| `HttpReplies.OriginSound` | examples/http_proxy.rs:327-339 | So does the bundled origin, for all 64-bit counters. |
| `HttpReplies.OwnRepliesRoundTrip` | examples/http_proxy.rs:329-367 | Any concatenation of the three kinds of reply is read back as exactly those replies with nothing left. |
| `HttpReplies.OriginReplyFrames` | examples/http_proxy.rs:325-343 | Each answer of the bundled origin is one message whatever follows it, as pairing needs. |
| `HttpReplies.StatusTold` | examples/http_proxy.rs:329-367 | The status a reader finds in the three kinds of reply is 502, 400 and 200. |
| `HttpReplies.RefusalTells` | examples/http_proxy.rs:350-367 | A refusal gives its reason in its body and says that the connection will be closed. |
| `HttpReplies.OriginTells` | examples/http_proxy.rs:329-337 | A reader finds in the origin's reply the number of its connection, of the requests it has served, and that it stays open. |
| `HttpReplies.StatusDoesNotOverrule` | examples/http_proxy.rs:403-414 | A response with a content-length is read with that length, whatever its status line. |
| `HttpReplies.BodylessReadWithLength` | examples/http_proxy.rs:403-414 | So is a 204 or 304, which would be read without a body otherwise. |
| `ProxyPairing.KeptUnlessCancelled` | examples/http_proxy.rs:247-304 | Whatever the origin sends, a step keeps the exchange discipline if and only if it does not drop a task in the middle of an exchange. |
| `ProxyRefusals.WaitingMeansIncomplete` | examples/http_proxy.rs:272-281 | In every run, dropped tasks included, a client reading from an upstream has it to itself and what is buffered is the beginning of a response; every parked upstream is healthy with an empty buffer. |
| `ProxyRefusals.BrokenExchangeEnds` | examples/http_proxy.rs:297-301 | A failed write or read, a closed upstream or a response that cannot be framed ends the exchange at once: the client is dismissed without a response, its upstream discarded. |
| `ProxyRefusals.WholeResponseEnds` | examples/http_proxy.rs:283-296 | A whole response goes to its client; the upstream is parked exactly if it was healthy and nothing is left over. |
| `ProxyRefusals.ExchangeEndsExactly` | examples/http_proxy.rs:272-302 | In every run, an exchange ends exactly so, or by its task being dropped. |
| `ProxyRefusals.DismissedExactly` | examples/http_proxy.rs:247-302 | The steps that dismiss a client are exactly those, and a dismissed client gets nothing more. |
| `ProxyRefusals.DiscardedExactly` | examples/http_proxy.rs:283-301 | In every run, an upstream is discarded exactly when its exchange is broken, bytes are left over after a response, or the pool retires it while parked: not when a task is dropped, and not as it is leased. |
| `ProxyRefusals.NeverUsedAgain` | examples/http_proxy.rs:166-190 | A discarded upstream is never written to or read from again, in any continuation. |
| `ProxyRefusals.EncodedResponseGivenUp` | examples/http_proxy.rs:297-301 | A response with a transfer-encoding, however written, is never handed over: client dismissed, upstream discarded. |
| `ProxyRefusals.LengthlessResponseGivenUp` | examples/http_proxy.rs:297-301 | So with one that gives no length and whose status does not do without. |
| `ProxyAnswers.ParkedUpstreamsAreClean` | examples/http_proxy.rs:283-301 | In every run without such a drop, a parked upstream is healthy, holds no bytes and had as many responses drained as requests written, and each response went to the client whose request it took the place of. |
| `ProxyAnswers.EveryClientItsOwnAnswer` | examples/http_proxy.rs:261-296 | With an origin that answers each request once and in order, every client gets the answer to its own request, and nothing is on its way to a parked upstream. |
| `ProxyAnswers.HonestAnswerIsDelivered` | examples/http_proxy.rs:273-292 | Such an answer is never refused, however it is split: its last byte ends the exchange and parks the upstream. |
| `ProxyAnswers.DroppedExchangeCrossesAnswers` | examples/http_proxy.rs:166-190 | For any two requests and any well-framed answer, a run with a dropped exchange in which the second client, reading byte by byte, is given the answer to the first one's request. |
| `ProxyAnswers.PrefixOfMessage` | examples/http_proxy.rs:136-147 | A beginning of such an answer is never refused, and is taken exactly when it is the whole. |
| `CoreSpread.Spread` | src/cpu.rs:173-198 | The result holds each package's rows in order and no others; rows come by their rank within their package, those of one rank by package; in every prefix a package with rows left is at most one row behind any other. |
| `CoreSpread.Interleave` | src/cpu.rs:185-196 | Dealing the columns in turn ends, deals each out whole, by rank and then by package, and keeps every prefix even. |
| `CoreSpread.Group` | src/cpu.rs:174-177 | Groups hold each package's rows in order; packages come out in increasing order. |
| `CoreSpread.SortGroups` | src/cpu.rs:178-184 | One sorted column per package, in the order of the packages. |
| `CoreSpread.SpreadPermutes` | src/cpu.rs:165-198 | The result is a rearrangement of the input. |
| `CoreSpread.SpreadSortsEachPackage` | src/cpu.rs:178-184 | On each package NUMA nodes come in order, within a node its cores, within a core its threads by id. |
| `CoreSiblings.SiblingsLastExactly` | src/cpu.rs:165-198 | On a package of the result siblings come last if and only if, in the input, only its greatest core has more than one thread. |
| `CoreSiblings.SpreadTwoByTwo` | src/cpu.rs:165-198 | Two cores of two threads: `spread` does not put the siblings last. |
| `CoreSiblings.SetSiblingsLastExactly` | src/cpu.rs:165-198 | In the whole result siblings come last if and only if, in the input, only the greatest core of each package has more than one thread, and a package with more rows than cores has at least as many cores as any other, or one less than a package of a smaller number. |
| `CoreSiblings.SpreadTwoPackages` | src/cpu.rs:165-198 | A package of one core with two threads beside one of two cores: siblings come last on each package, and not in the set. |
| `AffinityMask.Mask` | src/cpu.rs:36-47 | Read as hex words in base 2^32, the mask is exactly 2^cpu; its leading word is not zero; its length is 9 * (cpu / 32 + 1) - 1. |
| `AffinityMask.MasksDiffer` | src/cpu.rs:33-34 | Two cpus never share a mask. |

## Left out

- The runtime: io_uring, timers and real wakers. A timeout is a cancellation at an await, a wake marks a task runnable; cloning and dropping a waker is assumed not to call back into the pool.
- A panic out of a call-out, and a pool dropped while tasks are still on it.
- `closed` flipped by another thread between two reads within one step: a step reads the flag as of its beginning.
- `PoolClosing.ClosingDrainsTheQueue`: asks for at most 2^32 - 1 queued tasks, because `wake_all` counts in 32 bits.
- `PoolClosing.NoticingEmpties`: asks for the same.
- `WaitersModule.Waiters.WakeAll`: says that the queue is emptied only up to 2^32 - 1 waiters, for the same reason.
- `WaitersModule.Waiters.RunWaker`: the one call back it models is a waker that registers its task again; what else a waker may do is in `PoolProtocol`.
- `WaitersModule.Waiters.Wake`: the one call back it models is a waker that registers its task again; what else a waker may do is in `PoolProtocol`.
- `LocalPoolModule.LocalPool.DropAll`: nothing calls back into the pool here; `PoolProtocol` lets any call run at this point.
- `LocalPoolModule.LocalPool.HasBroken`: nothing calls back into the pool here; `PoolProtocol` lets any call run at this point.
- `LocalPoolModule.LocalPool.NotifyWaiters`: nothing calls back into the pool here; `PoolProtocol` lets any call run at this point.
- `PoolWakes.NoWakeWithoutCause`: asks that the pool is never closed, because a closed pool wakes every waiter.
- Wrap-around of the 64-bit waiter ids and counters, and of the `u32` casts of list lengths.
- The total wait time and `average_wait_time`; the gauges summed by `Pool::state`.
- The order in which woken tasks are served: a direct `get` may take capacity ahead of a woken waiter, so only the order of wakes is stated.
- Effects of relaxed memory ordering beyond interleaving; scrapes other than the one followed only prune the registry.
- A 32-bit `usize` in `body_length`. A read buffer is taken to have exactly the capacity asked for and to double when full; the library promises at least that.
- Partial writes to an upstream: a request counts as written from the beginning of its write.
- The size of a read in the proxy's exchanges, which is arbitrary there; capacity matters only to heads beyond the limit, and an honest answer has none.
- What the proxy writes back to its clients, beyond handing each response over; the choice of which parked upstream `get` gives, which is arbitrary here, and the pool's limits in the proxy model.
- `src/listener.rs` and `src/workers.rs`, sysfs reading and pinning in `src/cpu.rs`: foreign calls.
- `pack`, `physical_only`, the filters and `take` of `CoreSet`, builder setters, `Deref`, `Debug`, `Display` and error types: they would only add easy members.
- The load generators, the other examples, the baselines and the benchmark scripts.
