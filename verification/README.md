# Tickerplant: verified model

This project models the feed handler's stateful core and proves what it promises.

The path of a message is: a publisher numbers it and keeps it in a window for re-requests; two
lossy lines carry copies; the sequencer turns the copies back into one strictly increasing
stream; the book builder turns the stream into price levels. The headline theorem,
`EndToEnd.WireBookIsFileBook`, says that the book from the wire is the book from the file:
for every interleaving, loss, duplication and reordering, while the feed is not Stale.

| module | what it models |
|---|---|
| `SequencerModel`, `SequencerTheorems`, `Sequencer` | the gap machine on a map; what its runs keep; the ring of slots that refines it |
| `SequencerWindow`, `SequencerTiming`, `SequencerCounts`, `SequencerLife` | where the front goes and what it leaves; when a poll may ask or give up; the counters; the drop counter across sessions |
| `RetransmitStore`, `SlotBuffer` | the publisher's window, and the flat buffer of equal cells under both rings |
| `Probing`, `ProbeTable`, `FlatOrderMap` | linear probing with backward-shift deletion; the order reference table |
| `MpmcQueue`, `MpmcAlone`, `SeqLock`, `SeqLockAlone` | the two lock-free structures as interleaved atomic steps under sequential consistency, and what a thread does when nobody interferes |
| `RateLimiter`, `RiskModel`, `RiskGate`, `RiskTheorems`, `RiskEngine`, `Totals` | the pre-trade gate, its bookkeeping and its open-order table |
| `RiskLedger`, `RiskHistory` | orders and positions balanced against what was sent and reported; switches, extremes and peaks over whole runs |
| `BookModel`, `BookTheorems`, `LiveBook`, `BookLedger`, `BookWalk`, `BookBuilder` | the book, what its runs keep, the tape it agrees with, its canonical walk, the builder over the flat table |
| `BookSide`, `VectorBook` | the sorted-vector side against the ordered map; the builder over vectors against the builder over maps |
| `SyntheticFeed` | the session generator against the book |
| `EndToEnd` | publisher, lines, sequencer and book together |
| `MoldUdp64` | the datagram framing |
| `PoolResource`, `PoolReuse` | the size-class allocator, and what pooling is for |

Components that change in place are classes. A class method is proved to take the step of a
function on values (`ensures ... == Model.F(old(...))`), and the promises are lemmas about runs
of those functions. The queue and the seqlock are state machines: one `Step` per atomic
operation, explicit program counters, any number of threads.

Five findings, each with a witness and the exact condition:

* The comment on the drop counter (`include/tick/sequencer.hpp:467-472`) says it counts sequences
  that are never handed downstream. An early message refused for its width bumps the counter and can
  still be delivered later (`SequencerTheorems.DroppedButDelivered`), and the counter outlives a
  reset, after which a sequence it counted can be delivered
  (`SequencerTheorems.DroppedThenRedelivered`). Since the last reset the comment holds if and only if
  nothing was refused for its width (`SequencerTheorems.DroppedMeansNeverDelivered`); over the life of
  a feed, if and only if in addition no session passes a sequence that another one skipped
  (`SequencerLife.DroppedForLife`). `SequencerTheorems.OverwideExactly` names the guard of the branch.
* The comment on the rate limiter (`include/tick/risk.hpp:233-237`) says it never lets more than the
  limit through in any one second. Ten buckets of 100 ms bound every closed interval of at most
  900 ms and, unless the limit is zero, no longer one (`RateLimiter.RateBoundExact`, with the witness
  `RateLimiter.BurstForgotten`).
* The gate multiplies in 64 bits. For every position limit and every book with 32-bit prices, crossed
  ones included, whose sizes add up below 2^64, it passes exactly the orders that keep every limit, if
  and only if the weighted sum of the book stays below 2^64 and so does the position limit times the
  largest price the widest tolerance admits, or the position limit is below one
  (`RiskGate.BookIsExact`). Witnesses: `RiskGate.WideBookMisleads` for every book whose weighted sum
  wraps, `RiskGate.WideBookPasses` with a literal one, `RiskGate.TopPricePasses` for the notional. Over all
  books whose sum fits, the position limit must be at most 2^32 + 1 (`RiskGate.GateIsExact`,
  `RiskGate.WideNotionalPasses`).
* A replace onto another resting reference, and an add or replace under reference zero, leave an
  order on its level that no reference reaches (`BookTheorems.ReplaceOntoRestingStrands`,
  `BookTheorems.AddUnderZeroStrands`). Those are the only events that do
  (`BookTheorems.ReachableExactly`).
* The pooling resource does not check that a chunk can hold the block it is asked for. In a run from
  a fresh resource every carved block lies in its chunk if and only if no request asks for a class
  larger than a chunk (`PoolResource.SmallChunksOverrun`). One such request also spoils smaller ones
  after it (`PoolResource.OverrunSpreads`), because the tail counter wraps.

Conventions. Sequence numbers, positions, references, times and counters are unbounded naturals,
except where a wrap is written out (`Common.U64`). A power-of-two mask is a
remainder (`Common.Residue`). Hashes are arbitrary functions. Clocks, random draws, decoders and
upstream memory are parameters.

## Model

| member | source | states |
|---|---|---|
| EndToEnd.WireBookIsFileBook | include/tick/sequencer.hpp:122-143 | for any loss, duplication, reordering, re-request and reset, while the feed is not Stale the book replayed from the sequencer's output equals the book replayed from the published stream, digest walk included |
| EndToEnd.WireIsGenuine | include/tick/recovery.hpp:252-264 | whatever the server has overwritten, every payload that reaches the sequencer is the published payload of its sequence |
| BookWalk.SameOrdersSameDigest | include/tick/book_builder.hpp:499-539 | two books with the same live orders have the same canonical walk, whatever their histories |
| SequencerTheorems.WireEqualsFile | include/tick/sequencer.hpp:259-384 | in every run output is strictly increasing and genuine, and while not Stale it is exactly stream(first..expected-1) |
| SequencerTheorems.StepInv | include/tick/sequencer.hpp:122-230 | every one of the four entry points keeps the invariant, the balance of first copies, and Stale |
| SequencerTheorems.RunInv | include/tick/sequencer.hpp:122-230 | the same over whole runs |
| SequencerTheorems.StaleIsOneWay | include/tick/sequencer.hpp:218-230 | nothing but a reset leaves Stale |
| SequencerTheorems.Conservation | include/tick/sequencer.hpp:329-384 | accepted + dropped covers every passed sequence plus the over-wide refusals; line wins and recoveries equal accepted + held + wiped; gaps detected equal gaps recovered plus the open one |
| SequencerTheorems.OverwideExactly | include/tick/sequencer.hpp:320-327 | the over-wide count moves exactly in the branch that refuses an early message for its width |
| SequencerTheorems.DroppedMeansNeverDelivered | include/tick/sequencer.hpp:467-472 | since the last reset the drop counter means passed and not handed downstream if and only if no message was refused for its width |
| SequencerTheorems.DroppedButDelivered | include/tick/sequencer.hpp:320-327 | a run in which a dropped message is delivered afterwards |
| SequencerTheorems.DroppedThenRedelivered | include/tick/sequencer.hpp:221-229 | for any sequence and payload, a run with nothing refused in which a sequence is dropped, and delivered after a reset that goes back to it |
| SequencerLife.DroppedForLife | include/tick/sequencer.hpp:467-472 | over every run, resets included, the drop counter is the number of sequences passed in some session and handed downstream in none, if and only if nothing was refused for its width and no session passed a sequence that another one skipped |
| SequencerLife.NeverDeliveredCount | include/tick/sequencer.hpp:467-472 | sequences skipped, added up over sessions, are at least the sequences never delivered, and as many exactly when no session passes what another skipped |
| SequencerLife.CounterAddsUp | include/tick/sequencer.hpp:476-507 | in every run the counter is the sum over sessions of what each skipped and refused for its width |
| SequencerTheorems.RequestNamesTheHole | include/tick/sequencer.hpp:442-458 | a request starts at the front, names only unheld sequences, and ends at the first held one or at 65535 |
| SequencerTheorems.LatePoll | include/tick/sequencer.hpp:151-209 | a late enough poll either sends one request out of the episode's budget or goes Stale and shrinks the window |
| SequencerTheorems.PollsMakeProgress | include/tick/sequencer.hpp:151-209 | with nothing arriving, late polls send exactly the remaining budget, then the window empties and everything held goes downstream |
| SequencerTiming.PollIsTimely | include/tick/sequencer.hpp:150-209 | after every run, by event times alone: a poll asks if and only if the hole has been open for the grace period or the window is three quarters full, or the last request is older than the timeout, counted also from the last answer taken, and the budget is not spent; it gives the hole up exactly when the budget is spent or a Stale feed waited out the grace period; otherwise it changes nothing |
| SequencerTiming.StateIsKnown | include/tick/sequencer.hpp:402-430 | after every run the feed is Synced, in a Gap, Recovering or Stale exactly as an observer of events, requests and held messages works out |
| SequencerTiming.RunTimed | include/tick/sequencer.hpp:132-143 | in every run the hole's clock starts with the first held message or with the answer that uncovers it, and the deadline runs from the last request or taken answer |
| SequencerCounts.CountersAreTheTally | include/tick/sequencer.hpp:87-100 | in every run duplicates, early messages, wins of either line, replies, requests, retries and the high water are the tally of what an observer saw |
| SequencerTheorems.AnswerHeals | include/tick/sequencer.hpp:132-143 | answering a request in full drops nothing, never goes Stale, and leaves the front right behind the run of messages held after the hole |
| SequencerTheorems.MakeRoomSound | include/tick/sequencer.hpp:295-318 | making room for a far message keeps order, accounting and the window |
| SequencerWindow.FirstCopy | include/tick/sequencer.hpp:259-361 | a first copy less than two windows ahead moves the front to the first missing sequence from the least front whose window reaches it: all that was there below the new front is delivered in order, all above stays held with its payload, and the drop counter rises by exactly what is missing below the least front, plus one for a message refused for its width |
| SequencerWindow.FarAhead | include/tick/sequencer.hpp:295-318 | a message further ahead abandons the window, counts the whole span and is delivered itself |
| SequencerWindow.SecondCopy | include/tick/sequencer.hpp:268-289 | a copy of a sequence passed or held changes the duplicate counter and nothing else |
| SequencerWindow.FirstOfAll | include/tick/sequencer.hpp:261-266 | the first message of all starts the stream at its own sequence |
| SequencerWindow.StepsOver | include/tick/sequencer.hpp:460-465 | stepping over a hole gives up the sequences before the first held one and no other, and goes on to the next missing one |
| SequencerWindow.WalkAdvances | include/tick/sequencer.hpp:492-507 | a narrow skip delivers exactly what is there, in order, counts exactly what is not, and stops at the first missing sequence from its target on |
| SequencerTheorems.DrainSound | include/tick/sequencer.hpp:389-400 | draining delivers held messages only, in order, and stops at a sequence not held |
| SequencerTheorems.WalkSound | include/tick/sequencer.hpp:493-506 | a narrow skip delivers what was held and counts what was not |
| SequencerTheorems.WipeSound | include/tick/sequencer.hpp:481-491 | a wide skip empties the window, hands nothing downstream, counts the whole span as dropped, and keeps the accounting |
| SequencerTheorems.MissingRunExact | include/tick/sequencer.hpp:438-448 | the missing run is at least one, holds nothing, and ends at a held sequence or the window's end |
| Sequencer.OwnSlot | include/tick/sequencer.hpp:232-253 | two sequences of one window never share a slot, so present with its own sequence means held |
| Sequencer.InsertEarly | include/tick/sequencer.hpp:329-336 | storing an early message lands on a free slot and on no other slot's bytes |
| Sequencer.RemoveFront | include/tick/sequencer.hpp:389-400 | forgetting the front keeps the representation |
| Sequencer.WindowReaches | include/tick/sequencer.hpp:295-318 | after making room the window reaches the message and its slot was given to nobody |
| Sequencer.Sequencer.constructor | include/tick/sequencer.hpp:108-116 | capacity becomes the smallest power of two that is not below it, zero limits become one, the state is fresh |
| Sequencer.Sequencer.OnMessage | include/tick/sequencer.hpp:122-126 | the ring takes the step of the model, and still represents the held map |
| Sequencer.Sequencer.OnRetransmit | include/tick/sequencer.hpp:132-143 | the same for a re-request answer, with the timeout restarted |
| Sequencer.Sequencer.Poll | include/tick/sequencer.hpp:150-209 | time alone takes the step of the model and returns its request |
| Sequencer.Sequencer.Reset | include/tick/sequencer.hpp:221-229 | a reset empties the ring and starts a session |
| Sequencer.Sequencer.Ingest | include/tick/sequencer.hpp:258-361 | one message takes the step of the model and says whether it was taken |
| Sequencer.Sequencer.CopyIn | include/tick/sequencer.hpp:329-336 | the slot written was not present before, and the ring then represents one message more |
| Sequencer.Sequencer.Drain | include/tick/sequencer.hpp:389-400 | the loop delivers exactly what draining the map delivers |
| Sequencer.Sequencer.SkipTo | include/tick/sequencer.hpp:476-507 | both skip paths take the step of the model |
| Sequencer.Sequencer.MissingRun | include/tick/sequencer.hpp:442-448 | the loop over slots counts the unheld run of the map |
| Sequencer.Sequencer.Settle | include/tick/sequencer.hpp:404-430 | the state after delivery is the model's |
| RetransmitStore.AnswersAreGenuine | include/tick/recovery.hpp:252-264 | if every store was genuine, so is every answer |
| RetransmitStore.WindowIsExact | include/tick/recovery.hpp:211-222 | after consecutive stores exactly the last capacity sequences can be answered, each with its own payload |
| RetransmitStore.OverwrittenIsAMiss | include/tick/recovery.hpp:252-258 | a sequence one lap back reads as a later one's slot, hence as a miss |
| RetransmitStore.RetransmitStore.Store | include/tick/recovery.hpp:239-250 | refuses a payload wider than a slot, otherwise the ring shows one store more |
| RetransmitStore.RetransmitStore.Fetch | include/tick/recovery.hpp:256-264 | returns the last payload stored for that sequence if its slot was not given away and the caller has room |
| RetransmitStore.RetransmitStore.Contains | include/tick/recovery.hpp:266-269 | says whether a fetch with room would answer |
| RetransmitStore.RetransmitStore.Clear | include/tick/recovery.hpp:271-273 | forgets every store |
| Common.ResidueIsRemainder | include/tick/sequencer.hpp:247-252 | the slot function is the remainder the mask computes |
| Probing.AddKeeps | include/tick/flat_order_map.hpp:123-133 | taking the first empty slot of the probe path keeps every passed slot an earlier arrival |
| Probing.MissMeansAbsent | include/tick/flat_order_map.hpp:139-150 | a probe that ends at an empty slot proves the key absent |
| Probing.EmptySlot | include/tick/flat_order_map.hpp:92-98 | fewer keys than slots leaves an empty one, so every probe ends |
| Probing.EmptyMeansRoom | include/tick/risk.hpp:786-800 | an empty slot means fewer keys than slots, so a full table is one without an empty slot |
| Probing.ShiftKeeps | include/tick/flat_order_map.hpp:169-188 | moving the first movable entry into the hole keeps the invariant with the hole moved, in a full table too |
| Probing.ShiftEnds | include/tick/flat_order_map.hpp:177-181 | when the scan reaches an empty slot, if only the hole itself once around, no probe passes the hole any more |
| Probing.ShiftComesNearer | include/tick/risk.hpp:802-820 | every move brings a key nearer to its home, so an erase ends even when no slot was empty |
| Probing.OnlyLayout | include/tick/flat_order_map.hpp:27-32 | a table that keeps the invariant is the one that inserting its keys in arrival order builds |
| ProbeTable.AsIfNeverInserted | include/tick/flat_order_map.hpp:27-32 | cells equal those built from the live keys alone, and each value sits beside its key |
| ProbeTable.InsertKeeps | include/tick/flat_order_map.hpp:116-134 | an insertion at the probe's end represents the map with the key added |
| ProbeTable.OverwriteKeeps | include/tick/flat_order_map.hpp:123-128 | an overwrite represents the map with the value replaced |
| ProbeTable.ProbeExhausted | include/tick/risk.hpp:786-800 | a whole turn without the key or an empty slot means that the key is absent and the table full |
| ProbeTable.CopiedNext | include/tick/flat_order_map.hpp:224-236 | the next key of a growth is not yet there and the new table holds no more than the old, so reinsertion never grows again |
| ProbeTable.CopiedAll | include/tick/flat_order_map.hpp:224-236 | after a growth the map is the same and the arrival order restarts as old slot order |
| FlatOrderMap.BetweenMeansStay | include/tick/flat_order_map.hpp:217-222 | the cyclic interval test picks exactly the entries that must stay |
| FlatOrderMap.FlatOrderMap.Insert | include/tick/flat_order_map.hpp:113-134 | true exactly for a new key, contents updated, growth exactly when one key more would fill more than three fifths, arrival order tracked; key zero refused |
| FlatOrderMap.FlatOrderMap.Find | include/tick/flat_order_map.hpp:136-150 | the value in the map, or nothing |
| FlatOrderMap.FlatOrderMap.Erase | include/tick/flat_order_map.hpp:156-190 | removes the key from the map and leaves the cells that inserting the other live keys in order builds |
| FlatOrderMap.FlatOrderMap.Grow | include/tick/flat_order_map.hpp:224-236 | doubles the table and keeps the map |
| FlatOrderMap.FlatOrderMap.Clear | include/tick/flat_order_map.hpp:192-195 | empties the map |
| FlatOrderMap.FlatOrderMap.constructor | include/tick/flat_order_map.hpp:96-103 | an empty map over a table whose size is the smallest power of two not below the hint |
| MpmcQueue.ExactlyOnceFifo | include/tick/mpmc_queue.hpp:140-204 | in every interleaving of any number of threads: each position has one winner per role, what is read out at a position was pushed there, no claimed item is lost, at most capacity in flight |
| MpmcQueue.RefinesFifo | include/tick/mpmc_queue.hpp:238-278 | each step leaves the plain queue alone, appends the winner's item, or takes the oldest item |
| MpmcQueue.PayloadExclusive | include/tick/mpmc_queue.hpp:173-187 | two threads between their claim and their slot's release never hold the same slot |
| MpmcQueue.WinnerStillSees | include/tick/mpmc_queue.hpp:161-175 | a winning compare and exchange still finds its slot in the expected sequence |
| MpmcQueue.FailedPush | include/tick/mpmc_queue.hpp:269-272 | a push that gives up stands at the tail and the item one lap back was not yet released |
| MpmcQueue.FailedPop | include/tick/mpmc_queue.hpp:193-198 | a pop that gives up stands at the head and the item there was not yet published |
| MpmcQueue.PopReturnsItsItem | include/tick/mpmc_queue.hpp:175-187 | a pop hands back the item pushed at its position |
| MpmcQueue.NumberTellsTurn | include/tick/mpmc_queue.hpp:95-96 | with at least two slots a slot's number tells free from full |
| MpmcQueue.StepKeeps | include/tick/mpmc_queue.hpp:140-278 | every atomic step of every thread keeps the invariant |
| MpmcAlone.AloneIsABoundedQueue | include/tick/mpmc_queue.hpp:140-278 | after any interleaving that left all threads at rest, one thread alone finishes in five steps: a push succeeds exactly when fewer than the capacity are in and appends, a pop exactly when one is in and returns the oldest |
| MpmcAlone.GivesUpOnlyForCause | include/tick/mpmc_queue.hpp:193-198 | in any interleaving no step but finding the queue full or empty makes a push or pop give up |
| SeqLock.SnapshotsAreWhole | include/tick/seqlock.hpp:182-227 | every successful load returned a value one store wrote whole, and no reader goes back to an older store |
| SeqLock.SuccessIsCurrent | include/tick/seqlock.hpp:189-213 | a load that succeeds returns the latest completed store |
| SeqLock.FailureMeansRace | include/tick/seqlock.hpp:191-211 | a load fails only because a store was in progress or began since |
| SeqLock.StepKeeps | include/tick/seqlock.hpp:131-175 | every atomic step of writer and readers keeps the invariant |
| SeqLockAlone.LoadAfterStore | include/tick/seqlock.hpp:131-227 | a load that runs through after a store that ran through returns its value |
| SeqLockAlone.StoreAlone | include/tick/seqlock.hpp:131-175 | a store that runs through leaves its value and a counter two further |
| SeqLockAlone.LoadAlone | include/tick/seqlock.hpp:182-213 | a load that runs through while no store does succeeds with the latest store |
| SeqLockAlone.RetryNeverFails | include/tick/seqlock.hpp:221-227 | a load that waits never gives up |
| RateLimiter.CountIsExact | include/tick/risk.hpp:251-262 | with times that never go back the count is the exact number of sends in the last ten buckets |
| RateLimiter.RecordedHolds | include/tick/risk.hpp:264-272 | recording keeps each slot's index and count exact |
| RateLimiter.TenBuckets | include/tick/risk.hpp:471-473 | no ten consecutive buckets of a gated run hold more than the limit |
| RateLimiter.RateBoundExact | include/tick/risk.hpp:233-237 | for every limit, gated runs bound every interval of a length if and only if it is at most 900 ms or the limit is zero |
| RateLimiter.BurstForgotten | include/tick/risk.hpp:233-237 | a gated run that exceeds the limit within any longer interval |
| RateLimiter.RateLimiter.Count | include/tick/risk.hpp:252-262 | the loop sums the slots inside the window |
| RateLimiter.RateLimiter.Record | include/tick/risk.hpp:264-272 | restarts a slot from an older window, then counts |
| RiskGate.GateIsExact | include/tick/risk.hpp:350-495 | for every position limit: the check passes exactly the requests that keep every limit in unbounded arithmetic, over all engines and requests whose values fit the fields' types and whose book has a weighted sum below 2^64, if and only if the position limit is at most 2^32 + 1 |
| RiskGate.BookIsExact | include/tick/risk.hpp:350-495 | for every position limit and book: the check passes exactly the requests on that book that keep every limit, if and only if the weighted sum and the position limit times the top tolerated price stay below 2^64, or the position limit is below one |
| RiskGate.WideBookMisleads | include/tick/risk.hpp:396-407 | for every book whose weighted sum wraps and every positive position limit, an order that passes and must not, or the reverse when the computed price is zero |
| RiskGate.WideBookPasses | include/tick/risk.hpp:396-407 | on a literal book an order at half the midpoint passes a check that tolerates no distance from it |
| RiskGate.TopPricePasses | include/tick/risk.hpp:446-451 | for every book and position limit whose product with the top price wraps, an order at that price that passes and breaks the notional limit |
| RiskGate.ReasonIsTheFirst | include/tick/risk.hpp:350-495 | in range, the check returns the reason of the first of fourteen documented rules, in their order and in unbounded arithmetic, that the order breaks, and passes one that breaks none |
| RiskGate.PlainMidpoint | include/tick/book_builder.hpp:130-147 | sizes that add up to 2^64 exactly leave the plain midpoint, cut off toward zero |
| RiskGate.NotionalExactly | include/tick/risk.hpp:446-451 | the notional product never wraps if and only if the position limit is at most 2^32 + 1 |
| RiskGate.MicroPriceExactly | include/tick/book_builder.hpp:136-147 | the reference price is the size weighted midpoint if and only if the weighted sum stays below 2^64 |
| RiskGate.MidpointBetween | include/tick/book_builder.hpp:136-147 | the size weighted midpoint lies between bid and ask, in crossed markets too |
| RiskGate.FatFingerExact | include/tick/risk.hpp:396-407 | with a weighted sum below 2^64 the reference is the midpoint and neither product of the basis-point comparison wraps |
| RiskGate.WideNotionalPasses | include/tick/risk.hpp:446-451 | for every position limit above 2^32 + 1, an order in range that passes the whole check and breaks a notional limit of 64 bits |
| RiskTheorems.PositionLimitHolds | include/tick/risk.hpp:404-437 | from positions within the limit, no order of gated sends, fills, partial cancels and rejects breaches it, nor would it if everything working filled |
| RiskTheorems.BookkeepingExact | include/tick/risk.hpp:519-647 | working shares and order counts equal the sums over the open orders; drift and failed inserts stay zero; the open count is the number of open orders and within its limit |
| RiskTheorems.NoSelfCross | include/tick/risk.hpp:457-465 | no working buy is ever priced at or above a working sell of the same symbol |
| RiskTheorems.PassedDoesNotCross | include/tick/risk.hpp:453-465 | the stored extreme never misses an order that would cross |
| RiskTheorems.ReduceKeeps | include/tick/risk.hpp:554-624 | taking shares off a working order, by a fill or a cancel, keeps tallies, extremes and limits |
| RiskTheorems.FillKeepsWorstCase | include/tick/risk.hpp:554-594 | taking filled shares off a working order leaves the worst case of its own side where it was, takes what filled off the other side's, and touches no other symbol; that every fill does so is `RiskLedger.FillBalances` |
| RiskLedger.BooksBalance | include/tick/risk.hpp:519-647 | in every run from nothing working: for each token, sent = filled + cancelled or rejected + still working, under the symbol, side and price of the latest order sent; each position = its start + shares filled on buys - shares filled on sells; reports for unknown tokens are only counted; the counters of sends, fills, cancels, rejects, excess and filled notional are those of the reports |
| RiskLedger.FillBalances | include/tick/risk.hpp:559-594 | a fill counts for the smaller of its shares and what was working, and moves the position by that |
| RiskLedger.CancelBalances | include/tick/risk.hpp:599-624 | a cancel of zero takes all that was working, and no cancel moves a position |
| RiskLedger.RejectBalances | include/tick/risk.hpp:628-647 | a reject takes all that was working and moves no position |
| RiskHistory.SwitchesAsTold | include/tick/risk.hpp:652-690 | in every run symbols are enabled and halted, and the switch is tripped, as last told |
| RiskHistory.ExtremeIsExact | include/tick/risk.hpp:519-552 | in every run the stored extreme of a side is the most aggressive price sent there since the side was last empty, and zero while it is empty |
| RiskHistory.PeakIsTheMost | include/tick/risk.hpp:545-551 | in every run the peak is the most orders ever open at once, and trips are counted |
| RiskHistory.LostTrack | include/tick/risk.hpp:519-530 | a send under a working token changes nothing but the fault counters and trips the switch |
| RiskTheorems.TallyRetire | include/tick/risk.hpp:822-854 | when a side empties its share count is already zero |
| RiskTheorems.StepKeeps | include/tick/risk.hpp:350-647 | every event keeps the invariant |
| RiskTheorems.SendsAreGated | include/tick/risk.hpp:470-473 | the send times of any run each found fewer than the limit in their ten buckets |
| RiskTheorems.RateHolds | include/tick/risk.hpp:470-473 | in any run no ten buckets and no 900 ms hold more sends than the limit |
| RiskTheorems.TrippedSendsNothing | include/tick/risk.hpp:652-684 | until a human resets it a tripped switch stays tripped and nothing is sent |
| RiskEngine.TestMeansMovable | include/tick/risk.hpp:813-815 | the two-case test picks exactly the entries whose probe passed the hole |
| RiskEngine.RiskEngine.constructor | include/tick/risk.hpp:729-742 | an empty table whose size is the smallest power of two not below four times the open limit and 64 |
| RiskEngine.RiskEngine.Check | include/tick/risk.hpp:350-495 | changes nothing and returns the first failing reason of the model's check; an order that passes has a slot to go to |
| RiskEngine.RiskEngine.FindOpen | include/tick/risk.hpp:775-784 | finds a token's slot if and only if it is open; asked only for an open token or while a slot is empty, because the search ends at nothing else |
| RiskEngine.RiskEngine.InsertOpen | include/tick/risk.hpp:786-800 | stores a new token while a slot is empty, the last one included; refuses one already working, and any in a full table |
| RiskEngine.RiskEngine.EraseAt | include/tick/risk.hpp:802-820 | leaves the table that inserting the other open tokens builds, also when it was full |
| RiskEngine.RiskEngine.OnOrderSent | include/tick/risk.hpp:519-552 | from every state the table, symbols, counters and rate ring take the model's step; in a full table the order is refused and the switch trips |
| RiskEngine.RiskEngine.OnFill | include/tick/risk.hpp:559-594 | the same for a fill |
| RiskEngine.RiskEngine.OnCancelAcked | include/tick/risk.hpp:599-624 | the same for a cancel |
| RiskEngine.RiskEngine.OnReject | include/tick/risk.hpp:628-647 | the same for a reject |
| BookTheorems.ApplyKeeps | include/tick/book_builder.hpp:241-455 | every event keeps each level the sum, count and arrival-ordered queue of the orders there, and loses an order exactly when it is leaky |
| BookTheorems.ReachableExactly | include/tick/book_builder.hpp:277-307 | from an empty book every resting order can be reached, and the live counter is the map size, if and only if no event was leaky |
| BookTheorems.AddUnderZeroStrands | include/tick/book_builder.hpp:277-307 | an add under reference zero is accepted and rests on a level that no reference reaches |
| BookTheorems.ReplaceOntoRestingStrands | include/tick/book_builder.hpp:384-418 | for any two references and prices apart, replacing one resting order onto the other strands the other's level |
| BookTheorems.LostCounts | include/tick/book_builder.hpp:399-413 | the number lost is the number of records no reference leads to |
| BookTheorems.VisibleIsTheSum | include/tick/book_builder.hpp:592-629 | each visible level is the sum and count over the live orders there, and there is no empty level |
| BookTheorems.HistoryDoesNotShow | include/tick/book_builder.hpp:499-510 | the visible book is a function of the live orders |
| BookTheorems.RemoveKeeps | include/tick/book_builder.hpp:607-629 | unlinking drops the empty level, the reference and the record together |
| BookTheorems.PlaceKeeps | include/tick/book_builder.hpp:286-307 | placing an order loses one exactly when its reference is zero or names another |
| LiveBook.AddEffect | include/tick/book_builder.hpp:261-307 | an add under a fresh reference adds that order to the live map and raises no fault |
| LiveBook.ExecuteEffect | include/tick/book_builder.hpp:311-350 | an execution takes its shares off the order, removes it at zero, and prints its volume unless not printable; at which price is `BookLedger.TotalsAreTheSums` |
| LiveBook.CancelEffect | include/tick/book_builder.hpp:355-366 | a cancel takes its shares off the order |
| LiveBook.DeleteEffect | include/tick/book_builder.hpp:368-378 | a delete removes the order |
| LiveBook.ReplaceEffect | include/tick/book_builder.hpp:384-418 | a replace swaps the order for one with the same side and symbol |
| LiveBook.TradeEffect | include/tick/book_builder.hpp:423-440 | a hidden trade or cross prints volume and touches no order |
| BookLedger.BookIsTheTape | include/tick/book_builder.hpp:241-455 | for every event stream, orderly or not, the builder ends with the live orders, the totals of every symbol and all the counters, faults included, of a tape that keeps no levels, no pool and no table |
| BookLedger.TotalsAreTheSums | include/tick/book_builder.hpp:309-440 | for every stream and symbol: executed notional is the sum over printed events of shares times price, the resting order's for an execution without a price and the message's for all others; executed, hidden and auction shares are the sums of theirs |
| BookWalk.TopIsTheBest | include/tick/book_builder.hpp:459-473 | no live order is priced above the top bid or below the top ask of its symbol |
| BookWalk.TopIsTheSum | include/tick/book_builder.hpp:459-473 | quantity and count at the top are the sums over the live orders at that price |
| BookBuilder.BookBuilder.Handle | include/tick/book_builder.hpp:241-455 | the builder over the flat table takes the model's step for every message |
| BookBuilder.BookBuilder.RemoveOrder | include/tick/book_builder.hpp:609-629 | the four removals take the model's step |
| BookBuilder.BookBuilder.ReduceOrder | include/tick/book_builder.hpp:592-605 | a reduction takes the model's step |
| BookBuilder.BookBuilder.PlaceOrder | include/tick/book_builder.hpp:286-307 | a placement takes the model's step, pool exhaustion included |
| VectorBook.SameDepthAndDigest | test/test_book_builder.cpp:399-419 | for every event sequence a builder over sorted vectors and one over ordered maps end with the same levels on every side, hence the same depth and digest walk |
| VectorBook.ReplayedAgrees | include/tick/book_side.hpp:149-196 | a replay over vectors shows, side by side, the levels of the replay over maps, and agrees in everything else |
| VectorBook.OpsAreTheHandlers | include/tick/book_builder.hpp:241-455 | what an event does to the levels is a list of joins, leaves and reductions read off the orders |
| VectorBook.HandlersIgnoreLevels | include/tick/book_builder.hpp:241-455 | no handler's other effects, nor that list, depend on the levels |
| VectorBook.OpKeeps | include/tick/book_side.hpp:165-180 | one join, leave or reduction keeps every vector showing the map's side |
| BookSide.ShowsTheWalk | include/tick/book_side.hpp:191-196 | the sorted vector is the ordered map's walk, and the only one |
| BookSide.WalkInNumbers | include/tick/book_side.hpp:149-196 | a walk shows every level once, bids from the highest price down and asks from the lowest up |
| BookSide.PutShows | include/tick/book_side.hpp:165-170 | writing a level at its place shows the map with that price set |
| BookSide.DropShows | include/tick/book_side.hpp:177-180 | cutting a level out shows the map without that price |
| BookSide.VectorSide.Locate | include/tick/book_side.hpp:198-201 | the binary search finds the place of a price |
| BookSide.VectorSide.LevelAt | include/tick/book_side.hpp:165-170 | finds or creates the level, as the map does |
| BookSide.VectorSide.Find | include/tick/book_side.hpp:172-175 | finds what the map finds |
| BookSide.VectorSide.Erase | include/tick/book_side.hpp:177-180 | erases what the map erases |
| BookSide.VectorSide.Best | include/tick/book_side.hpp:182-184 | the front is the map's first level: no bid is higher, no ask is lower |
| BookSide.VectorSide.Depth | include/tick/book_builder.hpp:482-497 | the first levels of the map's walk |
| SyntheticFeed.SyntheticFeed.Generate | include/tick/synthetic_feed.hpp:108-122 | for every sequence of draws, exactly max(messages, 4 + 4 * symbols) messages in timestamp order, and replaying them meets no fault and gives the published resting orders and volume; the total is the sum over symbols, the nonprintable shares are those of the unprintable executions emitted, the last timestamp is the last message's |
| SyntheticFeed.KeptPromise | include/tick/synthetic_feed.hpp:67-86 | a consumer in step ends with the published expectation |
| SyntheticFeed.MatchesCounts | include/tick/synthetic_feed.hpp:117-120 | the pool to draw from and the book's live orders agree in number, per symbol too |
| SyntheticFeed.ReplaceInStep | include/tick/synthetic_feed.hpp:398-417 | a replace keeps generator and book in step |
| SyntheticFeed.ExecuteInStep | include/tick/synthetic_feed.hpp:333-366 | an execution, printable or not, keeps them in step |
| SyntheticFeed.CancelInStep | include/tick/synthetic_feed.hpp:369-383 | a cancel keeps them in step |
| SyntheticFeed.PushInStep | include/tick/synthetic_feed.hpp:304-320 | an add keeps them in step |
| SyntheticFeed.DeleteInStep | include/tick/synthetic_feed.hpp:391-395 | a delete keeps them in step |
| SyntheticFeed.TradeInStep | include/tick/synthetic_feed.hpp:251-259 | a trade or cross keeps them in step |
| SyntheticFeed.SyntheticFeed.Step | include/tick/synthetic_feed.hpp:283-301 | emits one message of the kind drawn, or an add where that kind needs a live order and there is none; about a live order, in round lots, a cancel leaving something; and keeps generator and book in step |
| SyntheticFeed.WeightsAreHonoured | include/tick/synthetic_feed.hpp:264-281 | of all draws below the total weight, each kind of message gets exactly as many as it weighs |
| SyntheticFeed.SyntheticFeed.DoAdd | include/tick/synthetic_feed.hpp:303-320 | symbol, side, size and price of an add are those of its draws, and the pool gains that order |
| SyntheticFeed.SyntheticFeed.DoExecute | include/tick/synthetic_feed.hpp:333-366 | the order drawn loses the lots drawn; one execution with a price in ten does not print |
| MoldUdp64.AcceptedExactly | include/tick/moldudp64.hpp:205-250 | a datagram that is not an end of session parses if and only if it is the encoding of a header and messages, which are the ones iterated |
| MoldUdp64.AcceptedByItsBytes | include/tick/moldudp64.hpp:216-250 | a datagram that is not an end of session is accepted if and only if walking its blocks by 256 * first + second length byte, as often as 256 * pkt[18] + pkt[19] says, ends where it does |
| MoldUdp64.HeaderBytes | include/tick/moldudp64.hpp:130-140 | session is bytes 0 to 9, sequence the eight bytes from 10 and count the two from 18, most significant first |
| MoldUdp64.MessagesOnTheWire | include/tick/moldudp64.hpp:159-203 | every message of an accepted datagram is the bytes between its two length bytes and the next block |
| MoldUdp64.PacketBytes | include/tick/moldudp64.hpp:91-111 | in every packet built, byte 10 + i is sequence / 256^(7 - i) % 256 and bytes 18 and 19 are the count, high byte first |
| MoldUdp64.BeByte | include/tick/moldudp64.hpp:108-109 | byte i of a field of width w is v / 256^(w - 1 - i) % 256 |
| MoldUdp64.ParseOfPacket | include/tick/moldudp64.hpp:216-250 | what was packed comes back in order |
| MoldUdp64.EndOfSessionAlone | include/tick/moldudp64.hpp:226-232 | an end of session is accepted exactly when nothing follows its header |
| MoldUdp64.NameSurvives | include/tick/moldudp64.hpp:114-117 | a session name of at most ten bytes without a trailing space survives padding and trimming |
| MoldUdp64.Parse | include/tick/moldudp64.hpp:216-250 | the walk accepts exactly the well-formed datagrams, reads inside them, and takes the count from bytes 18 and 19, high byte first |
| MoldUdp64.Deliver | include/tick/moldudp64.hpp:159-203 | iteration returns the messages in order, message i at sequence + i |
| MoldUdp64.PacketBuilder.TryAppend | include/tick/moldudp64.hpp:315-332 | appends if and only if the block fits and the count is below its ceiling, else changes nothing |
| MoldUdp64.PacketBuilder.Finish | include/tick/moldudp64.hpp:344-351 | the finished packet parses to what was appended, its bytes 18 and 19 are the count, high byte first, and the builder can append and finish again |
| MoldUdp64.PacketBuilder.Reset | include/tick/moldudp64.hpp:306-313 | starts an empty packet under a new sequence |
| MoldUdp64.WriteHeader | include/tick/moldudp64.hpp:91-111 | twenty header bytes, session padded with spaces, sequence and count most significant byte first, or nothing |
| PoolResource.LiveBlockIsSafe | include/tick/pool_resource.hpp:93-129 | in every legal run a live block lies in an owned chunk, is as large as asked and stays clear of the uncarved tail |
| PoolResource.BlocksAreDisjoint | include/tick/pool_resource.hpp:93-129 | a live block overlaps no other live block and no free one |
| PoolResource.BlocksAreConserved | include/tick/pool_resource.hpp:93-129 | in every legal run blocks carved = live + free |
| PoolResource.SmallChunksOverrun | include/tick/pool_resource.hpp:110-116 | over every run from a fresh resource: each carved block lies in the chunk it is carved from if and only if no request asks for a class larger than a chunk |
| PoolResource.OverrunSpreads | include/tick/pool_resource.hpp:110-116 | with chunks of 100 bytes at any address, a block of 256 is followed by one of 16 outside the only chunk |
| PoolResource.LargeChunksHoldAll | include/tick/pool_resource.hpp:83-98 | chunks of at least the largest block hold every request of every legal run |
| PoolReuse.CarvesToThePeak | include/tick/pool_resource.hpp:93-129 | in every run whose classes fit a chunk, as many blocks of a class were carved as were ever live in it at once |
| PoolReuse.LastFreedFirst | include/tick/pool_resource.hpp:105-129 | the block given back last is the next one handed out for its class |
| PoolReuse.CountersAddUp | include/tick/pool_resource.hpp:93-117 | every request was carved or reused, and upstream bytes are whole chunks |
| PoolResource.ClassFits | include/tick/pool_resource.hpp:89-91 | a class holds what was asked and wastes less than a granule |
| PoolResource.AllocateKeeps | include/tick/pool_resource.hpp:93-117 | allocation of a class that fits a chunk keeps the invariant |
| PoolResource.DeallocateKeeps | include/tick/pool_resource.hpp:119-129 | deallocation keeps the invariant |
| PoolResource.PoolResource.Allocate | include/tick/pool_resource.hpp:93-117 | takes the model's step and keeps the invariant when it held and a chunk can hold the class |
| PoolResource.PoolResource.Deallocate | include/tick/pool_resource.hpp:119-129 | takes the model's step and keeps the invariant when the contract was respected |

## Left out

- Sequence numbers near 2^64, time sums that overflow, and counters that wrap: naturals are unbounded.
- Weak-memory ordering, cache-line layout and counter wrap in the queue and the seqlock: the machines are sequentially consistent.
- MpmcQueue.ExactlyOnceFifo: capacity is any number from two up, not only powers of two; the power of two matters only at counter wrap.
- RecoveryClient (`include/tick/recovery.hpp`): bookkeeping of requests in flight; the sequencer's own retries are modelled.
- FlatOrderMap.FlatOrderMap.Find: returns the value rather than a pointer to it, and the probe counters are not kept.
- FlatOrderMap.FlatOrderMap.Put: the growth test inside a reinsertion is not taken again; `ProbeTable.CopiedNext` proves that it is false there.
- RiskEngine.RiskEngine.FindOpen: a search for a token that is not there never ends in a full table, as its own comment says; so it asks for an open token or an empty slot. A table that only takes checked orders is at most a quarter full.
- RiskEngine.RiskEngine.OnFill: an unknown token in a full table is left out, because the search for it never ends.
- RiskEngine.RiskEngine.OnCancelAcked: an unknown token in a full table is left out, because the search for it never ends.
- RiskEngine.RiskEngine.OnReject: an unknown token in a full table is left out, because the search for it never ends.
- RiskModel.OnOrderSent: an open order also remembers its price, which no branch reads, so that self-crossing can be stated; the kill reason text is not kept.
- Changing limits and loading positions mid-session: runs keep their limits and start from any positions within them.
- Price levels (`nano::PriceLevel`), orders and the order pool are not shown in the repository: a level is a FIFO with a running total and count, the pool a bounded allocator.
- BookBuilder.BookBuilder.Handle: levels are one map from symbol, side and price; the builder over vectors is `VectorBook`, on values.
- Symbol directory, trading states, session state and the counters of messages that touch no order are one counter.
- SyntheticFeed.SyntheticFeed.Generate: message bytes, match numbers, counts by type and byte totals are not kept; the consumer's order pool must hold as many orders as the session has messages.
- SyntheticFeed.SyntheticFeed.constructor: the exceptions for no symbols and for an all-zero mix are preconditions.
- SeqLock.SuccessIsCurrent: a writer that stores without pause can make `load` retry for ever, as the source says; no progress claim is made.
- MoldUdp64.WriteHeader: a null buffer is a buffer too short for a header.
- PoolResource.PoolResource.Allocate: free lists are sequences of addresses rather than links stored inside the free blocks; release and alignment inside a chunk are not modelled; upstream memory is a bump allocator.
- Digest mixing and hash quality: a digest is a function of the canonical walk and a hash is any function.
- The message codecs, symbol table, strategy and order-entry layouts: fixed-offset copies and small local rules.
- Sockets, clocks, affinity, histograms, tools and benchmarks: system calls and reporting.
