# Verified models of the Linux 3.9 block layer and two pieces of its crypto layer

Dafny models of the parts of `block/` and `crypto/` where the difficulty lies in what holds over whole runs, and proofs
of those properties for all inputs and all runs. `dafny verify dfyconfig.toml` checks everything.

Each part has a value model (state datatypes and functions that say what a locked entry point does to the state), the
invariants and theorems about it, and a class that performs the same steps in place, with the loops of the source,
proved against the functions.

| part | files | source |
|---|---|---|
| FLUSH/FUA sequencer | `Flush*.dfy` | `block/blk-flush.c` |
| bandwidth throttler | `Throttle*.dfy` | `block/blk-throttle.c` |
| deadline scheduler | `Deadline*.dfy` | `block/deadline-iosched.c` |
| CFQ group scheduling | `Cfq*.dfy` | `block/cfq-iosched.c` |
| physical segments | `Segment*.dfy` | `block/blk-merge.c` |
| partial completion | `Completion*.dfy` | `block/blk-core.c` |
| merging and its index | `Merge*.dfy` | `block/elevator.c`, `block/blk-core.c`, `block/blk-merge.c` |
| discard splitting | `Discard.dfy` | `block/blk-lib.c` |
| groups of a block cgroup | `Blkg*.dfy` | `block/blk-cgroup.c` |
| AES | `Aes*.dfy` | `crypto/aes_generic.c` |
| removal of algorithms | `Spawn*.dfy` | `crypto/algapi.c` |

A module named `...InPlace` holds the class of its part. `Lists.dfy` has the facts about linked lists seen as sequences.
A predicate compared with `true` in a contract, and a quantifier triggered by the marker `At`, keep the solver from
unfolding what a proof does not need; they mean nothing else.

## What does not hold

Some properties one would expect, or that comments promise, are not true of the code as it is. Each has a lemma with a
concrete input or run, and one that says when the property does hold: exactly when, unless noted.

- A completing flush is meant to credit the requests of its running queue (comment at `block/blk-flush.c:29-41`). The
  loop of flush_end_io can itself issue the next flush, and then meets again, on the same list, requests without data
  that want both flushes: `FlushCredit.RecyclingIsReachable`, `FlushCredit.CreditsExactlyTheRunningQueue`.
- An io counter of the throttler that is at 2^32 - 1 lets everything pass: `ThrottleFull.FullCounterBreaksBound`. The
  check is exact if and only if the counter is not there (`ThrottleRate.IoCheckExact`), and the bound holds over
  histories in which no bio finds it there (`ThrottleRate.IopsBound`; one way, as a full counter need not break it).
- A refused bio is meant to wait, but its wait is a 32-bit number that can wrap around to 0; throtl_select_dispatch then
  serves the same group again and again while jiffies stands still: `ThrottleStuck.ZeroWait`,
  `ThrottleStuck.LoopStands`, `ThrottleQueue.RefusalWaits`. Under a bound on limits and bio sizes it waits and the loop
  ends (`ThrottleProgress.GentleWaits`, `ThrottleInPlace.ThrotlData.SelectDispatch`; one way).
- With writes_starved 0 an expired read can wait for ever, with any other value it cannot:
  `DeadlineStarve.ZeroPatienceStarvesReads`, `DeadlineRuns.ExpiredServed`.
- The positions of a batch do not go down, but for a bio merged in front of the request it goes on with:
  `DeadlineOrder.FrontMergeGoesBack`, `DeadlineOrder.UpwardsExactly`, `DeadlineOrder.BatchAscends`.
- CFQ takes up a new weight when a group joins the tree, although the group may be active through descendants and its
  parent has counted the old weight: `CfqStale.StaleIsReachable`, `CfqWeights.AddKeepsSums`,
  `CfqRuns.SumsRightExactly`. The wrong sum can end in a division by zero: `CfqStale.DivisionByZeroIsReachable`,
  `CfqTime.AddFaultsExactly`, and `CfqRuns.NeverDividesByZero` for runs that take up no stale weight.
- Merging two requests without data takes one from a count of 0, for the inputs that `SegmentLimit.DatalessCountWraps`
  names and no others. Recounting a request with high pages can pass the limit that merging kept:
  `SegmentLimit.RecountPassesLimit`, `SegmentLimit.CountKeepsLimit`.
- Completing a request in parts that are not whole sectors loses sectors of its position: `CompletionExact.HalfSectors`,
  `CompletionExact.SplitCompletion`, which says for every request when it does.
- elv_attempt_insert_merge goes on only with the request it finds first, so where two requests end it may stop before
  one it could merge with: `MergeFlow.TwinsHide`; where one ends it does not: `MergeFlow.StopsMeansNone`.
- cfqg_scale_charge shifts the charge in 32 bits: exact if and only if it fits, `CfqCharge.ScaleExactly`.

In blkg_create the error code is not set when the parent group is missing (`block/blk-cgroup.c:240-242`);
`BlkgInPlace.Blkcgs.LookupCreate` shows that this is never met.

## Model

| member | source | states |
|---|---|---|
| FlushModel.MasksAreBits | linux-3.9_g_rework/block/blk-flush.c:76-113 | masks and stages stand for the REQ_FSEQ bits of the source: the current stage is the lowest clear bit, union, complement and overlap are the bit operations |
| FlushModel.CompletedSeqShrinks | linux-3.9_g_rework/block/blk-flush.c:144-192 | completing a flush step always leaves fewer steps missing, so the loop of flush_end_io ends although it may put a request back on the list it walks |
| FlushSafety.InsertedInv | linux-3.9_g_rework/block/blk-flush.c:298-347 | blk_insert_flush keeps the invariant: each sequenced request on exactly one list, the running queue made of requests that waited before the open flush was issued, no step recorded before what it depends on |
| FlushSafety.DataEndedInv | linux-3.9_g_rework/block/blk-flush.c:275-285 | flush_data_end_io keeps that invariant |
| FlushSafety.FlushEndedInv | linux-3.9_g_rework/block/blk-flush.c:194-229 | flush_end_io keeps it, through its whole loop and through a flush that the loop itself issues |
| FlushSafety.KickedBase | linux-3.9_g_rework/block/blk-flush.c:244-273 | blk_kick_flush keeps it and leaves a flush pending only while another runs or data in flight will come back to it |
| FlushSafety.CompletedSeqInv | linux-3.9_g_rework/block/blk-flush.c:144-192 | one call of blk_flush_complete_seq keeps it |
| FlushSafety.LoopStep | linux-3.9_g_rework/block/blk-flush.c:208-213 | one turn of the loop in flush_end_io: the request is credited by a flush that covers it, and the others stay covered |
| FlushRuns.StepInv | linux-3.9_g_rework/block/blk-flush.c:298-347 | submitting, fetching by the device, flush completion, data completion and completions outside the sequencer keep the invariant of queue, dispatch list and device together |
| FlushRuns.RunInv | linux-3.9_g_rework/block/blk-flush.c:144-347 | the invariant holds in every state of every run |
| FlushRuns.NoBugOn | linux-3.9_g_rework/block/blk-flush.c:144-347 | in every state of every run what the entry points rely on holds, so no BUG_ON on the state of the sequencer fires: a flush that completes is in flight, the requests it credits wait for a flush and are not on the dispatch list, data that completes has not completed before, and a new request is not being sequenced |
| FlushMeaning.FlushMeansEarlierWritesStable | linux-3.9_g_rework/block/blk-flush.c:13-27 | REQ_FLUSH on a write-back device, in every run: when the data of a request is dispatched, and when it ends without error, every write completed before its submission is on stable storage, that is covered by a flush issued after that write and completed without error |
| FlushMeaning.FuaMeansOwnDataStable | linux-3.9_g_rework/block/blk-flush.c:13-27 | REQ_FUA with data on a device without FUA, in every run: the request ends without error only after a flush that was issued after its own data completed has completed without error |
| FlushMeaning.BypassExactly | linux-3.9_g_rework/block/blk-flush.c:298-333 | a request is taken out of the sequencer exactly when its policy is empty or only data |
| FlushMeaning.FlushesNeverOverlap | linux-3.9_g_rework/block/blk-flush.c:29-41 | between the issues of two flushes the first one completed |
| FlushMeaning.OneFlushInFlight | linux-3.9_g_rework/block/blk-flush.c:29-41 | in every reachable state a flush is in flight exactly when the two indices differ, and its request is then in exactly one place |
| FlushMeaning.NothingStranded | linux-3.9_g_rework/block/blk-flush.c:244-273 | with no flush and no sequenced data on the way, both flush queues are empty |
| FlushMeaning.OnExactlyOneList | linux-3.9_g_rework/block/blk-flush.c:144-192 | in every reachable state every sequenced request is on exactly one of the two flush queues and the list of data in flight |
| FlushMeaning.EndsOnceInPolicyOrder | linux-3.9_g_rework/block/blk-flush.c:144-192 | a request that ends, with any error or none, ends once and has nothing recorded afterwards; its steps are a front part of those of its policy in order, without error up to the last one, whose error it ends with; without error they are all of them, at most three |
| FlushMeaning.StepsAreAskedFor | linux-3.9_g_rework/block/blk-flush.c:94-109 | in every run a step of a request is recorded only if the flags of the request and of the device ask for it: PREFLUSH for REQ_FLUSH and DATA for sectors, POSTFLUSH for REQ_FUA on a device with a cache and without FUA |
| FlushMeaning.AskedForIsDone | linux-3.9_g_rework/block/blk-flush.c:94-109 | and a request that ends without error has had every step they ask for |
| FlushMeaning.FuaEndsWithData | linux-3.9_g_rework/block/blk-flush.c:94-109 | on a device with FUA no step of a request is recorded after its data |
| FlushCredit.CreditsExactlyTheRunningQueue | linux-3.9_g_rework/block/blk-flush.c:194-229 | a completing flush credits the requests of the running queue once each and in order, and no others, if and only if `Recycles` does not hold of the state before the call |
| FlushCredit.DataWithFuaNeverRecycles | linux-3.9_g_rework/block/blk-flush.c:194-229 | where every request that wants a POSTFLUSH carries data, `Recycles` never holds |
| FlushCredit.RecyclingIsReachable | linux-3.9_g_rework/block/blk-flush.c:194-229 | a run from the empty queue into a state where the running queue is [1, 2, 3] and the completing flush credits 1, 2, 3, 2, 3 |
| FlushInPlace.FlushQueue.KickFlush | linux-3.9_g_rework/block/blk-flush.c:244-273 | in place: the new state is that of the specification of blk_kick_flush, and the result says whether a flush was issued |
| FlushInPlace.FlushQueue.CompleteSeq | linux-3.9_g_rework/block/blk-flush.c:144-192 | in place: recording the steps, moving the request and kicking the flush give the specified state |
| FlushInPlace.FlushQueue.FlushEndIo | linux-3.9_g_rework/block/blk-flush.c:194-229 | in place, with the loop of the source: the specified state, and the result says whether the queue has to be run |
| FlushInPlace.FlushQueue.FlushDataEndIo | linux-3.9_g_rework/block/blk-flush.c:275-285 | in place: the specified state |
| FlushInPlace.FlushQueue.InsertFlush | linux-3.9_g_rework/block/blk-flush.c:298-347 | in place: the specified state, and the invariant |
| ThrottleRate.RateBound | linux-3.9_g_rework/block/blk-throttle.c:427-522 | from a slice start on, every mix of checks, charges, trims, extensions and restarts sends at most bps * (time to the last bio + one slice) / HZ bytes; no assumption on overflow, the 64-bit wraps only make the limit stricter |
| ThrottleRate.IopsBound | linux-3.9_g_rework/block/blk-throttle.c:524-572 | the same for the number of bios, over every history in which no bio finds the 32-bit counter at its last value |
| ThrottleRate.BoundFromSliceStart | linux-3.9_g_rework/block/blk-throttle.c:427-522 | both bounds from any state whose slice is at least one slice long, counted from the start of that slice, trimmed or not |
| ThrottleRate.IosFitCounter | linux-3.9_g_rework/block/blk-throttle.c:524-572 | the counter does not fill before the rate itself has allowed that many bios |
| ThrottleRate.IoCheckExact | linux-3.9_g_rework/block/blk-throttle.c:553-557 | the io check decides what it compares, io_disp + 1 against the allowance, if and only if the counter is not at its last value |
| ThrottleRate.RateBoundFromRestart | linux-3.9_g_rework/block/blk-throttle.c:626-675 | both bounds counted from any check that restarts the slice, whatever went before |
| ThrottleRate.RateBoundInHistory | linux-3.9_g_rework/block/blk-throttle.c:427-712 | for a side with a limit on bytes or on ios: both bounds from any point in the history of a group since its creation: from the start of the slice it is then in, and from the next check if that restarts the slice |
| ThrottleRate.WithinRateIs | linux-3.9_g_rework/block/blk-throttle.c:574-614 | the bound in plain arithmetic: count * HZ <= rate * time |
| ThrottleFull.FullCounterBreaksBound | linux-3.9_g_rework/block/blk-throttle.c:524-572 | for every n from 2^33 on a history of a group from its creation, in which every check that sends nothing is a refusal, and n bios have gone by jiffy 321, past the bound, because the counter starts again from 0 |
| ThrottleProgress.SideLag | linux-3.9_g_rework/block/blk-throttle.c:427-522 | while bps times the time does not wrap, the bytes counted on a side never exceed those of the time since its slice began and one slice more, but for one byte of rounding, over every history from creation |
| ThrottleProgress.GentleWaits | linux-3.9_g_rework/block/blk-throttle.c:574-614 | for a bound such as 2^32 or 2^31, a bio that alone takes less than that many jiffies, but for two slices, at the rate of its side while bps times the time does not wrap, or any bio on a limit that stays below the bound whatever wraps, is told a wait of at least 1 and below the bound when it is refused for its bytes, and no refusal of it has a wait of 0 |
| ThrottleProgress.HighIsGentle | linux-3.9_g_rework/block/blk-throttle.c:574-614 | on a limit of 4.5 GiB a second or more every bio meets that condition for 2^32 at any time |
| ThrottlePass.PassesExactly | linux-3.9_g_rework/block/blk-throttle.c:524-675 | a bio passes if and only if its bytes and those counted in the slice, and one more io than counted, are within the limits times the time since the slice began in whole slices, counters and products taken in their 64 and 32 bits |
| ThrottlePass.UnlimitedPasses | linux-3.9_g_rework/block/blk-throttle.c:616-644 | a side lets every bio pass unseen if and only if neither its bytes nor its ios are limited |
| ThrottlePass.IoSideLag | linux-3.9_g_rework/block/blk-throttle.c:462-522 | while no 32-bit product of a trim wraps, the ios counted on a side never exceed those of the time since its slice began and one slice more, but for one io of rounding, over every history from creation |
| ThrottlePass.PassesInTime | linux-3.9_g_rework/block/blk-throttle.c:427-675 | what the rate allows is not held back: after any history from creation a bio passes, while the slice lasts, once a slice and the time that its bytes and one more, and two ios, take at the rates have gone by, products not wrapping and the io counter not full |
| ThrottleWait.BytesPassWhenTold | linux-3.9_g_rework/block/blk-throttle.c:574-675 | a bio refused for its bytes and checked again when told is within the byte limit then or when told a second time, and the slice lasts until then |
| ThrottleWait.BytesRefusedUntilTold | linux-3.9_g_rework/block/blk-throttle.c:574-675 | until then, up to a slice, a jiffy and a byte of rounding, it is over the limit |
| ThrottleWait.IosPassWhenTold | linux-3.9_g_rework/block/blk-throttle.c:524-675 | a bio refused for the number of ios is within that limit when its wait is over, and over it until a slice and two jiffies before |
| ThrottleWait.IdleStartsAnew | linux-3.9_g_rework/block/blk-throttle.c:464-500 | two slices after a bio has gone and the slice was trimmed, the slice is used up and a check starts a new one |
| ThrottleStuck.ZeroWait | linux-3.9_g_rework/block/blk-throttle.c:574-614 | a bio of 2 GiB on a limit of 100 bytes a second is refused with a wait of 0 at any time but 0, on an idle or a new slice |
| ThrottleStuck.LoopStands | linux-3.9_g_rework/block/blk-throttle.c:800-829 | the state blk_throtl_bio leaves with that bio satisfies the invariant, its group is due, both sides are refused, and one turn of the loop of throtl_select_dispatch leaves everything as it was |
| ThrottleQueue.CheckAgain | linux-3.9_g_rework/block/blk-throttle.c:626-675 | a second check of the same bio at the same time gives the same answer and leaves the slice alone |
| ThrottleQueue.RefusalWaits | linux-3.9_g_rework/block/blk-throttle.c:524-614 | a refused bio waits at least one tick if and only if the time its bytes are over the limit, modulo 2^32, and the padding do not add up to 2^32 |
| ThrottleQueue.FirstIsEarliest | linux-3.9_g_rework/block/blk-throttle.c:312-325 | if the first group of the service tree is not due, none is |
| ThrottleQueue.TreeInsertAt | linux-3.9_g_rework/block/blk-throttle.c:352-378 | a group is put on the tree behind all that are due no later and before all others |
| ThrottleInPlace.ThrotlData.AddGroup | linux-3.9_g_rework/block/blk-throttle.c:218-242 | a new group is idle, empty and off the tree |
| ThrottleInPlace.ThrotlData.MayDispatchBio | linux-3.9_g_rework/block/blk-throttle.c:626-675 | the answer, the wait as cut to 32 bits and the new slice of tg_may_dispatch, with the history extended by the look; everything else stays |
| ThrottleInPlace.ThrotlData.DispatchOneBio | linux-3.9_g_rework/block/blk-throttle.c:747-765 | the first bio leaves its list, the counters go down by one, the slice is charged and trimmed |
| ThrottleInPlace.ThrotlData.DispatchSide | linux-3.9_g_rework/block/blk-throttle.c:767-798 | the bios taken are the front of the list, in order; fewer than the maximum are taken only when the next is refused |
| ThrottleInPlace.ThrotlData.DispatchTg | linux-3.9_g_rework/block/blk-throttle.c:767-798 | at most three quarters of the group quantum are taken from the reads and a quarter from the writes, and fewer only when the next of that side is refused |
| ThrottleInPlace.ThrotlData.DequeueTg | linux-3.9_g_rework/block/blk-throttle.c:395-405 | the group is off the tree |
| ThrottleInPlace.ThrotlData.EnqueueTg | linux-3.9_g_rework/block/blk-throttle.c:380-393 | the group is back on the tree, at its place in the order of dispatch times |
| ThrottleInPlace.ThrotlData.UpdateDisptime | linux-3.9_g_rework/block/blk-throttle.c:727-745 | the group becomes due after the smaller of the waits its two list heads are told, which checking them again would not change; no other group changes |
| ThrottleInPlace.ThrotlData.ServeFirst | linux-3.9_g_rework/block/blk-throttle.c:800-829 | one round of the loop; a group that keeps bios is due when its list heads are told; one that gave nothing is due later than now when the queued bios are gentle for 2^32, as GentleWaits has it |
| ThrottleInPlace.ThrotlData.SelectDispatch | linux-3.9_g_rework/block/blk-throttle.c:800-829 | for queued bios that are gentle for 2^32: terminates; bios leave every list from its front, exactly those charged; at most throtl_quantum - 1 + throtl_grp_quantum leave, and fewer than the quantum only when no group is due |
| ThrottleInPlace.ThrotlData.AddBioTg | linux-3.9_g_rework/block/blk-throttle.c:714-725 | the bio joins the tail of its list, and the group is on the tree exactly when it holds bios |
| ThrottleInPlace.ThrotlData.ThrotlBio | linux-3.9_g_rework/block/blk-throttle.c:1107-1197 | a bio is queued behind those already waiting, or refused and queued with its group due when the list heads are told, or let through and charged; no other group changes and the totals stay the sums of the list lengths |
| DeadlineSafety.AddedInv | linux-3.9_g_rework/block/deadline-iosched.c:99-111 | adding a request keeps both lists of its direction equal as sets, the sort list ordered by sector and the FIFO by expiry |
| DeadlineSafety.RemovedInv | linux-3.9_g_rework/block/deadline-iosched.c:116-122 | so does removing one, and no next_rq is left pointing at it |
| DeadlineSafety.MovedInv | linux-3.9_g_rework/block/deadline-iosched.c:205-220 | so does moving one to the dispatch queue; at most one direction has a next_rq, and it is on that sort list |
| DeadlineSafety.DispatchedInv | linux-3.9_g_rework/block/deadline-iosched.c:243-325 | so does a dispatch |
| DeadlineSafety.FrontMergedInv | linux-3.9_g_rework/block/deadline-iosched.c:154-166 | so does a front merge, which moves the request in the sort list |
| DeadlineSafety.AbsorbedInv | linux-3.9_g_rework/block/deadline-iosched.c:169-187 | so does a request merge, where the survivor takes the earlier place and time in the FIFO |
| DeadlineSafety.ChoiceQueued | linux-3.9_g_rework/block/deadline-iosched.c:243-325 | what a dispatch picks is queued, in the direction of the batch |
| DeadlineRuns.StepInv | linux-3.9_g_rework/block/deadline-iosched.c:76-325 | every callback keeps the lists in agreement |
| DeadlineRuns.RunInv | linux-3.9_g_rework/block/deadline-iosched.c:76-325 | they agree in every state of every run |
| DeadlineRuns.HeadDecidesExpiry | linux-3.9_g_rework/block/deadline-iosched.c:226-237 | in every reachable state the head of a FIFO has expired exactly when some request of its direction has |
| DeadlineRuns.WritesServed | linux-3.9_g_rework/block/deadline-iosched.c:243-325 | while a write is queued, any (writes_starved + 1) * max(1, fifo_batch) consecutive dispatches of any run include a write |
| DeadlineRuns.ExpiredServed | linux-3.9_g_rework/block/deadline-iosched.c:226-325 | an expired request with k requests ahead of it leaves within (k + 1) * (writes_starved + 1) batches if it is a write, and within 2 * (k + 1) batches if it is a read and writes_starved is not 0 |
| DeadlineStarve.ZeroPatienceStarvesReads | linux-3.9_g_rework/block/deadline-iosched.c:262-291 | with writes_starved 0, whatever the other settings, there is for every n a run in which an expired read stays queued through n dispatches: the bound for reads needs its condition |
| DeadlineOrder.GoesOnUpwards | linux-3.9_g_rework/block/deadline-iosched.c:66-74 | after every dispatch of every run next_rq of its direction is the queued request at or behind the one that went with none strictly between, the next on the sort list; nothing only when none starts later; and none in the other direction |
| DeadlineOrder.MergeGoesOn | linux-3.9_g_rework/block/deadline-iosched.c:84-93 | between dispatches next_rq changes only when it is merged away, and then becomes the queued request that starts next |
| DeadlineOrder.ComesInOrder | linux-3.9_g_rework/block/deadline-iosched.c:98-111 | in every run a request that comes gets the expiry of its direction, the last place in the FIFO and its place in the sort list behind those at the same sector, and nothing else changes |
| DeadlineOrder.UpwardsExactly | linux-3.9_g_rework/block/deadline-iosched.c:154-220 | between dispatches the request a batch goes on with stays at or behind a position if and only if no bio merged in front of it takes it below |
| DeadlineOrder.BatchAscends | linux-3.9_g_rework/block/deadline-iosched.c:243-325 | a dispatch that goes on with a batch takes a request of the same direction that starts no earlier than the one before, unless such a merge took it below |
| DeadlineOrder.BatchStarts | linux-3.9_g_rework/block/deadline-iosched.c:243-325 | in every reachable state a new batch serves writes if and only if they are queued and no reads are or writes_starved is reached; it starts with the request that expires first when one of the direction has expired or nothing lies ahead, else with the one ahead |
| DeadlineOrder.FrontMergeGoesBack | linux-3.9_g_rework/block/deadline-iosched.c:154-220 | a run in which a batch goes on with a request at sector 50 after one at sector 100 |
| DeadlineInPlace.DeadlineData.AddRequest | linux-3.9_g_rework/block/deadline-iosched.c:99-111 | in place: the specified state and the invariant |
| DeadlineInPlace.DeadlineData.RemoveRequest | linux-3.9_g_rework/block/deadline-iosched.c:116-122 | in place: the specified state, which RemovedInv shows to keep the invariant |
| DeadlineInPlace.DeadlineData.MoveRequest | linux-3.9_g_rework/block/deadline-iosched.c:205-220 | in place: the specified state |
| DeadlineInPlace.DeadlineData.DispatchRequests | linux-3.9_g_rework/block/deadline-iosched.c:243-325 | in place: the specified state, and the request that goes |
| DeadlineInPlace.DeadlineData.FrontMerge | linux-3.9_g_rework/block/deadline-iosched.c:154-166 | in place: the specified state and the invariant |
| DeadlineInPlace.DeadlineData.MergedRequests | linux-3.9_g_rework/block/deadline-iosched.c:169-187 | in place: the specified state and the invariant |
| CfqWeights.ActivatedInv | linux-3.9_g_rework/block/cfq-iosched.c:1314-1331 | activation up to the first ancestor already active makes nr_active and children_weight of every group right again, and changes nothing else |
| CfqWeights.DeactivatedInv | linux-3.9_g_rework/block/cfq-iosched.c:1371-1387 | so does deactivation |
| CfqWeights.CountsDetermined | linux-3.9_g_rework/block/cfq-iosched.c:1291-1392 | the counts follow from weights and tree membership alone, whatever led there |
| CfqWeights.DelUndoesAdd | linux-3.9_g_rework/block/cfq-iosched.c:1361-1392 | deletion right after addition restores every group, in any state with 32-bit sums, right or made wrong by a stale weight |
| CfqWeights.ActiveExactly | linux-3.9_g_rework/block/cfq-iosched.c:1291-1392 | a group is active exactly when it or a descendant is on the tree |
| CfqWeights.AddKeepsSums | linux-3.9_g_rework/block/cfq-iosched.c:1275-1334 | addition always keeps the counts right, and keeps right weight sums right if and only if it takes up no new weight for a group that is off the tree but active through descendants |
| CfqWeights.PlainSum | linux-3.9_g_rework/block/cfq-iosched.c:1314-1331 | with at most 4294967 groups right sums are plain sums, without reduction modulo 2^32 |
| CfqShares.CompoundLe | linux-3.9_g_rework/block/cfq-iosched.c:1316-1331 | the rounded walk to the root never exceeds the exact fraction |
| CfqShares.Split | linux-3.9_g_rework/block/cfq-iosched.c:1316-1331 | the exact fraction of a group is that of its own tasks and of its active children, without remainder |
| CfqShares.SharesFit | linux-3.9_g_rework/block/cfq-iosched.c:1316-1333 | while the sums are right, the rounded shares of all groups on the tree sum to at most 1 << CFQ_SERVICE_SHIFT |
| CfqShares.ShareDefined | linux-3.9_g_rework/block/cfq-iosched.c:1316-1331 | while the sums are right, the walk of a group on the tree divides by no zero and ends in a fraction of at most 1 |
| CfqShares.CompoundGe | linux-3.9_g_rework/block/cfq-iosched.c:1316-1331 | every level of the walk takes off at most 1 |
| CfqShares.ShareIsFraction | linux-3.9_g_rework/block/cfq-iosched.c:1291-1333 | so the share of a group on the tree is its exact fraction of the disk, less at most 1 in 4096 for its own level and each above |
| CfqTime.TreeAddedInv | linux-3.9_g_rework/block/cfq-iosched.c:1247-1334 | addition that meets no division by zero keeps counts, tree order, flags, cache and minimum in agreement, stale weight or not |
| CfqTime.AddFaultsExactly | linux-3.9_g_rework/block/cfq-iosched.c:1314-1331 | in any state, addition divides by zero if and only if the state before it has a level from the group up whose children_weight, with the weight about to be added while activation propagates, is 0 in 32 bits |
| CfqTime.TreeDeletedInv | linux-3.9_g_rework/block/cfq-iosched.c:1361-1392 | so does deletion |
| CfqTime.InsertOrdered | linux-3.9_g_rework/block/cfq-iosched.c:1247-1273 | insertion keeps the tree ordered by virtual time |
| CfqTime.InsertAt | linux-3.9_g_rework/block/cfq-iosched.c:1247-1273 | a group is put behind all whose virtual time is not later and before all others |
| CfqRuns.StepInv | linux-3.9_g_rework/block/cfq-iosched.c:1275-1489 | queue added, queue deleted, served, chosen, weights set and group created keep counts, order, flags, cache and minimum right, and the minimum never goes down |
| CfqRuns.RunInv | linux-3.9_g_rework/block/cfq-iosched.c:1275-1489 | they are right in every state of every run up to a division by zero |
| CfqRuns.SumsRightExactly | linux-3.9_g_rework/block/cfq-iosched.c:1275-1489 | along every run the weight sums are right up to a state if and only if no step before it took up a stale weight |
| CfqRuns.CountsHold | linux-3.9_g_rework/block/cfq-iosched.c:1291-1392 | in every state of every run nr_active counts own tree membership plus active children, and is positive exactly when the group or a descendant is on the tree |
| CfqRuns.HierarchyHolds | linux-3.9_g_rework/block/cfq-iosched.c:1291-1392 | in every state of a run before any stale weight is taken up, children_weight is the sum of the matching weights modulo 2^32; with at most 4294967 groups it is the plain sum and the shares fit |
| CfqRuns.NeverDividesByZero | linux-3.9_g_rework/block/cfq-iosched.c:1316-1331 | in such a state, with at most 4294967 groups, no operation that takes up no stale weight divides by zero |
| CfqRuns.RunNarrow | linux-3.9_g_rework/block/cfq-iosched.c:1291-1392 | in every state of every run, stale weights or not, every children_weight is a 32-bit number |
| CfqRuns.DelUndoesAddInRun | linux-3.9_g_rework/block/cfq-iosched.c:1275-1392 | in every state of every run, stale weights or not, deletion right after an addition restores all groups with the weights the added one has taken up, the tree and min_vdisktime, and leaves the cache as it was or empty |
| CfqRuns.VirtualTimeHolds | linux-3.9_g_rework/block/cfq-iosched.c:1179-1188 | in every state of every run min_vdisktime passes no group on the tree, and a cached leftmost group has the least virtual time |
| CfqRuns.MinNeverDecreases | linux-3.9_g_rework/block/cfq-iosched.c:968-986 | min_vdisktime never decreases over a run |
| CfqRuns.SpreadBounded | linux-3.9_g_rework/block/cfq-iosched.c:2988-2998 | while no group joins and only the first in line is served, whatever leaves or gets new weights, the spread of virtual times stays within the larger of the initial spread and the largest scaled charge |
| CfqCharge.ScaleExactly | linux-3.9_g_rework/block/cfq-iosched.c:937-957 | cfqg_scale_charge divides the charge by the share, rounding down, if and only if the shifted charge fits into 32 bits |
| CfqCharge.VfractionIsFraction | linux-3.9_g_rework/block/cfq-iosched.c:1291-1334 | the vfraction a group gets when it joins, while the sums are right, is its exact fraction up to that rounding, and at least 1 |
| CfqCharge.TimeIsCharged | linux-3.9_g_rework/block/cfq-iosched.c:1444-1470 | over a calm run the virtual time of a group grows by exactly what it is charged |
| CfqCharge.ChargedByShare | linux-3.9_g_rework/block/cfq-iosched.c:937-957 | over a calm run two groups on the tree at its end have been charged the same disk time per share, each charge divided by the share at the time, up to the initial spread, the bound on the spread and 1 for each time the first was served |
| CfqSettings.SettingTakesEffect | linux-3.9_g_rework/block/cfq-iosched.c:1275-1289 | in every run a weight or leaf weight that is set takes effect when the group next joins the tree, and not before |
| CfqStale.StaleIsReachable | linux-3.9_g_rework/block/cfq-iosched.c:1275-1334 | a run whose fifth step takes up a stale weight, with right sums before it and wrong ones after it |
| CfqStale.DivisionByZeroIsReachable | linux-3.9_g_rework/block/cfq-iosched.c:1314-1331 | a run with three groups after which a queue that arrives makes cfq_group_service_tree_add divide by a children_weight of 0 |
| CfqInPlace.CfqData.WalkUp | linux-3.9_g_rework/block/cfq-iosched.c:1316-1331 | in place: the loop raises the counts and compounds the fraction as specified, or stops at the division by zero that the specification has |
| CfqInPlace.CfqData.ServiceTreeAdd | linux-3.9_g_rework/block/cfq-iosched.c:1291-1334 | in place: the specified state and the invariant, or a division by zero exactly when the specification has one |
| CfqInPlace.CfqData.WalkDown | linux-3.9_g_rework/block/cfq-iosched.c:1374-1387 | in place: the loop lowers the counts as specified |
| CfqInPlace.CfqData.ServiceTreeDel | linux-3.9_g_rework/block/cfq-iosched.c:1361-1392 | in place: the specified state and the invariant |
| CfqInPlace.CfqData.NotifyQueueAdd | linux-3.9_g_rework/block/cfq-iosched.c:1336-1359 | in place: a first queue puts the group behind the last one on the tree, or divides by zero exactly when the specification does |
| CfqInPlace.CfqData.NotifyQueueDel | linux-3.9_g_rework/block/cfq-iosched.c:1394-1410 | in place: the group leaves the tree with its last queue |
| CfqInPlace.CfqData.GroupServed | linux-3.9_g_rework/block/cfq-iosched.c:1444-1489 | in place: off the tree, charged in proportion to its share, and on again, or a division by zero exactly when the specification has one |
| CfqInPlace.CfqData.GetNext | linux-3.9_g_rework/block/cfq-iosched.c:2988-2998 | the group with the least virtual time, cached; the minimum moves up to it |
| SegmentBound.GreedyIsMinimal | linux-3.9_g_rework/block/blk-merge.c:113-178 | no valid grouping of the vectors has fewer segments than blk_rq_map_sg makes entries, nor as many with a shorter last one |
| SegmentBound.CutsGroup | linux-3.9_g_rework/block/blk-merge.c:12-69 | the segments that __blk_recalc_rq_segments counts are a valid grouping |
| SegmentBound.Weld | linux-3.9_g_rework/block/blk-merge.c:87-111 | two groupings whose touching segments may be joined make one grouping with one segment less, and exactly known outer sizes |
| SegmentBound.Beside | linux-3.9_g_rework/block/blk-merge.c:249-273 | two groupings side by side |
| SegmentMap.MapKeepsBytes | linux-3.9_g_rework/block/blk-merge.c:113-178 | the scatterlist names the same bytes of memory in the same order as the vectors |
| SegmentMap.EntriesFit | linux-3.9_g_rework/block/blk-merge.c:113-178 | every entry is a single vector, or within the size limit and one boundary window |
| SegmentMap.CutsAreGreedy | linux-3.9_g_rework/block/blk-merge.c:12-69 | without high pages the count is exactly the number of entries |
| SegmentHistory.BackMergedOk | linux-3.9_g_rework/block/blk-merge.c:275-291 | a back merge, accepted or refused, leaves a count covered by a grouping and outer sizes that bound it |
| SegmentHistory.FrontMergedOk | linux-3.9_g_rework/block/blk-merge.c:293-309 | so does a front merge |
| SegmentHistory.MergedRequestsOk | linux-3.9_g_rework/block/blk-merge.c:311-350 | so does a request merge, with the sum or the sum less one, accepted or refused after the sizes were written |
| SegmentHistory.CountBoundsScatterlist | linux-3.9_g_rework/block/blk-merge.c:160-178 | over any history of bio merges, request merges and recounts nr_phys_segments is at least the number of entries blk_rq_map_sg makes before pad and drain; the first bio of a request is within queue_max_segments, as those who build bios see to |
| SegmentLimit.RecountIs | linux-3.9_g_rework/block/blk-merge.c:12-69 | a recount gives one segment for every high page and, for every run of low pages between them, the entries that run is mapped to |
| SegmentLimit.CountKeepsLimit | linux-3.9_g_rework/block/blk-merge.c:249-350 | given first bios within the limit, as those who build bios see to, every request a history builds on the way stays within queue_max_segments if and only if at each of its recounts high pages and entries of the low runs together do |
| SegmentLimit.LowRecountFits | linux-3.9_g_rework/block/blk-merge.c:12-69 | a recount without high pages never passes the limit the count kept before |
| SegmentLimit.RecountPassesLimit | linux-3.9_g_rework/block/blk-merge.c:12-69 | the weld ignores high pages and the recount does not: a history after which a recount passes the limit |
| SegmentLimit.DatalessCountWraps | linux-3.9_g_rework/block/blk-merge.c:311-350 | two requests without data merge into one whose count wraps to 65535 exactly when the queue clusters and the sizes allow it; only then is the limit passed |
| SegmentPlain.ExtendsExactly | linux-3.9_g_rework/block/blk-merge.c:12-69 | a vector goes on with the segment before it if and only if clustering is on, both are together within the size limit, their addresses meet and no multiple of the boundary lies within the two |
| SegmentPlain.MapsExactly | linux-3.9_g_rework/block/blk-merge.c:113-155 | an entry of the scatterlist grows exactly with such a vector; any other starts a new entry |
| SegmentPlain.MergesExactly | linux-3.9_g_rework/block/blk-merge.c:311-352 | two data requests merge if and only if their segments together are within the limit, one less when the sizes kept at the seam fit and the vectors there meet; that is the count they get |
| SegmentInPlace.RecalcSegments | linux-3.9_g_rework/block/blk-merge.c:12-69 | the two nested loops compute the specified count and write the specified outer sizes |
| SegmentInPlace.MapSg | linux-3.9_g_rework/block/blk-merge.c:160-178 | the loops fill the table with the specified entries and, for a covered count, never write past nr_phys_segments entries |
| SegmentInPlace.CountVec | linux-3.9_g_rework/block/blk-merge.c:25-56 | one turn of the counting loop |
| SegmentInPlace.MapVec | linux-3.9_g_rework/block/blk-merge.c:113-154 | one vector goes on with the last entry or starts the next |
| SegmentInPlace.Request.BackMerge | linux-3.9_g_rework/block/blk-merge.c:249-291 | in place: the specified chain and count |
| SegmentInPlace.Request.FrontMerge | linux-3.9_g_rework/block/blk-merge.c:249-309 | in place: the specified chain and count |
| SegmentInPlace.Request.MergeRequests | linux-3.9_g_rework/block/blk-merge.c:311-350 | in place: both requests as specified, refused or not |
| SegmentInPlace.Request.Recalc | linux-3.9_g_rework/block/blk-merge.c:71-74 | in place: the specified count and sizes |
| CompletionExact.UpdatedIs | linux-3.9_g_rework/block/blk-core.c:2254-2404 | for data requests the loop with its early exits completes bio by bio, and the repair of a botched length is never reached |
| CompletionExact.CompletesExactly | linux-3.9_g_rework/block/blk-core.c:2254-2404 | what is left are exactly the bytes after the first n, the request stays well formed, and the result is false exactly when nothing is left |
| CompletionExact.LengthIsRepaired | linux-3.9_g_rework/block/blk-core.c:2378-2398 | the length of any unfinished request, well formed or not, is never below what is left of the vector in hand, and is what is left of the length before unless that is less |
| CompletionExact.EndsTheCovered | linux-3.9_g_rework/block/blk-core.c:2304-2353 | the bios ended are exactly those all of whose bytes are done, once each and in order |
| CompletionExact.SplitCompletion | linux-3.9_g_rework/block/blk-core.c:2254-2404 | for every data request, file system or not: completing n1 and then n2 ends the same bios with the same errors, leaves the same bytes and length and returns the same as completing n1 + n2; the unfinished requests are equal in every field if and only if neither the position of a file system request nor that of the bio in which both parts stop loses a sector to rounding; with whole sectors in every bio they are whenever n1 and n2 lose none, and only then for a file system request |
| CompletionExact.HalfSectors | linux-3.9_g_rework/block/blk-core.c:2254-2404 | a request of which half a sector is completed twice: the same bytes are left as after a whole sector, and the position is one sector behind |
| CompletionRuns.EndsCleanExactly | linux-3.9_g_rework/block/blk-core.c:154-180 | over any run of completions, of 0 bytes too, a bio ends exactly when all bytes up to its last are done, in its turn, and without error if and only if it came without one and no completion that touched it had one |
| CompletionInPlace.Request.BioEndio | linux-3.9_g_rework/block/blk-core.c:154-180 | in place: flags, size and sector of the bio, and whether it is ended and with what error |
| CompletionInPlace.Request.WalkBios | linux-3.9_g_rework/block/blk-core.c:2303-2353 | the loop unlinks whole bios and stops inside the next one as specified |
| CompletionInPlace.Request.UpdateRequest | linux-3.9_g_rework/block/blk-core.c:2254-2404 | in place: the specified request, log and result |
| AesRounds.InvMixMix | linux-3.9_g_rework/crypto/aes_generic.c:1372-1377 | InvMixColumns undoes MixColumns on every column |
| AesRounds.InvMixXor | linux-3.9_g_rework/crypto/aes_generic.c:1130-1139 | InvMixColumns distributes over the addition of a round key |
| AesRounds.FtColumn | linux-3.9_g_rework/crypto/aes_generic.c:1300-1305 | four entries of crypto_ft_tab combine to MixColumns of four substituted bytes |
| AesRounds.ItColumn | linux-3.9_g_rework/crypto/aes_generic.c:1372-1377 | four entries of crypto_it_tab combine to InvMixColumns of four substituted bytes |
| AesRounds.LastColumn | linux-3.9_g_rework/crypto/aes_generic.c:1315-1320 | four entries of crypto_fl_tab or crypto_il_tab combine to the column of substituted bytes |
| AesCipher.TableRound | linux-3.9_g_rework/crypto/aes_generic.c:1300-1313 | a table round is SubBytes, ShiftRows, MixColumns and AddRoundKey of section 5.1 of FIPS-197 |
| AesCipher.InvTableRound | linux-3.9_g_rework/crypto/aes_generic.c:1372-1385 | a decryption round is one of the equivalent inverse cipher of section 5.3.5 of FIPS-197 |
| AesCipher.LastRounds | linux-3.9_g_rework/crypto/aes_generic.c:1315-1399 | the last rounds are those without MixColumns |
| AesCipher.UndoRound | linux-3.9_g_rework/crypto/aes_generic.c:1372-1385 | a decryption round takes back an encryption round |
| AesCipher.DecryptUndoesEncrypt | linux-3.9_g_rework/crypto/aes_generic.c:1329-1440 | with a reversed and transformed key schedule decryption gives back every block, for any number of rounds and any pair of inverse substitutions |
| AesStandard.EncryptIsCipher | linux-3.9_g_rework/crypto/aes_generic.c:1329-1368 | all rounds together are the cipher of section 5.1 of FIPS-197, for any schedule and number of rounds |
| AesStandard.DecryptIsInvCipher | linux-3.9_g_rework/crypto/aes_generic.c:1401-1440 | aes_decrypt with its transformed schedule is the straight inverse cipher of section 5.3 of FIPS-197 with the untransformed one |
| AesKeys.ImixColIs | linux-3.9_g_rework/crypto/aes_generic.c:1130-1139 | imix_col is InvMixColumns of a column |
| AesKeys.LsBoxIs | linux-3.9_g_rework/crypto/aes_generic.c:1141-1145 | ls_box is SubWord |
| AesKeys.RcoTab | linux-3.9_g_rework/crypto/aes_generic.c:63-63 | rco_tab holds the powers of x |
| AesKeys.DecScheduleKeys | linux-3.9_g_rework/crypto/aes_generic.c:1258-1266 | key_dec as the source fills it is the reversed schedule with InvMixColumns applied within |
| AesKeys.AesRoundTrip | linux-3.9_g_rework/crypto/aes_generic.c:1329-1440 | from key words to bytes: aes_decrypt undoes aes_encrypt |
| AesBoxes.InvSBoxUndoes | linux-3.9_g_rework/crypto/aes_generic.c:857-922 | the inverse S-box undoes the S-box on all 256 bytes; AesField.SBoxIsStandard says what the S-box is |
| AesBoxes.AesDecryptsWhatItEncrypts | linux-3.9_g_rework/crypto/aes_generic.c:1216-1440 | for the three key sizes, every key and every block, aes_decrypt undoes aes_encrypt |
| AesField.ProductPlus | linux-3.9_g_rework/crypto/aes_generic.c:329-394 | the product of the field of 256 elements, built from multiplication by x, is linear |
| AesField.OneReciprocal | linux-3.9_g_rework/crypto/aes_generic.c:329-394 | a byte has one reciprocal at most |
| AesField.SBoxIsStandard | linux-3.9_g_rework/crypto/aes_generic.c:329-394 | every byte has exactly one reciprocal, 0 standing for that of 0, and the table of the S-box holds its affine transformation, section 5.1.1 of FIPS-197 |
| AesState.StateIsInput | linux-3.9_g_rework/crypto/aes_generic.c:1338-1341 | byte r + 4c of the input goes to row r of column c, section 3.4 of FIPS-197 |
| AesState.OutputIsState | linux-3.9_g_rework/crypto/aes_generic.c:1364-1367 | and that of the output comes from there |
| AesState.KeyWordIs | linux-3.9_g_rework/crypto/aes_generic.c:1228-1251 | word i of the key holds its bytes 4i to 4i + 3 |
| AesState.RotWordIs | linux-3.9_g_rework/crypto/aes_generic.c:1147-1158 | the rotation in the key schedule is RotWord |
| AesState.MixColumnIs | linux-3.9_g_rework/crypto/aes_generic.c:1300-1314 | MixColumns multiplies a column by {03}x^3 + {01}x^2 + {01}x + {02} |
| AesInPlace.Context.Expand128 | linux-3.9_g_rework/crypto/aes_generic.c:1234-1238 | the loop over loop4 stores the key schedule of FIPS-197 |
| AesInPlace.Context.Expand192 | linux-3.9_g_rework/crypto/aes_generic.c:1240-1245 | the loop over loop6 stores it |
| AesInPlace.Context.Expand256 | linux-3.9_g_rework/crypto/aes_generic.c:1247-1256 | the loop over loop8 and its half stores it |
| AesInPlace.Context.FillDec | linux-3.9_g_rework/crypto/aes_generic.c:1258-1266 | the loop stores the decryption schedule, each word in its slot |
| AesInPlace.Context.ExpandKey | linux-3.9_g_rework/crypto/aes_generic.c:1216-1268 | both schedules are those of the key, or the size is refused and nothing changes |
| AesInPlace.Context.Encrypt | linux-3.9_g_rework/crypto/aes_generic.c:1329-1368 | the unrolled rounds compute the cipher |
| AesInPlace.Context.Decrypt | linux-3.9_g_rework/crypto/aes_generic.c:1401-1440 | the unrolled rounds compute the inverse cipher |
| AesInPlace.Context.DecryptsBack | linux-3.9_g_rework/crypto/aes_generic.c:1216-1440 | once a key is expanded, decryption gives back what was encrypted |
| SpawnModel.PushedOk | linux-3.9_g_rework/crypto/algapi.c:134-150 | a step down keeps the walk right: lists are taken from the front, what was taken was visited once, and everything visited is built on the algorithm |
| SpawnModel.PoppedOk | linux-3.9_g_rework/crypto/algapi.c:67-88 | a step back keeps it right, and the instance left behind has no users any more |
| SpawnModel.WalkEnds | linux-3.9_g_rework/crypto/algapi.c:132-152 | at the end of the walk exactly the spawns built on the algorithm, at any depth, have been visited, once each, and their instances have no users |
| SpawnModel.OthersKeepUsers | linux-3.9_g_rework/crypto/algapi.c:132-152 | algorithms that have nothing to do with it keep their users |
| SpawnModel.ClosedHoldsAll | linux-3.9_g_rework/crypto/algapi.c:114-160 | a set closed under building on holds all that is built on the algorithm |
| SpawnInPlace.Registry.TakeUsers | linux-3.9_g_rework/crypto/algapi.c:124-130 | all users move to the list of the walk, each to its head |
| SpawnInPlace.Registry.WalkSpawns | linux-3.9_g_rework/crypto/algapi.c:132-152 | the loops terminate and visit as specified |
| SpawnInPlace.Registry.RemoveSpawn | linux-3.9_g_rework/crypto/algapi.c:90-112 | the instance is dead, and handed over if it was registered; nothing uses it any more |
| SpawnInPlace.Registry.RemoveInstances | linux-3.9_g_rework/crypto/algapi.c:154-159 | each instance is handed over once |
| SpawnInPlace.Registry.RemoveAlg | linux-3.9_g_rework/crypto/algapi.c:356-368 | exactly the algorithm and the instances built on it are dead and without users, exactly their spawns point at nothing, and everything else is as it was |
| MergeIndex.GrownBackBut | linux-3.9_g_rework/block/blk-core.c:1343-1363 | a back merge keeps the request one contiguous range as long as its bios; only its own hash entry is out of date |
| MergeIndex.GrownFrontInv | linux-3.9_g_rework/block/blk-core.c:1365-1393 | a front merge keeps the end, so the index stays true without an update |
| MergeIndex.RepositionedInv | linux-3.9_g_rework/block/elevator.c:267-271 | repositioning makes the index true again |
| MergeIndex.JoinedInv | linux-3.9_g_rework/block/elevator.c:511-528 | a request merge leaves one contiguous request, indexed at its new end, and the other gone from index and count |
| MergeIndex.JoinedNewInv | linux-3.9_g_rework/block/elevator.c:463-496 | so does merging a request that was not inserted yet |
| MergeIndex.InsertedInv | linux-3.9_g_rework/block/elevator.c:620-628 | sorted insertion keeps the index true |
| MergeIndex.DispatchedInv | linux-3.9_g_rework/block/elevator.c:397-409 | dispatch keeps the index true and never leaves last_merge on a request that is gone |
| MergeIndex.StepInv | linux-3.9_g_rework/block/elevator.c:498-528 | every step of inserting, merging, merging on, dispatching and looking up keeps contiguity and index |
| MergeIndex.RunInv | linux-3.9_g_rework/block/elevator.c:498-628 | they hold in every state of every run, in which requests of one bio and chains built before insertion are inserted |
| MergeIndex.FoundInItsBucket | linux-3.9_g_rework/block/elevator.c:273-292 | in every reachable state a request is findable under a sector if and only if it is mergeable and has an entry with that sector as key, which any hash function puts into the bucket that the lookup walks |
| MergeFlow.BiosConserved | linux-3.9_g_rework/block/elevator.c:498-628 | at every point of every run each bio has been submitted exactly as often as it was handed to the device and is held by requests in the scheduler, whatever merges moved it |
| MergeFlow.StopsMeansNone | linux-3.9_g_rework/block/elevator.c:484-495 | where no two mergeable requests end, the search stops only when no allowed one ends there |
| MergeFlow.TwinsHide | linux-3.9_g_rework/block/elevator.c:484-495 | where two mergeable requests end, there are limits for which it stops although an allowed one ends there |
| MergeInPlace.ElevatorQueue.Find | linux-3.9_g_rework/block/elevator.c:273-292 | finds a request if and only if a mergeable one ends at the sector, dropping stale entries on the way |
| MergeInPlace.ElevatorQueue.AttemptMerge | linux-3.9_g_rework/block/blk-merge.c:402-477 | merges exactly when both are mergeable, touch and nothing else forbids it |
| MergeInPlace.ElevatorQueue.BackMergeBio | linux-3.9_g_rework/block/blk-core.c:1498-1504 | in place: one back merge step, joined with the next request or not |
| MergeInPlace.ElevatorQueue.FrontMergeBio | linux-3.9_g_rework/block/blk-core.c:1505-1512 | in place: one front merge step, joined with the previous request or not |
| MergeInPlace.ElevatorQueue.ChooseMerge | linux-3.9_g_rework/block/elevator.c:412-454 | last_merge is chosen if it takes the bio, then the first request found in the hash if it fits, then what the scheduler names; what is chosen touches the bio on the right side |
| MergeInPlace.ElevatorQueue.AttemptInsertMerge | linux-3.9_g_rework/block/elevator.c:463-496 | merges if and only if last_merge or the first request found in the hash takes the new one; then every bio is held as often as before and those of the new request once more, they end the chain of one request, no other request that stays has changed, and the search has come upon none or one that is not allowed; the loop ends and keeps the index true |
| MergeInPlace.ElevatorQueue.MergeByHash | linux-3.9_g_rework/block/elevator.c:484-495 | the same for the loop over what the hash finds |
| MergeInPlace.ElevatorQueue.MergeOn | linux-3.9_g_rework/block/elevator.c:484-495 | the later turns: bios are conserved, only the request in hand changes, and no request, or one that is not allowed, is found where it begins |
| MergeInPlace.ElevatorQueue.AddRequest | linux-3.9_g_rework/block/elevator.c:620-628 | in place: the specified state |
| MergeInPlace.ElevatorQueue.Dispatch | linux-3.9_g_rework/block/elevator.c:397-409 | in place: the specified state |
| Discard.SplitTiles | linux-3.9_g_rework/block/blk-lib.c:87-124 | the bios tile the range in order, none is empty, and the split ends |
| Discard.SplitAligned | linux-3.9_g_rework/block/blk-lib.c:104-112 | no bio is longer than the limit, its bytes fit 32 bits, and every inner end is the last aligned sector within reach |
| Discard.InnerAreFull | linux-3.9_g_rework/block/blk-lib.c:64-70 | between the first and the last one every bio has exactly the maximum size |
| Discard.NextEndOk | linux-3.9_g_rework/block/blk-lib.c:100-113 | one bio: not empty, not too long, aligned where it is not the last |
| Discard.LimitsInSectors | linux-3.9_g_rework/block/blk-lib.c:61-75 | granularity and alignment in sectors, and the longest bio as the largest multiple of the granularity within the limit and 32 bits of bytes |
| Discard.IssueDiscard | linux-3.9_g_rework/block/blk-lib.c:40-135 | the loop submits exactly that split, or its beginning when an allocation fails, with the return code of the source |
| BlkgModel.LookupIsTree | linux-3.9_g_rework/block/blk-cgroup.c:161-186 | the hinted lookup gives what the tree holds |
| BlkgModel.CreatedInv | linux-3.9_g_rework/block/blk-cgroup.c:211-275 | creation below an existing parent group keeps trees, hints and parent links true |
| BlkgModel.CreatedMissing | linux-3.9_g_rework/block/blk-cgroup.c:314-326 | each creation on the way leaves one cgroup less without a group |
| BlkgModel.DestroyedInv | linux-3.9_g_rework/block/blk-cgroup.c:330-367 | removing a group keeps them true if and only if no child cgroup has a group on that queue |
| BlkgModel.StepInv | linux-3.9_g_rework/block/blk-cgroup.c:161-367 | creation, hinting, going offline children first and removal keep the invariant |
| BlkgModel.ReachableLookup | linux-3.9_g_rework/block/blk-cgroup.c:161-186 | in every reachable state hinted and plain lookup agree, and a group has a group of every ancestor above it |
| BlkgInPlace.Blkcgs.Lookup | linux-3.9_g_rework/block/blk-cgroup.c:161-186 | the group in the tree; with update_hint a group that is found becomes the hint of its cgroup, and no hint changes otherwise |
| BlkgInPlace.Blkcgs.Create | linux-3.9_g_rework/block/blk-cgroup.c:211-275 | the new group linked to the parent group, or the error of the failing step and no change; memory for group and tree is needed |
| BlkgInPlace.Blkcgs.Topmost | linux-3.9_g_rework/block/blk-cgroup.c:315-321 | the topmost cgroup without a group, whose parent has one |
| BlkgInPlace.Blkcgs.LookupCreate | linux-3.9_g_rework/block/blk-cgroup.c:291-327 | success leaves every ancestor with a linked group, and only groups on that queue of the cgroup and its ancestors are added; it is had whenever the queue is in use, the cgroup is online and memory suffices, and otherwise the error says which was missing; the missing parent group is never met |
| BlkgInPlace.Blkcgs.Destroy | linux-3.9_g_rework/block/blk-cgroup.c:330-367 | in place: the specified state |
| BlkgInPlace.Blkcgs.DestroyAll | linux-3.9_g_rework/block/blk-cgroup.c:375-395 | exactly the groups on the queue go, newest first, and everything stays true on the way |

## Left out

In all parts

- Spinlocks, RCU, interrupts and work queues: a function that runs under the queue lock is one step, and what other
  contexts do comes between steps.
- jiffies is a natural number that never goes down; time_before and its wrap-around are not modelled, so a time 2^31
  jiffies ahead or more, which the source takes for one in the past, lies in the future here. An unsigned long has 32
  bits and HZ is 200, as on the ARM platforms this tree is built for.
- Red-black trees, radix trees and hash tables are sequences and maps in the order the source keeps them; balancing
  and the hash function are not modelled (the merge index is proved for any hash function).
- Reference counts, memory allocation, tracing, statistics and messages; an allocation that may fail is a parameter.

Flush sequencer

- blk_abort_flushes and blkdev_issue_flush; a run has no abort. A request has no bios here, so the BUG_ON of
  blk_insert_flush on more than one bio is not covered.
- Reordering and merging of what is on the dispatch list; the device fetches from its front.

Throttler

- Changes of limits while a group is in use, blk_throtl_drain, the work item and its scheduling, and the configuration
  files. The limits of a group are fixed when it is made.
- SelectDispatch: requires that the queued bios are gentle for 2^32 (`ThrottleProgress.Gentle`), where the source
  demands nothing, because the loop need not end otherwise (LoopStands); the whole loop runs at one reading of jiffies.

Deadline scheduler

- deadline_merge, its lookup of a front merge candidate (`Merge*.dfy` takes it as a parameter), and changes of the
  tunables while requests are queued.

CFQ

- Everything below the group level: queues, slices, idling, think time, cooperators, and how cfq_group_served works out
  the charge from slice and queue; the charge is a parameter.
- A division by zero ends a run; what the machine does after it is not modelled.
- Virtual times are natural numbers; the wrap-around of their 64 bits is not modelled.
- Groups are never freed, and every group stays below the parent it was made with.

Segments

- Padding and drain entries, integrity segments, and the limits on sectors; those, `special` and the device are refusals
  before or after the sizes are written.
- A request is all data or all without data, as the comparison of REQ_DISCARD in blk_check_merge_flags ensures; sizes
  add up without overflow, as __data_len does; the boundary mask is one less than a power of two.

Completion

- Bidirectional requests, integrity data, mixed merge flags and the segment recount at the end, which is
  SegmentInPlace.Request.Recalc.
- UpdateRequest: requires that a bio with vectors is as large as they are; the source indexes past its vectors
  otherwise.

Merging

- attempt_plug_merge, insertion at the front, at the back and for flushes, the order elv_dispatch_sort keeps on the
  dispatch list, failfast flags and priorities.

Discards

- Waiting for the bios and collecting their results beyond one flag; blkdev_issue_write_same and blkdev_issue_zeroout.

Groups of a block cgroup

- Policy data, request lists, the lists of groups by cgroup and by queue (their order is that of creation); queue ids
  are taken as unique.

AES

- The literal tables other than the two S-boxes: crypto_ft_tab, crypto_it_tab and the other rows of crypto_fl_tab and
  crypto_il_tab are derived from them.
- The registration with the crypto interface.

Removal of algorithms

- crypto_remove_spawns with a replacement algorithm, and with it the restoring of spawns and the comparison of types,
  which without a replacement always agrees.
- Notifications and the holding of modules; whether a template can be held is a fixed property of an instance.
